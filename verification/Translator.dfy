/**
 * The event handlers of the BLE translator over mutable device contexts, each proved to take exactly the
 * step of the Lifecycle state machine, so that everything proved of its runs holds of the handlers.
 */
module Translator {
  import opened BackOff
  import opened DeviceIds
  import opened Lifecycle
  import opened LifecycleSafety

  /** A device context (struct ble_device): names never change, the handlers update the rest in place. */
  class BleDevice {
    const ptr: nat
    const address: Address
    const path: string
    const id: string
    var registered: bool
    var connected: bool
    var servicesResolved: bool
    var hasJson: bool
    var retryTimerSource: nat
    /** What the live source was given as its delay. */
    var retryTimeOutMs: nat
    var connectionRetries: nat
    var lastConnected: nat
    ghost var attempts: nat

    constructor (ptr: nat, address: Address, path: string, id: string, now: nat)
      ensures View() == Device(ptr, address, path, id, false, false, false, false, 0, 0, 0, now, 0)
      ensures this.ptr == ptr
    {
      this.ptr, this.address, this.path, this.id := ptr, address, path, id;
      registered, connected, servicesResolved, hasJson := false, false, false, false;
      retryTimerSource, retryTimeOutMs, connectionRetries, lastConnected, attempts := 0, 0, 0, now, 0;
    }

    ghost function View(): (d: Device)
      reads this
      ensures d.ptr == ptr && d.id == id && d.address == address && d.path == path
    {
      Device(ptr, address, path, id, registered, connected, servicesResolved, hasJson,
             retryTimerSource, retryTimeOutMs, connectionRetries, lastConnected, attempts)
    }
  }

  ghost function Views(devices: seq<BleDevice>): (r: seq<Device>)
    reads devices
    ensures |r| == |devices|
    ensures forall i :: 0 <= i < |devices| ==> r[i] == devices[i].View()
  {
    seq(|devices|, i requires 0 <= i < |devices| reads devices => devices[i].View())
  }

  class Loop {
    const postfix: string
    var devices: seq<BleDevice>
    var timers: map<nat, BleDevice>
    var nextSource: nat
    var nextPtr: nat
    var idle: seq<Message>
    var edgeUp: bool
    var running: bool
    var unregistering: bool
    var quit: bool
    var now: nat
    ghost var pending: Pending
    ghost var history: History

    ghost function TimerView(): map<nat, nat>
      reads this
    {
      map t | t in timers :: timers[t].ptr
    }

    ghost function View(): System
      reads this, devices
    {
      System(postfix, Views(devices), TimerView(), nextSource, nextPtr, pending, idle,
             edgeUp, running, unregistering, quit, now, history)
    }

    /** Every context ever allocated, by its number: equal numbers mean the same object. */
    ghost var contexts: map<nat, BleDevice>

    ghost predicate Identified()
      reads this`devices, this`timers, this`contexts, this`nextPtr
    {
      && (forall i, j :: 0 <= i < j < |devices| ==> devices[i].ptr != devices[j].ptr)
      && (forall i :: 0 <= i < |devices| ==> devices[i].ptr in contexts && contexts[devices[i].ptr] == devices[i])
      && (forall t :: t in timers ==> timers[t].ptr in contexts && contexts[timers[t].ptr] == timers[t])
      && (forall p :: p in contexts ==> p < nextPtr)
    }

    /** The list holds only contexts it held before and new ones. */
    twostate predicate Kept()
      reads this
    {
      forall i :: 0 <= i < |devices| ==> devices[i] in old(devices) || fresh(devices[i])
    }

    ghost predicate Valid()
      reads this, devices
    {
      Identified() && Safe(View())
    }

    constructor (postfix: string, now: nat)
      ensures Valid() && View() == Initial(postfix, now) && devices == []
    {
      this.postfix := postfix;
      devices, timers, nextSource, nextPtr, idle := [], map[], 1, 0, [];
      edgeUp, running, unregistering, quit := false, true, false, false;
      this.now := now;
      contexts := map[];
      pending := Pending(multiset{}, multiset{}, multiset{}, multiset{});
      history := History({}, false, false, false, false, []);
    }

    // ---------- Looking devices up ----------

    method FindById(id: string) returns (k: nat)
      ensures k == FindId(Views(devices), id)
    {
      k := 0;
      while k < |devices| && devices[k].id != id
        invariant k <= |devices|
        invariant forall j :: 0 <= j < k ==> devices[j].id != id
      {
        k := k + 1;
      }
    }

    method FindByPath(path: string) returns (k: nat)
      ensures k == FindPath(Views(devices), path)
    {
      k := 0;
      while k < |devices| && devices[k].path != path
        invariant k <= |devices|
        invariant forall j :: 0 <= j < k ==> devices[j].path != path
      {
        k := k + 1;
      }
    }

    // ---------- Elementary changes ----------

    method SetConnected(k: nat, value: bool)
      requires Identified() && k < |devices|
      modifies devices[k]
      ensures View() == Put(old(View()), k, old(View()).devices[k].(connected := value))
    {
      devices[k].connected := value;
      assert Views(devices) == old(Views(devices))[k := devices[k].View()];
    }

    method SetRegistered(k: nat, value: bool)
      requires Identified() && k < |devices|
      modifies devices[k]
      ensures View() == Put(old(View()), k, old(View()).devices[k].(registered := value))
    {
      devices[k].registered := value;
      assert Views(devices) == old(Views(devices))[k := devices[k].View()];
    }

    /** device_stop_retry_timer */
    method StopRetryTimer(k: nat)
      requires Identified() && k < |devices| && 0 !in timers
      modifies this`timers, devices[k]
      ensures View() == Disarm(old(View()), k) && Identified()
    {
      var ble := devices[k];
      if ble.retryTimerSource != 0 {
        timers := timers - {ble.retryTimerSource};
        ble.retryTimerSource := 0;
      }
      assert Views(devices) == old(Views(devices))[k := devices[k].View()];
      assert TimerView() == old(TimerView()) - {old(ble.retryTimerSource)};
    }

    /** devices_del_device */
    method DelDevice(k: nat)
      requires Identified() && k < |devices| && 0 !in timers
      modifies this`timers, this`devices, devices[k]
      ensures View() == Delete(old(View()), k) && Identified()
      ensures devices == old(devices)[..k] + old(devices)[k + 1..]
    {
      StopRetryTimer(k);
      ghost var stopped := Views(devices);
      devices := devices[..k] + devices[k + 1..];
      hide TimerView;
      assert Views(devices) == stopped[..k] + stopped[k + 1..];
    }

    /** pt_edge_del_device */
    method EdgeDelDevice(k: nat)
      requires Identified() && k < |devices| && 0 !in timers
      modifies this, devices[k]
      ensures devices == old(devices) || devices == old(devices)[..k] + old(devices)[k + 1..]
      ensures View() == EdgeDelete(old(View()), k) && Identified()
    {
      DelDevice(k);
      if unregistering {
        if |devices| == 0 {
          idle := idle + [Quit];
        }
      }
    }

    /** The request behind edge_unregister_device; `accepted` is what the Edge client answers. */
    ghost method IssueUnregister(id: string, delete: bool)
      modifies this`pending
      ensures View() == Unregister(old(View()), id, delete)
    {
      pending := pending.(unregisters := pending.unregisters + multiset{(id, delete)});
    }

    /** Unregister with deletion of the context, at once when the request is not taken. */
    method RetireDevice(k: nat, accepted: bool)
      requires Identified() && k < |devices| && 0 !in timers
      modifies this, devices[k]
      ensures devices == old(devices) || devices == old(devices)[..k] + old(devices)[k + 1..]
      ensures View() == Retire(old(View()), k, accepted) && Identified()
    {
      if accepted {
        IssueUnregister(devices[k].id, true);
      } else {
        EdgeDelDevice(k);
      }
    }

    // ---------- Reconnection ----------

    /** g_timeout_add: a new source that carries the context. */
    method AddTimer(ble: BleDevice) returns (source: nat)
      requires Identified() && ble in devices
      modifies this`timers, this`nextSource
      ensures source == old(nextSource) && nextSource == source + 1
      ensures TimerView() == old(TimerView())[source := ble.ptr] && Identified()
    {
      timers := timers[nextSource := ble];
      source := nextSource;
      nextSource := nextSource + 1;
      assert TimerView() == old(TimerView())[source := ble.ptr];
    }

    method ArmRetryTimer(k: nat, ms: nat)
      requires Identified() && k < |devices|
      modifies this`timers, this`nextSource, devices[k]
      ensures View() == Arm(old(View()), k, ms) && Identified()
    {
      hide Views, Identified, TimerView;
      var source := AddTimer(devices[k]);
      devices[k].retryTimerSource, devices[k].retryTimeOutMs := source, ms;
      assert Views(devices) == old(Views(devices))[k := devices[k].View()];
    }

    method CountAttempts(k: nat)
      requires Identified() && k < |devices|
      modifies devices[k]
      ensures View() == Put(old(View()), k, CountAttempt(old(View()).devices[k]))
    {
      if devices[k].connectionRetries < MAX_CONNECTION_RETRIES {
        devices[k].connectionRetries := devices[k].connectionRetries + 1;
      }
      devices[k].attempts := devices[k].attempts + 1;
      assert Views(devices) == old(Views(devices))[k := devices[k].View()];
    }

    /** The unreachable device is unregistered, with its context after a day. */
    method UnregisterUnreachable(k: nat, removeContext: bool, accepted: bool)
      requires Identified() && k < |devices| && 0 !in timers
      modifies this, devices[k]
      ensures devices == old(devices) || devices == old(devices)[..k] + old(devices)[k + 1..]
      ensures var d, s := old(View()).devices[k], old(View());
              var u := Log(s, GiveUp(d.attempts, s.now - d.lastConnected, removeContext));
              View() == (if removeContext then Retire(u, k, accepted) else if accepted then Unregister(u, d.id, false) else u)
      ensures Identified() && (!removeContext ==> devices == old(devices))
    {
      hide Retire, Unregister;
      var ble := devices[k];
      history := history.(gaveUp := history.gaveUp + [GiveUp(ble.attempts, now - ble.lastConnected, removeContext)]);
      if removeContext {
        RetireDevice(k, accepted);
      } else if accepted {
        IssueUnregister(ble.id, false);
      }
    }

    lemma ViewAt(k: nat)
      requires k < |devices|
      ensures |View().devices| == |devices| && View().devices[k] == devices[k].View() && View().now == now
    {
    }

    /** ble_start_reconnection_timer_or_unregister_device */
    method StartReconnectionTimerOrUnregister(k: nat, accepted: bool)
      requires Identified() && k < |devices| && 0 !in timers
      modifies this, devices[k]
      ensures devices == old(devices) || devices == old(devices)[..k] + old(devices)[k + 1..]
      ensures View() == Reconnect(old(View()), k, accepted) && Identified()
    {
      hide Retire, Arm, Log, Unregister, BackOffMs, Views, View;
      var ble := devices[k];
      ViewAt(k);
      if ble.retryTimerSource == 0 {
        CountAttempts(k);
        ViewAt(k);
        var timeout := BackOffTimeInMs(ble.connectionRetries);
        var elapsed := (now - ble.lastConnected) % TWO_64;
        var removeContext := false;
        assert View().devices[k] == CountAttempt(old(View()).devices[k]);
        if timeout > MAX_BACK_OFF_SECS * 1000 {
          removeContext := elapsed >= MAX_RETRY_SECS;
          if elapsed >= MAX_BACK_OFF_SECS {
            UnregisterUnreachable(k, removeContext, accepted);
          }
        }
        if !removeContext {
          ArmRetryTimer(k, timeout);
        }
      }
    }

    // ---------- Service discovery ----------

    /** ble_on_services_resolved for the device at position k; discovery finds no introspection list. */
    method ResolveServices(k: nat)
      requires Valid() && k < |devices|
      modifies this`pending, this`history, devices[k]
      ensures View() == ResolveAt(old(View()), k)
    {
      var ble := devices[k];
      if !ble.servicesResolved {
        assert Counted(View().devices[k], View().now);
        assert !ble.hasJson;
        ble.hasJson := true;
        ble.servicesResolved := true;
        assert Views(devices) == old(Views(devices))[k := ble.View()];
      }
      if !ble.registered {
        pending := pending.(registers := pending.registers + multiset{ble.id});
      }
    }

    method OnServicesResolved(address: Address)
      requires Valid()
      modifies this`pending, this`history, devices
      ensures View() == Resolve(old(View()), address)
    {
      if edgeUp {
        var k := FindById(DeviceId(address, postfix));
        if k < |devices| {
          ResolveServices(k);
        }
      }
    }

    /** pt_ble_pt_ready */
    method PtReady(resolveNow: set<string>)
      requires Valid()
      modifies this`pending, this`history, devices
      ensures View() == ReadyFrom(old(View()), 0, resolveNow)
    {
      hide Resolve, Safe, Views;
      ghost var before := View();
      var k := 0;
      while k < |devices|
        invariant k <= |devices| && Valid()
        invariant ReadyFrom(View(), k, resolveNow) == ReadyFrom(before, 0, resolveNow)
      {
        if edgeUp && devices[k].id in resolveNow {
          ResolveSafe(View(), devices[k].address);
          OnServicesResolved(devices[k].address);
        }
        k := k + 1;
      }
    }

    // ---------- Shutdown ----------

    /** ble_remove_device */
    method RemoveDevice(k: nat, reachable: set<string>)
      requires Identified() && k < |devices| && 0 !in timers
      modifies this`timers, this`pending, this`history, devices[k]
      ensures View() == RemoveAt(old(View()), k, reachable) && Identified() && 0 !in timers
    {
      var ble := devices[k];
      StopRetryTimer(k);
      assert 0 !in View().timers && TimerView() == View().timers;
      if ble.id in reachable {
        pending := pending.(removals := pending.removals + multiset{ble.id});
      } else {
        history := history.(skipped := history.skipped + {ble.ptr});
      }
    }

    /** unregister_devices */
    method UnregisterDevices(reachable: set<string>)
      requires Identified() && 0 !in timers
      modifies this, devices
      ensures Kept()
      ensures View() == UnregisterAll(old(View()), reachable) && Identified()
    {
      hide RemoveAt;
      if !unregistering {
        unregistering := true;
        if |devices| == 0 {
          idle := idle + [Quit];
        } else {
          ghost var before := View();
          var k := 0;
          while k < |devices|
            invariant k <= |devices| && Identified() && 0 !in timers && devices == old(devices)
            invariant RemoveFrom(View(), k, reachable) == RemoveFrom(before, 0, reachable)
          {
            RemoveDevice(k, reachable);
            k := k + 1;
          }
        }
      }
    }

    /** pt_ble_graceful_shutdown */
    method GracefulShutdown(reachable: set<string>)
      requires Identified() && 0 !in timers
      modifies this, devices
      ensures Kept()
      ensures View() == Graceful(old(View()), reachable) && Identified()
    {
      hide UnregisterAll;
      if !running {
        idle := idle + [Quit];
        history := history.(early := true);
      } else {
        running := false;
      }
      UnregisterDevices(reachable);
    }

    // ---------- Event handlers ----------

    /** ble_create_device_context */
    method CreateDeviceContext(address: Address, path: string)
      requires Identified()
      modifies this
      ensures Kept()
      ensures View() == Track(old(View()), address, path) && Identified()
    {
      hide DeviceId;
      var id := DeviceId(address, postfix);
      var k := FindById(id);
      if k == |devices| {
        AddContext(address, path, id);
      }
    }

    /** device_create and devices_link_device */
    method AddContext(address: Address, path: string, id: string)
      requires Identified()
      modifies this`devices, this`contexts, this`nextPtr
      ensures Kept()
      ensures var s := old(View());
              View() == s.(devices := s.devices + [Device(s.nextPtr, address, path, id, false, false, false, false, 0, 0, 0, s.now, 0)],
                           nextPtr := s.nextPtr + 1)
      ensures Identified()
    {
      hide Views;
      var ble := new BleDevice(nextPtr, address, path, id, now);
      contexts := contexts[nextPtr := ble];
      nextPtr := nextPtr + 1;
      devices := devices + [ble];
      assert Views(devices) == old(Views(devices)) + [ble.View()];
    }

    /** ble_connect_done */
    method OnConnectDone(address: Address, ok: bool, created: bool, servicesResolved: bool, accepted: bool)
      requires Valid()
      modifies this, devices
      ensures Kept()
      ensures View() == Lifecycle.OnConnectDone(old(View()), address, ok, created, servicesResolved, accepted) && Identified()
    {
      hide Reconnect, Resolve, BypassDelete, Lifecycle.ResetRetries, Safe, DeviceId, Views;
      ZeroIsNoSource();
      var k := FindById(DeviceId(address, postfix));
      if k < |devices| {
        if !ok {
          StartReconnectionTimerOrUnregister(k, accepted);
        } else {
          OnConnectSucceeded(k, address, created, servicesResolved);
        }
      }
    }

    method OnConnectSucceeded(k: nat, address: Address, created: bool, servicesResolved: bool)
      requires Valid() && k < |devices| && 0 !in timers
      modifies this, devices
      ensures devices == old(devices) || devices == old(devices)[..k] + old(devices)[k + 1..]
      ensures var t := Lifecycle.ResetRetries(old(View()), k);
              View() == (if t.edgeUp && !created then BypassDelete(t, k)
                         else if t.edgeUp && servicesResolved then Resolve(t, address) else t)
      ensures Identified()
    {
      hide Resolve, BypassDelete, Safe, Views;
      ResetRetries(k);
      if edgeUp && !created {
        DropDevice(k);
      } else if edgeUp && servicesResolved {
        OnServicesResolved(address);
      }
    }

    /** The context whose Edge device could not be created is deleted without looking whether it was the last. */
    method DropDevice(k: nat)
      requires Identified() && k < |devices| && 0 !in timers
      modifies this, devices[k]
      ensures devices == old(devices) || devices == old(devices)[..k] + old(devices)[k + 1..]
      ensures View() == BypassDelete(old(View()), k) && Identified()
    {
      hide Views;
      DelDevice(k);
      history := history.(bypassed := history.bypassed || (unregistering && |devices| == 0));
    }

    lemma ZeroIsNoSource()
      requires Valid()
      ensures 0 !in timers
    {
      assert 0 !in View().timers;
    }

    method ResetRetries(k: nat)
      requires Valid() && k < |devices|
      modifies devices[k]
      ensures View() == Lifecycle.ResetRetries(old(View()), k) && Valid()
    {
      ResetSafe(View(), k);
      hide Safe, Views;
      var ble := devices[k];
      ble.lastConnected, ble.connectionRetries, ble.attempts := now, 0, 0;
      assert Views(devices) == old(Views(devices))[k := ble.View()];
    }

    method OnConnected(address: Address)
      requires Valid()
      modifies devices
      ensures View() == Lifecycle.OnConnected(old(View()), address)
    {
      hide DeviceId, Safe, Views;
      var k := FindById(DeviceId(address, postfix));
      if k < |devices| { SetConnected(k, true); }
    }

    /** ble_on_disconnect */
    method OnDisconnected(address: Address, accepted: bool)
      requires Valid()
      modifies this, devices
      ensures Kept()
      ensures View() == Lifecycle.OnDisconnected(old(View()), address, accepted) && Identified()
    {
      hide Reconnect, DeviceId, Safe, Views;
      ZeroIsNoSource();
      var k := FindById(DeviceId(address, postfix));
      if k < |devices| {
        SetConnected(k, false);
        StartReconnectionTimerOrUnregister(k, accepted);
      }
    }

    /** ble_retry_connect: the pointer the timer carries is a listed context. */
    method RetryConnect(source: nat)
      requires Valid() && source in timers
      modifies this`timers, this`pending, devices
      ensures View() == OnTimer(old(View()), source) && Identified()
    {
      ghost var k := FindPtr(View().devices, View().timers[source]);
      OnTimerSafe(View(), source);
      hide Safe, Views, FindPtr, Identified, Put, Connect;
      Reconnecting(source, k);
      assert FindPtr(old(View()).devices, old(View()).timers[source]) == k;
    }

    /** The body of the retry callback, for the context its pointer leads to. */
    method Reconnecting(source: nat, ghost k: nat)
      requires Identified() && source in timers && k < |devices| && timers[source].ptr == devices[k].ptr
      modifies this`timers, this`pending, devices[k]
      ensures var s := old(View());
              View() == Put(Connect(s.(timers := s.timers - {source}), s.devices[k].address), k, s.devices[k].(timer := 0))
      ensures Identified()
    {
      hide Views;
      var ble := timers[source];
      assert ble == devices[k];
      pending := pending.(connects := pending.connects + multiset{ble.address});
      ble.retryTimerSource := 0;
      timers := timers - {source};
      assert Views(devices) == old(Views(devices))[k := ble.View()];
      assert TimerView() == old(TimerView()) - {source};
    }

    /** ble_remove_device_done */
    method OnRemoveDone(id: string, accepted: bool)
      requires Identified() && 0 !in timers
      modifies this, devices
      ensures Kept()
      ensures View() == Lifecycle.OnRemoveDone(old(View()), id, accepted) && Identified()
    {
      hide Retire, Views;
      var k := FindById(id);
      if k < |devices| { RetireDevice(k, accepted); }
    }

    /** ble_on_object_removed for a device path */
    method OnObjectRemoved(path: string, accepted: bool)
      requires Identified() && 0 !in timers
      modifies this, devices
      ensures Kept()
      ensures View() == Lifecycle.OnObjectRemoved(old(View()), path, accepted) && Identified()
    {
      hide Retire, Views;
      var k := FindByPath(path);
      if k < |devices| { RetireDevice(k, accepted); }
    }

    /** device_unregistered */
    method OnUnregistered(id: string, delete: bool)
      requires Identified() && 0 !in timers
      modifies this, devices
      ensures Kept()
      ensures View() == OnMessage(old(View()), Unregistered(id, delete), {}, {}) && Identified()
    {
      hide EdgeDelete, Views;
      var k := FindById(id);
      if k < |devices| {
        if delete {
          EdgeDelDevice(k);
        } else {
          SetRegistered(k, false);
        }
      }
    }

    /** device_registered */
    method OnRegistered(id: string)
      requires Identified()
      modifies devices
      ensures View() == OnMessage(old(View()), Registered(id), {}, {})
    {
      hide Views;
      var k := FindById(id);
      if k < |devices| { SetRegistered(k, true); }
    }

    /** The main loop takes the first message of the idle queue and runs its callback. */
    method DispatchIdle(resolveNow: set<string>, reachable: set<string>)
      requires Valid() && idle != [] && !quit
      modifies this, devices
      ensures Kept()
      ensures View() == Step(old(View()), Dispatch(resolveNow, reachable)) && Identified()
    {
      hide Views, OnMessage, Safe;
      ghost var before := View();
      var m := idle[0];
      idle := idle[1..];
      StillValid(before);
      RunMessage(m, resolveNow, reachable);
    }

    method RunMessage(m: Message, resolveNow: set<string>, reachable: set<string>)
      requires Valid()
      modifies this, devices
      ensures Kept()
      ensures View() == OnMessage(old(View()), m, resolveNow, reachable) && Identified()
    {
      hide Views, Safe, Graceful, ReadyFrom, Put, EdgeDelete;
      ZeroIsNoSource();
      match m
      case Quit => if !running { quit := true; }
      case Unregistered(id, delete) => OnUnregistered(id, delete);
      case Registered(id) => OnRegistered(id);
      case Ready => PtReady(resolveNow);
      case Shutdown => GracefulShutdown(reachable);
    }

    // ---------- The event loop ----------

    /** Completions from the Edge client thread, which post a callback, and the registrations that follow a new session. */
    method OnEdgeCompletion(e: Event)
      requires Valid() && Enabled(View(), e)
      requires e.UnregisterDone? || e.RegisterDone? || e.TranslatorRegistered?
      modifies this`pending, this`idle
      ensures View() == Step(old(View()), e)
    {
      hide Views, Safe, Ids;
      if e.UnregisterDone? {
        pending := pending.(unregisters := pending.unregisters - multiset{(e.id, e.delete)});
        idle := idle + [Unregistered(e.id, e.delete)];
      } else if e.RegisterDone? {
        pending := pending.(registers := pending.registers - multiset{e.id});
        if e.ok { idle := idle + [Registered(e.id)]; }
      } else {
        pending := pending.(registers := pending.registers + Ids(Views(devices)));
      }
    }

    /** Changes of the connection to Edge, which set flags and post a callback, and the passing of time. */
    method OnEdgeChange(e: Event)
      requires Valid() && Enabled(View(), e)
      requires e.PeerShutdown? || e.StartFailed? || e.EdgeReady? || e.EdgeLost? || e.Tick?
      modifies this`idle, this`running, this`edgeUp, this`now
      ensures View() == Step(old(View()), e)
    {
      hide Views, Safe;
      if e.PeerShutdown? {
        if running || e.registrationFailed {
          running := false;
          idle := idle + [Shutdown];
        }
      } else if e.StartFailed? {
        running := false;
      } else if e.EdgeReady? {
        edgeUp := true;
        idle := idle + [Ready];
      } else if e.EdgeLost? {
        edgeUp := false;
      } else {
        now := now + e.seconds;
      }
    }

    /** Signals of device proxies and completions of Connect. */
    method OnProxyEvent(e: Event)
      requires Valid() && Enabled(View(), e)
      requires e.NewDevice? || e.ConnectDone? || e.Connected? || e.Disconnected? || e.ServicesResolved?
      modifies this, devices
      ensures Kept()
      ensures View() == Step(old(View()), e) && Identified()
    {
      hide Views, Safe, Resolve, Track, Lifecycle.OnConnectDone, Lifecycle.OnDisconnected, Lifecycle.OnConnected;
      if e.NewDevice? {
        if running {
          CreateDeviceContext(e.address, e.path);
          pending := pending.(connects := pending.connects + multiset{e.address});
        }
      } else if e.ConnectDone? {
        pending := pending.(connects := pending.connects - multiset{e.address});
        StillValid(old(View()));
        OnConnectDone(e.address, e.ok, e.created, e.servicesResolved, e.accepted);
      } else if e.Connected? {
        OnConnected(e.address);
      } else if e.Disconnected? {
        OnDisconnected(e.address, e.accepted);
      } else {
        OnServicesResolved(e.address);
      }
    }

    lemma StillValid(s: System)
      requires Safe(s) && Identified()
      requires View() == s.(pending := pending, idle := idle)
      ensures Valid()
    {
    }

    /** Timers, completions of RemoveDevice, removed objects, queued callbacks and signals. */
    method OnLoopEvent(e: Event)
      requires Valid() && Enabled(View(), e)
      requires e.TimerFires? || e.RemoveDone? || e.ObjectRemoved? || e.Dispatch? || e.Signal?
      modifies this, devices
      ensures Kept()
      ensures View() == Step(old(View()), e) && Identified()
    {
      hide Views, Safe, Graceful, OnTimer, Lifecycle.OnRemoveDone, Lifecycle.OnObjectRemoved;
      ZeroIsNoSource();
      if e.TimerFires? {
        RetryConnect(e.source);
      } else if e.RemoveDone? {
        pending := pending.(removals := pending.removals - multiset{e.id});
        OnRemoveDone(e.id, e.accepted);
      } else if e.ObjectRemoved? {
        OnObjectRemoved(e.path, e.accepted);
      } else if e.Dispatch? {
        hide Step;
        DispatchIdle(e.resolveNow, e.reachable);
      } else {
        GracefulShutdown(e.reachable);
      }
    }

    method OnEvent(e: Event)
      requires Valid() && Enabled(View(), e)
      modifies this, devices
      ensures Kept()
      ensures View() == Step(old(View()), e) && Identified()
    {
      hide Safe, Step, Views, View, Enabled, Identified;
      if e.TimerFires? || e.RemoveDone? || e.ObjectRemoved? || e.Dispatch? || e.Signal? {
        OnLoopEvent(e);
      } else if e.NewDevice? || e.ConnectDone? || e.Connected? || e.Disconnected? || e.ServicesResolved? {
        OnProxyEvent(e);
      } else if e.UnregisterDone? || e.RegisterDone? || e.TranslatorRegistered? {
        OnEdgeCompletion(e);
      } else {
        OnEdgeChange(e);
      }
    }

    /** One iteration of the event loop takes exactly the step of the state machine. */
    method Handle(e: Event)
      requires Valid() && Enabled(View(), e)
      modifies this, devices
      ensures Kept()
      ensures View() == Step(old(View()), e) && Valid()
    {
      hide Safe, Step, Views, View, Enabled, Identified;
      StepSafe(View(), e);
      OnEvent(e);
    }

    /** A whole run of the event loop is a run of the state machine, so it stays safe and its timers never dangle. */
    method RunEvents(es: seq<Event>)
      requires Valid() && Legal(View(), es)
      modifies this, devices
      ensures View() == Run(old(View()), es) && Valid()
    {
      ghost var before := View();
      var i := 0;
      while i < |es|
        invariant i <= |es| && Valid()
        invariant forall i :: 0 <= i < |devices| ==> devices[i] in old(devices) || fresh(devices[i])
        invariant Legal(View(), es[i..]) && Run(View(), es[i..]) == Run(before, es)
      {
        assert es[i..][0] == es[i] && es[i..][1..] == es[i + 1..];
        Handle(es[i]);
        i := i + 1;
      }
    }
  }
}
