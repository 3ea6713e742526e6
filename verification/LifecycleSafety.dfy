/** What every step of the device lifecycle keeps: identities, timers, the discovery latch and the give-up rule. */
module LifecycleSafety {
  import opened BackOff
  import opened DeviceIds
  import opened Lifecycle

  /** Ids come from addresses, and no two listed devices share one. */
  ghost predicate Named(devices: seq<Device>, postfix: string) {
    && (forall i :: 0 <= i < |devices| ==> devices[i].id == DeviceId(devices[i].address, postfix))
    && (forall i, j :: 0 <= i < j < |devices| ==> devices[i].id != devices[j].id)
  }

  /** Listed contexts are distinct allocations. */
  ghost predicate Allocated(devices: seq<Device>, nextPtr: nat) {
    && (forall i :: 0 <= i < |devices| ==> devices[i].ptr < nextPtr)
    && (forall i, j :: 0 <= i < j < |devices| ==> devices[i].ptr != devices[j].ptr)
  }

  /** The device holds source t: its field names the source and the source's data pointer names the device. */
  ghost predicate Holds(d: Device, timers: map<nat, nat>, t: nat) {
    d.timer == t && t in timers && timers[t] == d.ptr
  }

  /** Live sources and nonzero `retry_timer_source` fields correspond one to one. */
  ghost predicate Linked(devices: seq<Device>, timers: map<nat, nat>, nextSource: nat) {
    && nextSource > 0
    && (forall i :: 0 <= i < |devices| && devices[i].timer != 0 ==> Holds(devices[i], timers, devices[i].timer))
    && (forall t :: t in timers ==> 0 < t < nextSource && exists i :: 0 <= i < |devices| && Holds(devices[i], timers, t))
  }

  /**
   * Discovery has run exactly when the introspection list exists, and the stored retry counter is the true
   * number of failed attempts, saturated.
   */
  ghost predicate Counted(d: Device, now: nat) {
    && d.resolved == d.hasJson
    && d.retries == Min(d.attempts, MAX_CONNECTION_RETRIES)
    && d.lastConnected <= now
  }

  ghost predicate AllCounted(devices: seq<Device>, now: nat) {
    forall i :: 0 <= i < |devices| ==> Counted(devices[i], now)
  }

  ghost predicate GiveUpOk(g: GiveUp) {
    g.attempts >= 5 && g.elapsed >= MAX_BACK_OFF_SECS && (g.delete ==> g.elapsed >= MAX_RETRY_SECS)
  }

  ghost predicate AllJustified(gaveUp: seq<GiveUp>) {
    forall i :: 0 <= i < |gaveUp| ==> GiveUpOk(gaveUp[i])
  }

  ghost predicate Safe(s: System) {
    && Named(s.devices, s.postfix)
    && Allocated(s.devices, s.nextPtr)
    && Linked(s.devices, s.timers, s.nextSource)
    && AllCounted(s.devices, s.now)
    && AllJustified(s.history.gaveUp)
    && !s.history.listedTwice
    && !s.history.dangling
  }

  // ---------- Elementary changes ----------

  ghost predicate SameNames(d: Device, e: Device) {
    d.ptr == e.ptr && d.address == e.address && d.id == e.id
  }

  lemma PutLinked(devices: seq<Device>, timers: map<nat, nat>, nextSource: nat, k: nat, d: Device)
    requires Linked(devices, timers, nextSource) && k < |devices|
    requires d.ptr == devices[k].ptr && d.timer == devices[k].timer
    ensures Linked(devices[k := d], timers, nextSource)
  {
    var ds := devices[k := d];
    assert forall i :: 0 <= i < |ds| ==> ds[i].ptr == devices[i].ptr && ds[i].timer == devices[i].timer;
    forall t | t in timers ensures exists i :: 0 <= i < |ds| && Holds(ds[i], timers, t) {
      var i :| 0 <= i < |devices| && Holds(devices[i], timers, t);
      assert Holds(ds[i], timers, t);
    }
  }

  lemma PutNamed(devices: seq<Device>, postfix: string, nextPtr: nat, k: nat, d: Device)
    requires Named(devices, postfix) && Allocated(devices, nextPtr) && k < |devices| && SameNames(d, devices[k])
    ensures Named(devices[k := d], postfix) && Allocated(devices[k := d], nextPtr)
  {
    assert forall i :: 0 <= i < |devices| ==> SameNames(devices[k := d][i], devices[i]);
  }

  /** A context may change any field but its names and its timer, as long as latch and counter stay sound. */
  lemma PutSafe(s: System, k: nat, d: Device)
    requires Safe(s) && k < |s.devices|
    requires SameNames(d, s.devices[k]) && d.timer == s.devices[k].timer && Counted(d, s.now)
    ensures Safe(Put(s, k, d))
  {
    hide Named, Linked, Allocated;
    PutNamed(s.devices, s.postfix, s.nextPtr, k, d);
    PutLinked(s.devices, s.timers, s.nextSource, k, d);
  }

  function Without(devices: seq<Device>, k: nat): (r: seq<Device>)
    requires k < |devices|
    ensures |r| == |devices| - 1
    ensures forall i :: 0 <= i < |r| ==> r[i] == devices[if i < k then i else i + 1]
  {
    devices[..k] + devices[k + 1..]
  }

  lemma DeleteAllocated(devices: seq<Device>, nextPtr: nat, k: nat)
    requires Allocated(devices, nextPtr) && k < |devices|
    ensures Allocated(Without(devices, k), nextPtr)
  {
  }

  lemma OtherPtr(devices: seq<Device>, nextPtr: nat, j: nat, k: nat)
    requires Allocated(devices, nextPtr) && j < |devices| && k < |devices| && j != k
    ensures devices[j].ptr != devices[k].ptr
  {
    if j < k {} else {}
  }

  /** A device that stays keeps its timer. */
  lemma KeepsTimer(devices: seq<Device>, timers: map<nat, nat>, nextSource: nat, nextPtr: nat, k: nat, j: nat)
    requires Linked(devices, timers, nextSource) && Allocated(devices, nextPtr) && k < |devices| && j < |devices| && j != k
    requires devices[j].timer != 0
    ensures Holds(devices[j], timers - {devices[k].timer}, devices[j].timer)
  {
    OtherPtr(devices, nextPtr, j, k);
    hide Allocated;
    assert Holds(devices[j], timers, devices[j].timer);
    assert devices[k].timer != 0 ==> Holds(devices[k], timers, devices[k].timer);
  }

  /** A timer that stays keeps its device. */
  lemma KeepsOwner(devices: seq<Device>, timers: map<nat, nat>, nextSource: nat, k: nat, t: nat) returns (i: nat)
    requires Linked(devices, timers, nextSource) && k < |devices| && t in timers && t != devices[k].timer
    ensures i < |devices| - 1 && Holds(Without(devices, k)[i], timers - {devices[k].timer}, t)
  {
    var j :| 0 <= j < |devices| && Holds(devices[j], timers, t);
    i := if j < k then j else j - 1;
    assert Without(devices, k)[i] == devices[j];
  }

  lemma DeleteLinked(devices: seq<Device>, timers: map<nat, nat>, nextSource: nat, nextPtr: nat, k: nat)
    requires Linked(devices, timers, nextSource) && Allocated(devices, nextPtr) && k < |devices|
    ensures Linked(Without(devices, k), timers - {devices[k].timer}, nextSource)
    ensures Allocated(Without(devices, k), nextPtr)
  {
    DeleteAllocated(devices, nextPtr, k);
    var ds, ts := Without(devices, k), timers - {devices[k].timer};
    forall i | 0 <= i < |ds| && ds[i].timer != 0 ensures Holds(ds[i], ts, ds[i].timer) {
      KeepsTimer(devices, timers, nextSource, nextPtr, k, if i < k then i else i + 1);
    }
    forall t | t in ts ensures exists i :: 0 <= i < |ds| && Holds(ds[i], ts, t) {
      var i := KeepsOwner(devices, timers, nextSource, k, t);
    }
  }

  lemma DeleteNamed(devices: seq<Device>, postfix: string, k: nat)
    requires Named(devices, postfix) && k < |devices|
    ensures Named(Without(devices, k), postfix)
  {
    var ds := Without(devices, k);
    forall i, j | 0 <= i < j < |ds| ensures ds[i].id != ds[j].id {
      assert ds[i] == devices[if i < k then i else i + 1] && ds[j] == devices[if j < k then j else j + 1];
    }
  }

  lemma DeleteSafe(s: System, k: nat)
    requires Safe(s) && k < |s.devices|
    ensures Safe(Delete(s, k))
  {
    hide Named, Linked, Allocated;
    DeleteNamed(s.devices, s.postfix, k);
    DeleteLinked(s.devices, s.timers, s.nextSource, s.nextPtr, k);
    assert Delete(s, k).devices == Without(s.devices, k);
  }

  lemma ArmLinked(devices: seq<Device>, timers: map<nat, nat>, nextSource: nat, k: nat, ms: nat)
    requires Linked(devices, timers, nextSource) && k < |devices| && devices[k].timer == 0
    ensures Linked(devices[k := devices[k].(timer := nextSource, wait := ms)], timers[nextSource := devices[k].ptr], nextSource + 1)
  {
    var ds, ts := devices[k := devices[k].(timer := nextSource, wait := ms)], timers[nextSource := devices[k].ptr];
    forall i | 0 <= i < |ds| && ds[i].timer != 0 ensures Holds(ds[i], ts, ds[i].timer) {
      assert i != k ==> Holds(devices[i], timers, devices[i].timer);
    }
    forall t | t in ts ensures exists i :: 0 <= i < |ds| && Holds(ds[i], ts, t) {
      if t == nextSource {
        assert Holds(ds[k], ts, t);
      } else {
        var i :| 0 <= i < |devices| && Holds(devices[i], timers, t);
        assert Holds(ds[i], ts, t);
      }
    }
  }

  lemma ArmSafe(s: System, k: nat, ms: nat)
    requires Safe(s) && k < |s.devices| && s.devices[k].timer == 0
    ensures Safe(Arm(s, k, ms))
  {
    hide Named, Linked, Allocated;
    assert Counted(s.devices[k], s.now);
    PutNamed(s.devices, s.postfix, s.nextPtr, k, s.devices[k].(timer := s.nextSource, wait := ms));
    ArmLinked(s.devices, s.timers, s.nextSource, k, ms);
  }

  function Disarm(s: System, k: nat): System
    requires k < |s.devices|
  {
    Put(s, k, s.devices[k].(timer := 0)).(timers := s.timers - {s.devices[k].timer})
  }

  lemma DisarmLinked(devices: seq<Device>, timers: map<nat, nat>, nextSource: nat, nextPtr: nat, k: nat)
    requires Linked(devices, timers, nextSource) && Allocated(devices, nextPtr) && k < |devices|
    ensures Linked(devices[k := devices[k].(timer := 0)], timers - {devices[k].timer}, nextSource)
  {
    var ds, ts := devices[k := devices[k].(timer := 0)], timers - {devices[k].timer};
    forall i | 0 <= i < |ds| && ds[i].timer != 0 ensures Holds(ds[i], ts, ds[i].timer) {
      assert i != k && Holds(devices[i], timers, devices[i].timer);
      assert devices[k].timer != 0 ==> Holds(devices[k], timers, devices[k].timer);
      assert devices[i].ptr != devices[k].ptr;
    }
    forall t | t in ts ensures exists i :: 0 <= i < |ds| && Holds(ds[i], ts, t) {
      var i :| 0 <= i < |devices| && Holds(devices[i], timers, t);
      assert i != k;
      assert Holds(ds[i], ts, t);
    }
  }

  /** Dropping a source together with the field that names it. */
  lemma DisarmSafe(s: System, k: nat)
    requires Safe(s) && k < |s.devices|
    ensures Safe(Disarm(s, k))
  {
    hide Named, Linked, Allocated;
    assert Counted(s.devices[k], s.now);
    PutNamed(s.devices, s.postfix, s.nextPtr, k, s.devices[k].(timer := 0));
    DisarmLinked(s.devices, s.timers, s.nextSource, s.nextPtr, k);
  }

  lemma TrackLinked(devices: seq<Device>, timers: map<nat, nat>, nextSource: nat, nextPtr: nat, d: Device)
    requires Linked(devices, timers, nextSource) && Allocated(devices, nextPtr) && d.timer == 0 && d.ptr == nextPtr
    ensures Linked(devices + [d], timers, nextSource) && Allocated(devices + [d], nextPtr + 1)
  {
    var ds := devices + [d];
    assert forall i :: 0 <= i < |devices| ==> ds[i] == devices[i];
    forall t | t in timers ensures exists i :: 0 <= i < |ds| && Holds(ds[i], timers, t) {
      var i :| 0 <= i < |devices| && Holds(devices[i], timers, t);
      assert Holds(ds[i], timers, t);
    }
  }

  lemma TrackNamed(devices: seq<Device>, postfix: string, d: Device)
    requires Named(devices, postfix) && d.id == DeviceId(d.address, postfix) && FindId(devices, d.id) == |devices|
    ensures Named(devices + [d], postfix)
  {
    var ds := devices + [d];
    hide DeviceId;
    assert forall i :: 0 <= i < |devices| ==> ds[i] == devices[i];
  }

  lemma TrackSafe(s: System, address: Address, path: string)
    requires Safe(s)
    ensures Safe(Track(s, address, path))
  {
    hide Named, Linked, Allocated;
    if FindAddress(s, address) == |s.devices| {
      var d := Device(s.nextPtr, address, path, DeviceId(address, s.postfix), false, false, false, false, 0, 0, 0, s.now, 0);
      TrackNamed(s.devices, s.postfix, d);
      TrackLinked(s.devices, s.timers, s.nextSource, s.nextPtr, d);
    }
  }

  // ---------- Handlers ----------

  lemma RetireSafe(s: System, k: nat, accepted: bool)
    requires Safe(s) && k < |s.devices|
    ensures Safe(Retire(s, k, accepted)) && Safe(BypassDelete(s, k)) && Safe(EdgeDelete(s, k))
  {
    hide Named, Linked, Allocated;
    DeleteSafe(s, k);
  }

  lemma ReconnectSafe(s: System, k: nat, accepted: bool)
    requires Safe(s) && k < |s.devices|
    ensures Safe(Reconnect(s, k, accepted))
  {
    hide Named, Linked, Allocated, Overdue, Expired;
    if s.devices[k].timer == 0 {
      assert Counted(s.devices[k], s.now);
      var d := CountAttempt(s.devices[k]);
      var t := Put(s, k, d);
      PutSafe(s, k, d);
      OverdueJustified(d, s.now);
      if Overdue(d, s.now) {
        var g := GiveUp(d.attempts, s.now - d.lastConnected, Expired(d, s.now));
        LogSafe(t, g);
        GiveUpSafe(Log(t, g), k, g.delete, accepted, BackOffMs(d.retries));
      } else {
        ArmSafe(t, k, BackOffMs(d.retries));
      }
    }
  }

  lemma OverdueJustified(d: Device, now: nat)
    requires Counted(d, now) && d.retries > 0
    ensures Overdue(d, now) ==> GiveUpOk(GiveUp(d.attempts, now - d.lastConnected, Expired(d, now)))
    ensures now - d.lastConnected < TWO_64 ==>
              (Overdue(d, now) <==> d.attempts >= 5 && now - d.lastConnected >= 300)
              && (Expired(d, now) <==> now - d.lastConnected >= 86400)
  {
    BackOffBounds(d.retries, d.retries);
  }

  lemma LogSafe(s: System, g: GiveUp)
    requires Safe(s) && GiveUpOk(g)
    ensures Safe(Log(s, g))
  {
  }

  lemma GiveUpSafe(s: System, k: nat, delete: bool, accepted: bool, ms: nat)
    requires Safe(s) && k < |s.devices| && s.devices[k].timer == 0
    ensures Safe(if delete then Retire(s, k, accepted)
                 else Arm(if accepted then Unregister(s, s.devices[k].id, false) else s, k, ms))
  {
    hide Named, Linked, Allocated;
    if delete {
      RetireSafe(s, k, accepted);
    } else {
      ArmSafe(if accepted then Unregister(s, s.devices[k].id, false) else s, k, ms);
    }
  }

  lemma ResolveSafe(s: System, address: Address)
    requires Safe(s)
    ensures Safe(Resolve(s, address)) && |Resolve(s, address).devices| == |s.devices|
  {
    hide Named, Linked, Allocated;
    var k := FindAddress(s, address);
    if s.edgeUp && k < |s.devices| {
      assert Counted(s.devices[k], s.now);
      PutSafe(s, k, s.devices[k].(resolved := true, hasJson := true));
    }
  }

  lemma {:induction false} ReadySafe(s: System, k: nat, resolveNow: set<string>)
    requires Safe(s) && k <= |s.devices|
    ensures Safe(ReadyFrom(s, k, resolveNow))
    decreases |s.devices| - k
  {
    if k < |s.devices| {
      ResolveSafe(s, s.devices[k].address);
      ReadySafe(if s.edgeUp && s.devices[k].id in resolveNow then Resolve(s, s.devices[k].address) else s, k + 1, resolveNow);
    }
  }

  lemma {:induction false} RemoveFromSafe(s: System, k: nat, reachable: set<string>)
    requires Safe(s) && k <= |s.devices|
    ensures Safe(RemoveFrom(s, k, reachable))
    decreases |s.devices| - k
  {
    if k < |s.devices| {
      RemoveAtSafe(s, k, reachable);
      RemoveFromSafe(RemoveAt(s, k, reachable), k + 1, reachable);
    }
  }

  lemma RemoveAtSafe(s: System, k: nat, reachable: set<string>)
    requires Safe(s) && k < |s.devices|
    ensures Safe(RemoveAt(s, k, reachable))
  {
    hide Named, Linked, Allocated;
    DisarmSafe(s, k);
  }

  lemma GracefulSafe(s: System, reachable: set<string>)
    requires Safe(s)
    ensures Safe(Graceful(s, reachable))
  {
    hide Named, Linked, Allocated;
    var t := if s.running then s.(running := false) else s.(idle := s.idle + [Quit], history := s.history.(early := true));
    if !t.unregistering {
      RemoveFromSafe(t.(unregistering := true), 0, reachable);
    }
  }

  lemma ResetSafe(s: System, k: nat)
    requires Safe(s) && k < |s.devices|
    ensures Safe(ResetRetries(s, k))
  {
    hide Named, Linked, Allocated;
    assert Counted(s.devices[k], s.now);
    PutSafe(s, k, s.devices[k].(lastConnected := s.now, retries := 0, attempts := 0));
  }

  lemma OnConnectDoneSafe(s: System, address: Address, ok: bool, created: bool, servicesResolved: bool, accepted: bool)
    requires Safe(s)
    ensures Safe(OnConnectDone(s, address, ok, created, servicesResolved, accepted))
  {
    hide Named, Linked, Allocated;
    var k := FindAddress(s, address);
    if k < |s.devices| {
      if !ok {
        ReconnectSafe(s, k, accepted);
      } else {
        ResetSafe(s, k);
        RetireSafe(ResetRetries(s, k), k, accepted);
        ResolveSafe(ResetRetries(s, k), address);
      }
    }
  }

  lemma OnDisconnectedSafe(s: System, address: Address, accepted: bool)
    requires Safe(s)
    ensures Safe(OnDisconnected(s, address, accepted))
  {
    hide Named, Linked, Allocated;
    var k := FindAddress(s, address);
    if k < |s.devices| {
      assert Counted(s.devices[k], s.now);
      PutSafe(s, k, s.devices[k].(connected := false));
      ReconnectSafe(Put(s, k, s.devices[k].(connected := false)), k, accepted);
    }
  }

  /** A firing timer finds its context in the list: the pointer it carries was never freed. */
  lemma OnTimerSafe(s: System, source: nat)
    requires Safe(s) && source in s.timers
    ensures FindPtr(s.devices, s.timers[source]) < |s.devices|
    ensures s.devices[FindPtr(s.devices, s.timers[source])].timer == source
    ensures Safe(OnTimer(s, source))
  {
    var i :| 0 <= i < |s.devices| && Holds(s.devices[i], s.timers, source);
    var k := FindPtr(s.devices, s.timers[source]);
    assert k == i;
    DisarmSafe(s, k);
    assert Put(s, k, s.devices[k].(timer := 0)).devices == Disarm(s, k).devices;
  }

  lemma OnMessageSafe(s: System, m: Message, resolveNow: set<string>, reachable: set<string>)
    requires Safe(s)
    ensures Safe(OnMessage(s, m, resolveNow, reachable))
  {
    hide Named, Linked, Allocated;
    match m
    case Quit =>
    case Unregistered(id, delete) =>
      var k := FindId(s.devices, id);
      if k < |s.devices| {
        assert Counted(s.devices[k], s.now);
        RetireSafe(s, k, false);
        PutSafe(s, k, s.devices[k].(registered := false));
      }
    case Registered(id) =>
      var k := FindId(s.devices, id);
      if k < |s.devices| {
        assert Counted(s.devices[k], s.now);
        PutSafe(s, k, s.devices[k].(registered := true));
      }
    case Ready => ReadySafe(s, 0, resolveNow);
    case Shutdown => GracefulSafe(s, reachable);
  }

  lemma LookupStepSafe(s: System, e: Event)
    requires Safe(s) && Enabled(s, e)
    requires e.NewDevice? || e.Connected? || e.RemoveDone? || e.ObjectRemoved?
    ensures Safe(Step(s, e))
  {
    hide Named, Linked, Allocated;
    match e
    case NewDevice(address, path) => TrackSafe(s, address, path);
    case Connected(address) =>
      var k := FindAddress(s, address);
      if k < |s.devices| {
        assert Counted(s.devices[k], s.now);
        PutSafe(s, k, s.devices[k].(connected := true));
      }
    case RemoveDone(id, accepted) =>
      var t := s.(pending := s.pending.(removals := s.pending.removals - multiset{id}));
      if FindId(t.devices, id) < |t.devices| { RetireSafe(t, FindId(t.devices, id), accepted); }
    case ObjectRemoved(path, accepted) =>
      if FindPath(s.devices, path) < |s.devices| { RetireSafe(s, FindPath(s.devices, path), accepted); }
  }

  /** Every step of the event loop keeps the invariant. */
  lemma StepSafe(s: System, e: Event)
    requires Safe(s) && Enabled(s, e)
    ensures Safe(Step(s, e))
  {
    hide Named, Linked, Allocated;
    match e
    case ConnectDone(address, ok, created, servicesResolved, accepted) =>
      OnConnectDoneSafe(s.(pending := s.pending.(connects := s.pending.connects - multiset{address})), address, ok, created, servicesResolved, accepted);
    case Disconnected(address, accepted) => OnDisconnectedSafe(s, address, accepted);
    case ServicesResolved(address) => ResolveSafe(s, address);
    case TimerFires(source) => OnTimerSafe(s, source);
    case Dispatch(resolveNow, reachable) =>
      OnMessageSafe(s.(idle := s.idle[1..]), s.idle[0], resolveNow, reachable);
    case Signal(reachable) => GracefulSafe(s, reachable);
    case NewDevice(_, _) => LookupStepSafe(s, e);
    case Connected(_) => LookupStepSafe(s, e);
    case RemoveDone(_, _) => LookupStepSafe(s, e);
    case ObjectRemoved(_, _) => LookupStepSafe(s, e);
    case UnregisterDone(_, _) =>
    case RegisterDone(_, _) =>
    case PeerShutdown(_) =>
    case StartFailed =>
    case EdgeReady =>
    case EdgeLost =>
    case TranslatorRegistered =>
    case Tick(seconds) =>
  }

  // ---------- Whole runs ----------

  lemma {:induction false} RunSafe(s: System, es: seq<Event>)
    requires Safe(s) && Legal(s, es)
    ensures Safe(Run(s, es))
    decreases |es|
  {
    if es != [] {
      StepSafe(s, es[0]);
      RunSafe(Step(s, es[0]), es[1..]);
    }
  }

  /**
   * In every reachable state live retry timers and devices with a nonzero timer field correspond one to one,
   * and the context a timer would be handed is still listed: no timer ever fired on a freed context.
   */
  lemma TimersNeverDangle(postfix: string, now: nat, es: seq<Event>)
    requires Legal(Initial(postfix, now), es)
    ensures var s := Run(Initial(postfix, now), es);
            && !s.history.dangling
            && (forall t :: t in s.timers ==> t != 0 && exists i :: 0 <= i < |s.devices| && Holds(s.devices[i], s.timers, t))
            && (forall i :: 0 <= i < |s.devices| && s.devices[i].timer != 0 ==>
                  Holds(s.devices[i], s.timers, s.devices[i].timer))
            && (forall i, j :: 0 <= i < j < |s.devices| && s.devices[i].timer != 0 ==>
                  s.devices[i].timer != s.devices[j].timer)
  {
    RunSafe(Initial(postfix, now), es);
    var s := Run(Initial(postfix, now), es);
    forall i, j | 0 <= i < j < |s.devices| && s.devices[i].timer != 0
      ensures s.devices[i].timer != s.devices[j].timer
    {
      assert Holds(s.devices[i], s.timers, s.devices[i].timer);
      assert s.devices[j].timer != 0 ==> Holds(s.devices[j], s.timers, s.devices[j].timer);
    }
  }

  /** On every run device ids stay distinct, and looking an address up finds the device of that address or nothing. */
  lemma LookupByAddressExact(postfix: string, now: nat, es: seq<Event>, address: Address)
    requires Legal(Initial(postfix, now), es)
    ensures var s := Run(Initial(postfix, now), es);
            var k := FindAddress(s, address);
            && (k < |s.devices| ==> s.devices[k].address == address)
            && (forall i :: 0 <= i < |s.devices| && s.devices[i].address == address ==> i == k)
            && (forall i, j :: 0 <= i < j < |s.devices| ==> s.devices[i].id != s.devices[j].id)
  {
    RunSafe(Initial(postfix, now), es);
    var s := Run(Initial(postfix, now), es);
    var k := FindAddress(s, address);
    if k < |s.devices| {
      DeviceIdInjective(s.devices[k].address, address, s.postfix);
    }
    forall i | 0 <= i < |s.devices| && s.devices[i].address == address ensures i == k {
      assert s.devices[i].id == DeviceId(address, s.postfix);
    }
  }

  /** Discovery builds the introspection list at most once per context, so its null assertion holds on every run. */
  lemma DiscoveryAtMostOnce(postfix: string, now: nat, es: seq<Event>)
    requires Legal(Initial(postfix, now), es)
    ensures !Run(Initial(postfix, now), es).history.listedTwice
  {
    RunSafe(Initial(postfix, now), es);
  }

  /**
   * The reconnection path asks Edge to unregister a device only after at least five failed attempts and
   * 300 seconds since its last successful connect, and to delete its context only after a day.
   */
  lemma GiveUpsBounded(postfix: string, now: nat, es: seq<Event>)
    requires Legal(Initial(postfix, now), es)
    ensures forall g :: g in Run(Initial(postfix, now), es).history.gaveUp ==>
              g.attempts >= 5 && g.elapsed >= 300 && (g.delete ==> g.elapsed >= 86400)
  {
    RunSafe(Initial(postfix, now), es);
  }

  lemma ArmFacts(s: System, k: nat, ms: nat)
    requires k < |s.devices|
    ensures |Arm(s, k, ms).devices| == |s.devices| && Arm(s, k, ms).history == s.history
    ensures s.nextSource > 0 ==> Arm(s, k, ms).devices[k].timer != 0
  {
  }

  lemma RetireFacts(s: System, k: nat, accepted: bool)
    requires k < |s.devices|
    ensures Retire(s, k, accepted).history == s.history && Retire(s, k, accepted).nextPtr == s.nextPtr
    ensures if accepted then Retire(s, k, accepted).devices == s.devices else |Retire(s, k, accepted).devices| == |s.devices| - 1
  {
  }

  /** What a failed attempt does, in terms of the two limits. */
  lemma ReconnectCases(s: System, k: nat, accepted: bool)
    requires k < |s.devices| && s.devices[k].timer == 0 && s.nextSource > 0
    ensures var d, t := CountAttempt(s.devices[k]), Reconnect(s, k, accepted);
            && |t.history.gaveUp| == |s.history.gaveUp| + (if Overdue(d, s.now) then 1 else 0)
            && (!Overdue(d, s.now) ==> t.history.gaveUp == s.history.gaveUp)
            && (Overdue(d, s.now) && Expired(d, s.now) ==>
                  if accepted then |t.devices| == |s.devices| && t.devices[k].timer == 0 else |t.devices| == |s.devices| - 1)
            && (!(Overdue(d, s.now) && Expired(d, s.now)) ==>
                  |t.devices| == |s.devices| && t.devices[k].timer != 0)
  {
    hide Overdue, Expired, Arm, Retire;
    var d := CountAttempt(s.devices[k]);
    var t := Put(s, k, d);
    var u := Log(t, GiveUp(d.attempts, s.now - d.lastConnected, Expired(d, s.now)));
    ArmFacts(t, k, BackOffMs(d.retries));
    ArmFacts(if accepted then Unregister(u, d.id, false) else u, k, BackOffMs(d.retries));
    RetireFacts(u, k, accepted);
  }

  /** A failed attempt leads to a give-up exactly when the limits are met; otherwise the device waits for its next retry. */
  lemma GiveUpExact(s: System, k: nat, accepted: bool)
    requires Safe(s) && k < |s.devices| && s.devices[k].timer == 0
    requires s.now - s.devices[k].lastConnected < TWO_64
    ensures var d, t := s.devices[k], Reconnect(s, k, accepted);
            var elapsed := s.now - d.lastConnected;
            && (t.history.gaveUp != s.history.gaveUp <==> d.attempts + 1 >= 5 && elapsed >= 300)
            && (|t.devices| == |s.devices| && t.devices[k].timer != 0 <==> d.attempts + 1 < 5 || elapsed < 86400)
  {
    assert s.nextSource > 0 && Counted(s.devices[k], s.now);
    hide Safe, Reconnect, Overdue, Expired;
    var d := CountAttempt(s.devices[k]);
    OverdueJustified(d, s.now);
    ReconnectCases(s, k, accepted);
  }
}
