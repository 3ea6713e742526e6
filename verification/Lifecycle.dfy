/**
 * The device lifecycle of the BLE translator as a state machine over its event loop.
 *
 * Every foreign call is an issued request (`connects`, `removals`, `unregisters`, `registers`)
 * that completes once, in a later event that carries its outcome. Callbacks of the Edge client
 * thread only append to the idle queue of the main loop. Contexts are identified by `ptr`, an
 * allocation number that is never reused, so that a live timer holding the number of a freed
 * context would be visible as such.
 */
module Lifecycle {
  import Search
  import opened BackOff
  import opened DeviceIds

  const MAX_CONNECTION_RETRIES := 10000
  const MAX_RETRY_SECS := 3600 * 24
  const TWO_64 := 0x1_0000_0000_0000_0000

  /**
   * A device context. `wait` is the delay in milliseconds its retry timer was armed with; `attempts` is a history
   * variable: failed attempts since the last successful connect.
   */
  datatype Device = Device(
    ptr: nat,
    address: Address,
    path: string,
    id: string,
    registered: bool,
    connected: bool,
    resolved: bool,
    hasJson: bool,
    timer: nat,
    wait: nat,
    retries: nat,
    lastConnected: nat,
    attempts: nat)

  /** Callbacks posted with g_idle_add, in the order the loop runs them. */
  datatype Message =
    | Quit
    | Unregistered(id: string, delete: bool)
    | Registered(id: string)
    | Ready
    | Shutdown

  /** What the reconnection path knew when it asked Edge to unregister a device. */
  datatype GiveUp = GiveUp(attempts: nat, elapsed: int, delete: bool)

  /** Requests issued to BlueZ and Edge that have not completed yet. */
  datatype Pending = Pending(
    connects: multiset<Address>,
    removals: multiset<string>,
    unregisters: multiset<(string, bool)>,
    registers: multiset<string>)

  /**
   * History variables, which no step reads: contexts whose RemoveDevice could not be issued, whether a quit
   * was queued before draining, whether the list was emptied during shutdown by a deletion that skips the
   * last-device check, whether the introspection list was ever built twice, whether a timer ever fired on a
   * freed context, and the unregistrations of the reconnection path.
   */
  datatype History = History(
    skipped: set<nat>,
    early: bool,
    bypassed: bool,
    listedTwice: bool,
    dangling: bool,
    gaveUp: seq<GiveUp>)

  datatype System = System(
    postfix: string,
    devices: seq<Device>,
    timers: map<nat, nat>,
    nextSource: nat,
    nextPtr: nat,
    pending: Pending,
    idle: seq<Message>,
    edgeUp: bool,
    running: bool,
    unregistering: bool,
    quit: bool,
    now: nat,
    history: History)

  /**
   * What the loop reacts to. `accepted` says whether pt_device_unregister took the request, `created`
   * whether the Edge context could be created, `servicesResolved` what the proxy's cached property says,
   * `reachable` for which devices the adapter proxy could be made, and `resolveNow` for which devices the
   * Edge context was missing, could be created, and services are resolved. `StartFailed` is a client thread that
   * could not start: it clears the run flag and posts nothing.
   */
  datatype Event =
    | NewDevice(address: Address, path: string)
    | ConnectDone(address: Address, ok: bool, created: bool, servicesResolved: bool, accepted: bool)
    | Connected(address: Address)
    | Disconnected(address: Address, accepted: bool)
    | ServicesResolved(address: Address)
    | TimerFires(source: nat)
    | RemoveDone(id: string, accepted: bool)
    | ObjectRemoved(path: string, accepted: bool)
    | UnregisterDone(id: string, delete: bool)
    | RegisterDone(id: string, ok: bool)
    | Dispatch(resolveNow: set<string>, reachable: set<string>)
    | Signal(reachable: set<string>)
    | PeerShutdown(registrationFailed: bool)
    | StartFailed
    | EdgeReady
    | EdgeLost
    | TranslatorRegistered
    | Tick(seconds: nat)

  // ---------- The device list ----------

  /** Position of the first device with this id, or the length of the list. */
  function FindId(devices: seq<Device>, id: string): (k: nat)
    ensures k <= |devices|
    ensures k < |devices| ==> devices[k].id == id
    ensures forall j :: 0 <= j < k ==> devices[j].id != id
  {
    Search.First(devices, (d: Device) => d.id == id)
  }

  function FindPath(devices: seq<Device>, path: string): (k: nat)
    ensures k <= |devices|
    ensures k < |devices| ==> devices[k].path == path
    ensures forall j :: 0 <= j < k ==> devices[j].path != path
  {
    Search.First(devices, (d: Device) => d.path == path)
  }

  /** Position of the context with this identity, or the length of the list when it has been freed. */
  function FindPtr(devices: seq<Device>, ptr: nat): (k: nat)
    ensures k <= |devices|
    ensures k < |devices| ==> devices[k].ptr == ptr
    ensures forall j :: 0 <= j < k ==> devices[j].ptr != ptr
  {
    Search.First(devices, (d: Device) => d.ptr == ptr)
  }

  function FindAddress(s: System, address: Address): (k: nat)
    ensures k <= |s.devices|
  {
    FindId(s.devices, DeviceId(address, s.postfix))
  }

  function Put(s: System, k: nat, d: Device): System
    requires k < |s.devices|
  {
    s.(devices := s.devices[k := d])
  }

  /** devices_del_device: unlink, stop the retry timer, free. */
  function Delete(s: System, k: nat): System
    requires k < |s.devices|
  {
    s.(devices := s.devices[..k] + s.devices[k + 1..], timers := s.timers - {s.devices[k].timer})
  }

  /** pt_edge_del_device: the same, and during shutdown the last deletion asks the loop to quit. */
  function EdgeDelete(s: System, k: nat): System
    requires k < |s.devices|
  {
    var t := Delete(s, k);
    if t.unregistering && |t.devices| == 0 then t.(idle := t.idle + [Quit]) else t
  }

  /** The deletion after a failed pt_device_create, which does not look whether it emptied the list. */
  function BypassDelete(s: System, k: nat): System
    requires k < |s.devices|
  {
    var t := Delete(s, k);
    t.(history := t.history.(bypassed := t.history.bypassed || (t.unregistering && |t.devices| == 0)))
  }

  /** edge_unregister_device on an accepted request. */
  function Unregister(s: System, id: string, delete: bool): System {
    s.(pending := s.pending.(unregisters := s.pending.unregisters + multiset{(id, delete)}))
  }

  /** Unregister and delete, at once when Edge does not take the request. */
  function Retire(s: System, k: nat, accepted: bool): System
    requires k < |s.devices|
  {
    if accepted then Unregister(s, s.devices[k].id, true) else EdgeDelete(s, k)
  }

  // ---------- Reconnection ----------

  function SecondsSince(now: nat, then_: nat): nat {
    (now - then_) % TWO_64
  }

  /** g_timeout_add_full */
  function Arm(s: System, k: nat, ms: nat): System
    requires k < |s.devices|
  {
    var d := s.devices[k];
    Put(s, k, d.(timer := s.nextSource, wait := ms)).(timers := s.timers[s.nextSource := d.ptr], nextSource := s.nextSource + 1)
  }

  function CountAttempt(d: Device): Device {
    d.(retries := if d.retries < MAX_CONNECTION_RETRIES then d.retries + 1 else d.retries, attempts := d.attempts + 1)
  }

  /** The wait before the next retry has passed the limit, and so has the time since the last connect. */
  predicate Overdue(d: Device, now: nat)
    requires d.retries > 0
  {
    BackOffMs(d.retries) > MAX_BACK_OFF_SECS * 1000 && SecondsSince(now, d.lastConnected) >= MAX_BACK_OFF_SECS
  }

  predicate Expired(d: Device, now: nat) {
    SecondsSince(now, d.lastConnected) >= MAX_RETRY_SECS
  }

  function Log(s: System, g: GiveUp): System {
    s.(history := s.history.(gaveUp := s.history.gaveUp + [g]))
  }

  /** ble_start_reconnection_timer_or_unregister_device */
  function Reconnect(s: System, k: nat, accepted: bool): System
    requires k < |s.devices|
  {
    if s.devices[k].timer != 0 then s
    else
      var d := CountAttempt(s.devices[k]);
      var t := Put(s, k, d);
      if Overdue(d, s.now) then
        var u := Log(t, GiveUp(d.attempts, s.now - d.lastConnected, Expired(d, s.now)));
        if Expired(d, s.now) then Retire(u, k, accepted)
        else Arm(if accepted then Unregister(u, d.id, false) else u, k, BackOffMs(d.retries))
      else
        Arm(t, k, BackOffMs(d.retries))
  }

  // ---------- Service discovery ----------

  /** device_register_device */
  function RequestRegister(s: System, d: Device): System {
    if d.registered then s else s.(pending := s.pending.(registers := s.pending.registers + multiset{d.id}))
  }

  /** Characteristic discovery, which asserts that the introspection list was not built before. */
  function Discover(s: System, k: nat): System
    requires k < |s.devices|
  {
    var d := s.devices[k];
    Put(s, k, d.(resolved := true, hasJson := true)).(history := s.history.(listedTwice := s.history.listedTwice || d.hasJson))
  }

  /** ble_on_services_resolved for a tracked device: discovery runs behind a one-shot latch. */
  function ResolveAt(s: System, k: nat): System
    requires k < |s.devices|
  {
    var d := s.devices[k];
    var t := if d.resolved then s
             else Discover(s, k);
    RequestRegister(t, d)
  }

  function Resolve(s: System, address: Address): System {
    var k := FindAddress(s, address);
    if s.edgeUp && k < |s.devices| then ResolveAt(s, k) else s
  }

  /** pt_ble_pt_ready, from position k of the list on. */
  function ReadyFrom(s: System, k: nat, resolveNow: set<string>): System
    requires k <= |s.devices|
    decreases |s.devices| - k
  {
    if k == |s.devices| then s
    else if s.edgeUp && s.devices[k].id in resolveNow then ReadyFrom(Resolve(s, s.devices[k].address), k + 1, resolveNow)
    else ReadyFrom(s, k + 1, resolveNow)
  }

  // ---------- Shutdown ----------

  /** ble_remove_device: stop the timer and, when the adapter proxy can be made, issue RemoveDevice. */
  function RemoveAt(s: System, k: nat, reachable: set<string>): System
    requires k < |s.devices|
  {
    var d := s.devices[k];
    var t := Put(s, k, d.(timer := 0)).(timers := s.timers - {d.timer});
    if d.id in reachable then t.(pending := t.pending.(removals := t.pending.removals + multiset{d.id}))
    else t.(history := t.history.(skipped := t.history.skipped + {d.ptr}))
  }

  function RemoveFrom(s: System, k: nat, reachable: set<string>): System
    requires k <= |s.devices|
    decreases |s.devices| - k
  {
    if k == |s.devices| then s else RemoveFrom(RemoveAt(s, k, reachable), k + 1, reachable)
  }

  /** unregister_devices */
  function UnregisterAll(s: System, reachable: set<string>): System {
    if s.unregistering then s
    else
      var t := s.(unregistering := true);
      if |t.devices| == 0 then t.(idle := t.idle + [Quit]) else RemoveFrom(t, 0, reachable)
  }

  /** pt_ble_graceful_shutdown */
  function Graceful(s: System, reachable: set<string>): System {
    UnregisterAll(if s.running then s.(running := false) else s.(idle := s.idle + [Quit], history := s.history.(early := true)), reachable)
  }

  // ---------- Handlers ----------

  function Track(s: System, address: Address, path: string): System {
    if FindAddress(s, address) < |s.devices| then s
    else
      s.(devices := s.devices + [Device(s.nextPtr, address, path, DeviceId(address, s.postfix),
                                        false, false, false, false, 0, 0, 0, s.now, 0)],
         nextPtr := s.nextPtr + 1)
  }

  function Connect(s: System, address: Address): System {
    s.(pending := s.pending.(connects := s.pending.connects + multiset{address}))
  }

  /** A successful connect starts the retry count and the clock of the device again. */
  function ResetRetries(s: System, k: nat): System
    requires k < |s.devices|
  {
    Put(s, k, s.devices[k].(lastConnected := s.now, retries := 0, attempts := 0))
  }

  /** ble_connect_done */
  function OnConnectDone(s: System, address: Address, ok: bool, created: bool, servicesResolved: bool, accepted: bool): System {
    var k := FindAddress(s, address);
    if k == |s.devices| then s
    else if !ok then Reconnect(s, k, accepted)
    else
      var t := ResetRetries(s, k);
      if t.edgeUp && !created then BypassDelete(t, k)
      else if t.edgeUp && servicesResolved then Resolve(t, address)
      else t
  }

  function OnConnected(s: System, address: Address): System {
    var k := FindAddress(s, address);
    if k == |s.devices| then s else Put(s, k, s.devices[k].(connected := true))
  }

  function OnDisconnected(s: System, address: Address, accepted: bool): System {
    var k := FindAddress(s, address);
    if k == |s.devices| then s else Reconnect(Put(s, k, s.devices[k].(connected := false)), k, accepted)
  }

  function OnTimer(s: System, source: nat): System
    requires source in s.timers
  {
    var k := FindPtr(s.devices, s.timers[source]);
    var t := s.(timers := s.timers - {source});
    if k == |s.devices| then t.(history := t.history.(dangling := true)) else Put(Connect(t, s.devices[k].address), k, s.devices[k].(timer := 0))
  }

  function OnRemoveDone(s: System, id: string, accepted: bool): System {
    var k := FindId(s.devices, id);
    if k == |s.devices| then s else Retire(s, k, accepted)
  }

  function OnObjectRemoved(s: System, path: string, accepted: bool): System {
    var k := FindPath(s.devices, path);
    if k == |s.devices| then s else Retire(s, k, accepted)
  }

  function OnMessage(s: System, m: Message, resolveNow: set<string>, reachable: set<string>): System {
    match m
    case Quit => if s.running then s else s.(quit := true)
    case Unregistered(id, delete) =>
      var k := FindId(s.devices, id);
      if k == |s.devices| then s
      else if delete then EdgeDelete(s, k)
      else Put(s, k, s.devices[k].(registered := false))
    case Registered(id) =>
      var k := FindId(s.devices, id);
      if k == |s.devices| then s else Put(s, k, s.devices[k].(registered := true))
    case Ready => ReadyFrom(s, 0, resolveNow)
    case Shutdown => Graceful(s, reachable)
  }

  /** All device ids of the list, as protocol_translator_registration_success registers them. */
  function Ids(devices: seq<Device>): multiset<string> {
    if devices == [] then multiset{} else multiset{devices[0].id} + Ids(devices[1..])
  }

  /** An event can happen: its request is outstanding, its timer live, and the loop has not quit. */
  ghost predicate Enabled(s: System, e: Event) {
    && !s.quit
    && match e
       case ConnectDone(address, _, _, _, _) => address in s.pending.connects
       case TimerFires(source) => source in s.timers
       case RemoveDone(id, _) => id in s.pending.removals
       case UnregisterDone(id, delete) => (id, delete) in s.pending.unregisters
       case RegisterDone(id, _) => id in s.pending.registers
       case Dispatch(_, _) => s.idle != []
       case _ => true
  }

  function Step(s: System, e: Event): System
    requires Enabled(s, e)
  {
    match e
    case NewDevice(address, path) => if s.running then Connect(Track(s, address, path), address) else s
    case ConnectDone(address, ok, created, servicesResolved, accepted) =>
      OnConnectDone(s.(pending := s.pending.(connects := s.pending.connects - multiset{address})),
                    address, ok, created, servicesResolved, accepted)
    case Connected(address) => OnConnected(s, address)
    case Disconnected(address, accepted) => OnDisconnected(s, address, accepted)
    case ServicesResolved(address) => Resolve(s, address)
    case TimerFires(source) => OnTimer(s, source)
    case RemoveDone(id, accepted) =>
      OnRemoveDone(s.(pending := s.pending.(removals := s.pending.removals - multiset{id})), id, accepted)
    case ObjectRemoved(path, accepted) => OnObjectRemoved(s, path, accepted)
    case UnregisterDone(id, delete) =>
      s.(pending := s.pending.(unregisters := s.pending.unregisters - multiset{(id, delete)}),
        idle := s.idle + [Unregistered(id, delete)])
    case RegisterDone(id, ok) =>
      var t := s.(pending := s.pending.(registers := s.pending.registers - multiset{id}));
      if ok then t.(idle := t.idle + [Registered(id)]) else t
    case Dispatch(resolveNow, reachable) => OnMessage(s.(idle := s.idle[1..]), s.idle[0], resolveNow, reachable)
    case Signal(reachable) => Graceful(s, reachable)
    case PeerShutdown(registrationFailed) =>
      if s.running || registrationFailed then s.(running := false, idle := s.idle + [Shutdown]) else s
    case StartFailed => s.(running := false)
    case EdgeReady => s.(edgeUp := true, idle := s.idle + [Ready])
    case EdgeLost => s.(edgeUp := false)
    case TranslatorRegistered => s.(pending := s.pending.(registers := s.pending.registers + Ids(s.devices)))
    case Tick(seconds) => s.(now := s.now + seconds)
  }

  function Initial(postfix: string, now: nat): System {
    System(postfix, [], map[], 1, 0, Pending(multiset{}, multiset{}, multiset{}, multiset{}), [],
           false, true, false, false, now, History({}, false, false, false, false, []))
  }

  /** A run: every event is enabled in the state the events before it lead to. */
  ghost predicate Legal(s: System, es: seq<Event>)
    decreases |es|
  {
    es == [] || (Enabled(s, es[0]) && Legal(Step(s, es[0]), es[1..]))
  }

  function Run(s: System, es: seq<Event>): System
    requires Legal(s, es)
    decreases |es|
  {
    if es == [] then s else Run(Step(s, es[0]), es[1..])
  }
}
