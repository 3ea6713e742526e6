/** Shutdown of the BLE translator: when the loop quits, when it hangs, and why draining terminates. */
module LifecycleShutdown {
  import opened BackOff
  import opened DeviceIds
  import opened Lifecycle
  import opened LifecycleSafety

  // ---------- The invariant ----------

  /** A request or message is under way that will delete the device with this id. */
  ghost predicate HasKill(s: System, id: string) {
    id in s.pending.removals || (id, true) in s.pending.unregisters || Unregistered(id, true) in s.idle
  }

  ghost predicate Covered(s: System, d: Device) {
    HasKill(s, d.id) || d.ptr in s.history.skipped
  }

  /** Every device but the one at `hole` (if that is a position) is on its way out, or its RemoveDevice was never issued. */
  ghost predicate CoveredBut(s: System, hole: nat) {
    forall i :: 0 <= i < |s.devices| && i != hole ==> Covered(s, s.devices[i])
  }

  ghost predicate QuitSeen(s: System) {
    Quit in s.idle || s.quit
  }

  ghost predicate Before(s: System) {
    !s.unregistering && !QuitSeen(s) && !s.history.early && !s.history.bypassed
  }

  ghost predicate DuringBut(s: System, hole: nat) {
    && s.unregistering && !s.running
    && CoveredBut(s, hole)
    && (QuitSeen(s) <==> s.history.early || (|s.devices| == 0 && !s.history.bypassed))
    && (s.history.bypassed ==> |s.devices| == 0)
  }

  ghost predicate During(s: System) {
    DuringBut(s, |s.devices|)
  }

  /** Either shutdown has not begun, or every listed device is covered and an empty list has asked the loop to quit. */
  ghost predicate Orderly(s: System) {
    Before(s) || During(s)
  }

  // ---------- Steps that only change a context or issue requests ----------

  /** `t` has the same contexts up to private fields, at least the requests of `s`, and the same shutdown flags. */
  ghost predicate Grows(s: System, t: System) {
    && |t.devices| == |s.devices|
    && (forall i :: 0 <= i < |s.devices| ==> SameNames(t.devices[i], s.devices[i]))
    && s.pending.removals <= t.pending.removals && s.pending.unregisters <= t.pending.unregisters && s.idle == t.idle
    && s.unregistering == t.unregistering && s.quit == t.quit && s.running == t.running
    && s.history.skipped == t.history.skipped && s.history.early == t.history.early
    && s.history.bypassed == t.history.bypassed
  }

  lemma GrowsKeeps(s: System, t: System, hole: nat)
    requires Grows(s, t)
    ensures Before(s) ==> Before(t)
    ensures DuringBut(s, hole) ==> DuringBut(t, hole)
  {
    if DuringBut(s, hole) {
      forall i | 0 <= i < |t.devices| && i != hole ensures Covered(t, t.devices[i]) {
        assert Covered(s, s.devices[i]) && SameNames(t.devices[i], s.devices[i]);
      }
    }
  }

  // ---------- Deletions ----------

  lemma DeleteOrderly(s: System, k: nat)
    requires k < |s.devices| && (Before(s) || DuringBut(s, k))
    ensures Orderly(EdgeDelete(s, k)) && Orderly(BypassDelete(s, k))
    ensures |EdgeDelete(s, k).devices| == |BypassDelete(s, k).devices| == |s.devices| - 1
  {
    var t := Delete(s, k);
    assert t.devices == Without(s.devices, k);
    if DuringBut(s, k) {
      forall i | 0 <= i < |t.devices| ensures Covered(EdgeDelete(s, k), t.devices[i]) && Covered(BypassDelete(s, k), t.devices[i]) {
        assert Covered(s, s.devices[if i < k then i else i + 1]);
      }
      assert Quit in EdgeDelete(s, k).idle || |t.devices| > 0;
    }
  }

  lemma RetireOrderly(s: System, k: nat, accepted: bool)
    requires k < |s.devices| && (Before(s) || DuringBut(s, k))
    ensures Orderly(Retire(s, k, accepted))
  {
    if accepted {
      var t := Unregister(s, s.devices[k].id, true);
      GrowsKeeps(s, t, k);
      assert Covered(t, t.devices[k]);
    } else {
      DeleteOrderly(s, k);
    }
  }

  lemma ReconnectOrderly(s: System, k: nat, accepted: bool)
    requires k < |s.devices| && Orderly(s)
    ensures Orderly(Reconnect(s, k, accepted))
  {
    hide Before, Overdue, Expired;
    if s.devices[k].timer == 0 {
      var d := CountAttempt(s.devices[k]);
      var t := Put(s, k, d);
      var u := Log(t, GiveUp(d.attempts, s.now - d.lastConnected, Expired(d, s.now)));
      assert During(s) ==> DuringBut(s, k);
      assert Grows(s, t) && Grows(s, u);
      GrowsKeeps(s, u, k);
      RetireOrderly(u, k, accepted);
      ArmGrows(s, t, k, BackOffMs(d.retries));
      ArmGrows(s, if accepted then Unregister(u, d.id, false) else u, k, BackOffMs(d.retries));
    }
  }

  lemma ArmGrows(s: System, t: System, k: nat, ms: nat)
    requires k < |t.devices| && Grows(s, t) && Orderly(s)
    ensures Orderly(Arm(t, k, ms))
  {
    assert Grows(s, Arm(t, k, ms));
    GrowsKeeps(s, Arm(t, k, ms), |s.devices|);
  }

  lemma DiscoverGrows(s: System, k: nat)
    requires k < |s.devices|
    ensures Grows(s, Discover(s, k))
  {
    var t := Discover(s, k);
    assert forall i :: 0 <= i < |s.devices| && i != k ==> t.devices[i] == s.devices[i];
  }

  lemma ResolveGrows(s: System, address: Address)
    ensures Grows(s, Resolve(s, address))
  {
    hide Discover, FindAddress;
    var k := FindAddress(s, address);
    if k < |s.devices| { DiscoverGrows(s, k); }
  }

  lemma {:induction false} ReadyGrows(s: System, k: nat, resolveNow: set<string>)
    requires k <= |s.devices|
    ensures Grows(s, ReadyFrom(s, k, resolveNow))
    decreases |s.devices| - k
  {
    if k < |s.devices| {
      ResolveGrows(s, s.devices[k].address);
      ReadyGrows(if s.edgeUp && s.devices[k].id in resolveNow then Resolve(s, s.devices[k].address) else s, k + 1, resolveNow);
    }
  }

  // ---------- Starting to shut down ----------

  /** What the removal loop leaves alone: it only issues requests and records the devices it could not ask for. */
  ghost predicate Asks(s: System, t: System) {
    && |t.devices| == |s.devices|
    && (forall i :: 0 <= i < |s.devices| ==> SameNames(t.devices[i], s.devices[i]))
    && s.pending.removals <= t.pending.removals && t.pending.unregisters == s.pending.unregisters
    && t.idle == s.idle && t.unregistering == s.unregistering && t.quit == s.quit && t.running == s.running
    && s.history.skipped <= t.history.skipped && t.history.early == s.history.early
    && t.history.bypassed == s.history.bypassed
  }

  lemma RemoveAtAsks(s: System, k: nat, reachable: set<string>)
    requires k < |s.devices|
    ensures Asks(s, RemoveAt(s, k, reachable)) && Covered(RemoveAt(s, k, reachable), s.devices[k])
  {
    var t := RemoveAt(s, k, reachable);
    assert forall i :: 0 <= i < |s.devices| && i != k ==> t.devices[i] == s.devices[i];
  }

  /** The removal loop covers every device from position k on. */
  lemma {:induction false} RemoveFromCovers(s: System, k: nat, reachable: set<string>)
    requires k <= |s.devices|
    ensures Asks(s, RemoveFrom(s, k, reachable))
    ensures forall i :: k <= i < |s.devices| ==>
              Covered(RemoveFrom(s, k, reachable), RemoveFrom(s, k, reachable).devices[i])
    decreases |s.devices| - k
  {
    hide RemoveAt;
    if k < |s.devices| {
      var u := RemoveAt(s, k, reachable);
      RemoveAtAsks(s, k, reachable);
      RemoveFromCovers(u, k + 1, reachable);
    }
  }

  lemma GracefulOrderly(s: System, reachable: set<string>)
    requires Orderly(s)
    ensures During(Graceful(s, reachable))
  {
    var t := if s.running then s.(running := false) else s.(idle := s.idle + [Quit], history := s.history.(early := true));
    if t.unregistering {
      assert forall i :: 0 <= i < |s.devices| && Covered(s, s.devices[i]) ==> Covered(t, t.devices[i]);
      assert Quit in t.idle;
    } else {
      var u := t.(unregistering := true);
      if |u.devices| > 0 {
        RemoveFromCovers(u, 0, reachable);
      } else {
        assert Quit in (u.idle + [Quit]);
      }
    }
  }

  // ---------- Completions ----------

  /** Once the token of a device has been spent, at most that device is uncovered. */
  lemma SpentToken(s: System, t: System, id: string)
    requires Named(s.devices, s.postfix) && During(s)
    requires t.devices == s.devices && t.history == s.history && t.unregistering && !t.running && QuitSeen(t) == QuitSeen(s)
    requires forall x :: x != id && HasKill(s, x) ==> HasKill(t, x)
    ensures DuringBut(t, FindId(t.devices, id))
  {
    forall i | 0 <= i < |t.devices| && i != FindId(t.devices, id) ensures Covered(t, t.devices[i]) {
      assert Covered(s, s.devices[i]) && s.devices[i].id != id;
    }
  }

  lemma OnRemoveDoneOrderly(s: System, id: string, accepted: bool)
    requires Safe(s) && Orderly(s) && Enabled(s, RemoveDone(id, accepted))
    ensures Orderly(Step(s, RemoveDone(id, accepted)))
  {
    hide Linked, Allocated;
    var t := s.(pending := s.pending.(removals := s.pending.removals - multiset{id}));
    if During(s) { SpentToken(s, t, id); }
    var k := FindId(t.devices, id);
    if k < |t.devices| { RetireOrderly(t, k, accepted); }
  }

  lemma OnDeleteOrderly(s: System, t: System, id: string)
    requires Safe(s) && Orderly(s) && !s.quit && s.idle != [] && s.idle[0] == Unregistered(id, true)
    requires t == s.(idle := s.idle[1..])
    ensures Orderly(OnMessage(t, s.idle[0], {}, {}))
  {
    hide Linked, Allocated;
    assert s.idle == [s.idle[0]] + t.idle;
    assert forall m :: m in s.idle && m != s.idle[0] ==> m in t.idle;
    if During(s) { SpentToken(s, t, id); }
    var k := FindId(t.devices, id);
    if k < |t.devices| { DeleteOrderly(t, k); }
  }

  lemma PopOrderly(s: System, t: System)
    requires Orderly(s) && !s.quit && s.idle != [] && s.idle[0] != Quit && !(s.idle[0].Unregistered? && s.idle[0].delete)
    requires t == s.(idle := s.idle[1..])
    ensures Orderly(t)
  {
    assert s.idle == [s.idle[0]] + t.idle;
    assert forall m :: m in s.idle && m != s.idle[0] <==> m in t.idle && m != s.idle[0];
    assert forall i :: 0 <= i < |s.devices| && Covered(s, s.devices[i]) ==> Covered(t, t.devices[i]);
  }

  lemma PopQuitOrderly(s: System, t: System)
    requires Orderly(s) && !s.quit && s.idle != [] && s.idle[0] == Quit
    requires t == s.(idle := s.idle[1..])
    ensures During(t.(quit := true)) && !s.running
  {
    assert s.idle == [s.idle[0]] + t.idle;
    assert forall m :: m in s.idle && m != Quit ==> m in t.idle;
    assert forall i :: 0 <= i < |s.devices| && Covered(s, s.devices[i]) ==> Covered(t.(quit := true), t.devices[i]);
  }

  lemma OnDispatchOrderly(s: System, resolveNow: set<string>, reachable: set<string>)
    requires Safe(s) && Orderly(s) && !s.quit && s.idle != []
    ensures Orderly(Step(s, Dispatch(resolveNow, reachable)))
  {
    hide Named, Linked, Allocated, Before, DuringBut;
    var t := s.(idle := s.idle[1..]);
    match s.idle[0]
    case Quit => PopQuitOrderly(s, t);
    case Unregistered(id, delete) =>
      if delete {
        OnDeleteOrderly(s, t, id);
        assert OnMessage(t, s.idle[0], {}, {}) == OnMessage(t, s.idle[0], resolveNow, reachable);
      } else {
        PopOrderly(s, t);
        var k := FindId(t.devices, id);
        if k < |t.devices| { PutOrderly(t, k, t.devices[k].(registered := false)); }
      }
    case Registered(id) =>
      PopOrderly(s, t);
      var k := FindId(t.devices, id);
      if k < |t.devices| { PutOrderly(t, k, t.devices[k].(registered := true)); }
    case Ready =>
      PopOrderly(s, t);
      ReadyGrows(t, 0, resolveNow);
      GrowsKeeps(t, ReadyFrom(t, 0, resolveNow), |t.devices|);
    case Shutdown =>
      PopOrderly(s, t);
      GracefulOrderly(t, reachable);
  }

  /** Completion of an Edge request appends its message to the idle queue. */
  lemma PostOrderly(s: System, t: System, m: Message)
    requires Orderly(s) && m != Quit
    requires t.devices == s.devices && t.history == s.history && t.unregistering == s.unregistering && t.quit == s.quit
    requires t.running == s.running || !t.running
    requires t.pending.removals == s.pending.removals && t.idle == s.idle + [m]
    requires forall x :: (x, true) in s.pending.unregisters ==> (x, true) in t.pending.unregisters || m == Unregistered(x, true)
    ensures Orderly(t)
  {
    assert forall i :: 0 <= i < |s.devices| && Covered(s, s.devices[i]) ==> Covered(t, t.devices[i]);
  }

  // ---------- Every step ----------

  lemma NewDeviceOrderly(s: System, address: Address, path: string)
    requires Orderly(s) && !s.quit
    ensures Orderly(Step(s, NewDevice(address, path)))
  {
  }

  lemma OnConnectDoneOrderly(s: System, address: Address, ok: bool, created: bool, servicesResolved: bool, accepted: bool)
    requires Orderly(s)
    ensures Orderly(OnConnectDone(s, address, ok, created, servicesResolved, accepted))
  {
    hide Before, DuringBut;
    var k := FindAddress(s, address);
    if k < |s.devices| {
      if !ok {
        ReconnectOrderly(s, k, accepted);
      } else {
        var t := ResetRetries(s, k);
        assert Grows(s, t);
        GrowsKeeps(s, t, |s.devices|);
        BypassOrderly(t, k);
        ResolveGrows(t, address);
        GrowsKeeps(t, Resolve(t, address), |t.devices|);
      }
    }
  }

  lemma BypassOrderly(s: System, k: nat)
    requires k < |s.devices| && Orderly(s)
    ensures Orderly(BypassDelete(s, k))
  {
    assert During(s) ==> DuringBut(s, k);
    DeleteOrderly(s, k);
  }

  lemma RetireAnyOrderly(s: System, k: nat, accepted: bool)
    requires k < |s.devices| && Orderly(s)
    ensures Orderly(Retire(s, k, accepted))
  {
    assert During(s) ==> DuringBut(s, k);
    RetireOrderly(s, k, accepted);
  }

  lemma PutOrderly(s: System, k: nat, d: Device)
    requires k < |s.devices| && Orderly(s) && SameNames(d, s.devices[k])
    ensures Orderly(Put(s, k, d))
  {
    assert Grows(s, Put(s, k, d));
    GrowsKeeps(s, Put(s, k, d), |s.devices|);
  }

  lemma OnTimerOrderly(s: System, source: nat)
    requires Orderly(s) && source in s.timers
    ensures Orderly(OnTimer(s, source))
  {
    hide Before, DuringBut;
    assert Grows(s, OnTimer(s, source));
    GrowsKeeps(s, OnTimer(s, source), |s.devices|);
  }

  lemma StepOrderly(s: System, e: Event)
    requires Safe(s) && Orderly(s) && Enabled(s, e)
    ensures Orderly(Step(s, e))
  {
    hide Safe, Before, DuringBut;
    match e
    case NewDevice(address, path) => NewDeviceOrderly(s, address, path);
    case ConnectDone(address, ok, created, servicesResolved, accepted) =>
      var t := s.(pending := s.pending.(connects := s.pending.connects - multiset{address}));
      assert Grows(s, t);
      GrowsKeeps(s, t, |s.devices|);
      OnConnectDoneOrderly(t, address, ok, created, servicesResolved, accepted);
    case Connected(address) =>
      var k := FindAddress(s, address);
      if k < |s.devices| { PutOrderly(s, k, s.devices[k].(connected := true)); }
    case Disconnected(address, accepted) =>
      var k := FindAddress(s, address);
      if k < |s.devices| {
        PutOrderly(s, k, s.devices[k].(connected := false));
        ReconnectOrderly(Put(s, k, s.devices[k].(connected := false)), k, accepted);
      }
    case ServicesResolved(address) =>
      ResolveGrows(s, address);
      GrowsKeeps(s, Resolve(s, address), |s.devices|);
    case TimerFires(source) => OnTimerOrderly(s, source);
    case RemoveDone(id, accepted) => OnRemoveDoneOrderly(s, id, accepted);
    case ObjectRemoved(path, accepted) =>
      var k := FindPath(s.devices, path);
      if k < |s.devices| { RetireAnyOrderly(s, k, accepted); }
    case Dispatch(resolveNow, reachable) => OnDispatchOrderly(s, resolveNow, reachable);
    case Signal(reachable) => GracefulOrderly(s, reachable);
    case _ => RequestStepOrderly(s, e);
  }

  lemma StoppedOrderly(s: System)
    requires Orderly(s)
    ensures Orderly(s.(running := false))
  {
    assert forall i :: 0 <= i < |s.devices| && Covered(s, s.devices[i]) ==> Covered(s.(running := false), s.devices[i]);
  }

  lemma RequestStepOrderly(s: System, e: Event)
    requires Orderly(s) && Enabled(s, e)
    requires e.UnregisterDone? || e.RegisterDone? || e.PeerShutdown? || e.StartFailed? || e.EdgeReady? || e.EdgeLost?
             || e.TranslatorRegistered? || e.Tick?
    ensures Orderly(Step(s, e))
  {
    hide Before, DuringBut;
    if e.UnregisterDone? {
      PostOrderly(s, Step(s, e), Unregistered(e.id, e.delete));
    } else if e.RegisterDone? {
      var t := s.(pending := s.pending.(registers := s.pending.registers - multiset{e.id}));
      assert Grows(s, t);
      GrowsKeeps(s, t, |s.devices|);
      if e.ok { PostOrderly(t, Step(s, e), Registered(e.id)); }
    } else if e.PeerShutdown? && (s.running || e.registrationFailed) {
      PostOrderly(s, Step(s, e), Shutdown);
    } else if e.EdgeReady? {
      PostOrderly(s, Step(s, e), Ready);
    } else if e.StartFailed? {
      StoppedOrderly(s);
    } else {
      assert Grows(s, Step(s, e));
      GrowsKeeps(s, Step(s, e), |s.devices|);
    }
  }

  lemma {:induction false} RunOrderly(s: System, es: seq<Event>)
    requires Safe(s) && Orderly(s) && Legal(s, es)
    ensures Safe(Run(s, es)) && Orderly(Run(s, es))
    decreases |es|
  {
    if es != [] {
      StepSafe(s, es[0]);
      StepOrderly(s, es[0]);
      RunOrderly(Step(s, es[0]), es[1..]);
    }
  }

  // ---------- What the history variables record ----------

  /**
   * A quit is queued before draining exactly when a shutdown request reaches a translator whose run flag is
   * already cleared, and shutdown empties the list past the last-device check exactly when the only
   * remaining device connects and its Edge context cannot be created. The contexts skipped are those of the unreachable
   * devices listed when the shutdown begins.
   */
  lemma HistoryExact(s: System, e: Event)
    requires Enabled(s, e)
    ensures Step(s, e).history.early == (s.history.early || ShutdownRepeated(s, e))
    ensures Step(s, e).history.bypassed == (s.history.bypassed || LastDeviceDropped(s, e))
    ensures Step(s, e).history.skipped == s.history.skipped + SkippedBy(s, e)
  {
    hide Reconnect, OnConnectDone, OnMessage, Graceful, FindId, FindPath, FindPtr, DeviceId, Ids, Resolve, Retire, UnreachableFrom;
    match e
    case ConnectDone(address, ok, created, servicesResolved, accepted) =>
      ConnectDoneFlags(s.(pending := s.pending.(connects := s.pending.connects - multiset{address})),
                       address, ok, created, servicesResolved, accepted);
    case Disconnected(address, accepted) =>
      var k := FindAddress(s, address);
      if k < |s.devices| { ReconnectFlags(Put(s, k, s.devices[k].(connected := false)), k, accepted); }
    case ServicesResolved(address) => ResolveGrows(s, address);
    case Dispatch(resolveNow, reachable) => MessageFlags(s.(idle := s.idle[1..]), s.idle[0], resolveNow, reachable);
    case Signal(reachable) =>
      GracefulFlags(s, reachable);
      GracefulSkips(s, reachable);
    case _ => OtherFlags(s, e);
  }

  lemma OtherFlags(s: System, e: Event)
    requires Enabled(s, e)
    requires !(e.ConnectDone? || e.Disconnected? || e.ServicesResolved? || e.Dispatch? || e.Signal?)
    ensures SameFlags(s, Step(s, e))
  {
    hide Retire, FindId, FindPath, FindPtr, DeviceId, Ids;
    if e.RemoveDone? {
      var t := s.(pending := s.pending.(removals := s.pending.removals - multiset{e.id}));
      var k := FindId(t.devices, e.id);
      if k < |t.devices| { RetireFlags(t, k, e.accepted); }
    } else if e.ObjectRemoved? {
      var k := FindPath(s.devices, e.path);
      if k < |s.devices| { RetireFlags(s, k, e.accepted); }
    }
  }

  /** A shutdown request that finds the run flag already cleared. */
  ghost predicate ShutdownRepeated(s: System, e: Event) {
    !s.running && (e.Signal? || (e.Dispatch? && s.idle != [] && s.idle[0] == Shutdown))
  }

  /** The only remaining device of a shutdown connects, and its Edge context cannot be created. */
  ghost predicate LastDeviceDropped(s: System, e: Event) {
    s.unregistering && e.ConnectDone? && e.ok && !e.created && s.edgeUp && |s.devices| == 1 && FindAddress(s, e.address) == 0
  }

  ghost predicate SameFlags(s: System, t: System) {
    s.history.early == t.history.early && s.history.bypassed == t.history.bypassed && s.history.skipped == t.history.skipped
  }

  /** Contexts from position k on whose RemoveDevice cannot be issued. */
  function UnreachableFrom(devices: seq<Device>, k: nat, reachable: set<string>): set<nat>
    requires k <= |devices|
  {
    set i | k <= i < |devices| && devices[i].id !in reachable :: devices[i].ptr
  }

  /** The event begins the shutdown, and these contexts are listed and unreachable. */
  function SkippedBy(s: System, e: Event): set<nat> {
    if s.unregistering then {}
    else if e.Signal? then UnreachableFrom(s.devices, 0, e.reachable)
    else if e.Dispatch? && s.idle != [] && s.idle[0] == Shutdown then UnreachableFrom(s.devices, 0, e.reachable)
    else {}
  }

  lemma {:induction false} RemoveFromSkips(s: System, k: nat, reachable: set<string>)
    requires k <= |s.devices|
    ensures RemoveFrom(s, k, reachable).history.skipped == s.history.skipped + UnreachableFrom(s.devices, k, reachable)
    decreases |s.devices| - k
  {
    if k < |s.devices| {
      var t := RemoveAt(s, k, reachable);
      RemoveFromSkips(t, k + 1, reachable);
      SameUnreachable(s.devices, t.devices, k, reachable);
      UnreachableStep(s.devices, k, reachable);
      hide UnreachableFrom;
    }
  }

  lemma SameUnreachable(a: seq<Device>, b: seq<Device>, k: nat, reachable: set<string>)
    requires k < |a| == |b| && b == a[k := b[k]]
    ensures UnreachableFrom(b, k + 1, reachable) == UnreachableFrom(a, k + 1, reachable)
  {
    assert forall i :: k < i < |a| ==> b[i] == a[i];
  }

  lemma UnreachableStep(devices: seq<Device>, k: nat, reachable: set<string>)
    requires k < |devices|
    ensures UnreachableFrom(devices, k, reachable) ==
            (if devices[k].id in reachable then {} else {devices[k].ptr}) + UnreachableFrom(devices, k + 1, reachable)
  {
  }

  lemma GracefulSkips(s: System, reachable: set<string>)
    ensures Graceful(s, reachable).history.skipped ==
            s.history.skipped + if s.unregistering then {} else UnreachableFrom(s.devices, 0, reachable)
  {
    var t := if s.running then s.(running := false) else s.(idle := s.idle + [Quit], history := s.history.(early := true));
    RemoveFromSkips(t.(unregistering := true), 0, reachable);
  }

  /** The shutdown stops every retry timer. */
  lemma ShutdownStopsTimers(s: System, reachable: set<string>)
    requires Safe(s) && !s.unregistering
    ensures var t := Graceful(s, reachable);
            t.timers == map[] && |t.devices| == |s.devices| && forall i :: 0 <= i < |t.devices| ==> t.devices[i].timer == 0
  {
    var t := if s.running then s.(running := false) else s.(idle := s.idle + [Quit], history := s.history.(early := true));
    RemoveFromStops(t.(unregistering := true), 0, reachable);
    GracefulSafe(s, reachable);
    hide Named, Allocated, AllCounted, AllJustified, Graceful, RemoveFrom;
    var u := Graceful(s, reachable);
    NoTimersLeft(u.devices, u.timers, u.nextSource);
  }

  lemma NoTimersLeft(devices: seq<Device>, timers: map<nat, nat>, nextSource: nat)
    requires Linked(devices, timers, nextSource) && forall i :: 0 <= i < |devices| ==> devices[i].timer == 0
    ensures timers == map[]
  {
    assert forall source :: source in timers ==> source > 0;
  }

  lemma {:induction false} RemoveFromStops(s: System, k: nat, reachable: set<string>)
    requires k <= |s.devices| && forall i :: 0 <= i < k ==> s.devices[i].timer == 0
    ensures var t := RemoveFrom(s, k, reachable);
            |t.devices| == |s.devices| && forall i :: 0 <= i < |t.devices| ==> t.devices[i].timer == 0
    decreases |s.devices| - k
  {
    if k < |s.devices| { RemoveFromStops(RemoveAt(s, k, reachable), k + 1, reachable); }
  }

  lemma ReconnectFlags(s: System, k: nat, accepted: bool)
    requires k < |s.devices|
    ensures SameFlags(s, Reconnect(s, k, accepted))
  {
    hide Overdue, Expired, Retire, BackOffMs;
    var d := CountAttempt(s.devices[k]);
    RetireFlags(Log(Put(s, k, d), GiveUp(d.attempts, s.now - d.lastConnected, Expired(d, s.now))), k, accepted);
  }

  lemma RetireFlags(s: System, k: nat, accepted: bool)
    requires k < |s.devices|
    ensures SameFlags(s, Retire(s, k, accepted))
  {
  }

  lemma ConnectDoneFlags(s: System, address: Address, ok: bool, created: bool, servicesResolved: bool, accepted: bool)
    ensures var t := OnConnectDone(s, address, ok, created, servicesResolved, accepted);
            && t.history.early == s.history.early && t.history.skipped == s.history.skipped
            && t.history.bypassed == (s.history.bypassed || (s.unregistering && ok && !created && s.edgeUp
                                                             && |s.devices| == 1 && FindAddress(s, address) == 0))
  {
    hide Reconnect, Resolve, FindAddress;
    var k := FindAddress(s, address);
    if k < |s.devices| {
      ReconnectFlags(s, k, accepted);
      ResolveGrows(ResetRetries(s, k), address);
    }
  }

  lemma MessageFlags(s: System, m: Message, resolveNow: set<string>, reachable: set<string>)
    ensures OnMessage(s, m, resolveNow, reachable).history.early == (s.history.early || (!s.running && m == Shutdown))
    ensures OnMessage(s, m, resolveNow, reachable).history.bypassed == s.history.bypassed
    ensures OnMessage(s, m, resolveNow, reachable).history.skipped ==
            s.history.skipped + if m == Shutdown && !s.unregistering then UnreachableFrom(s.devices, 0, reachable) else {}
  {
    hide ReadyFrom, Graceful, UnreachableFrom;
    ReadyGrows(s, 0, resolveNow);
    GracefulFlags(s, reachable);
    GracefulSkips(s, reachable);
  }

  lemma GracefulFlags(s: System, reachable: set<string>)
    ensures Graceful(s, reachable).history.early == (s.history.early || !s.running)
    ensures Graceful(s, reachable).history.bypassed == s.history.bypassed
  {
    var t := if s.running then s.(running := false) else s.(idle := s.idle + [Quit], history := s.history.(early := true));
    RemoveFromCovers(t.(unregistering := true), 0, reachable);
  }

  // ---------- When the loop quits ----------

  lemma InitialOrderly(postfix: string, now: nat, es: seq<Event>)
    requires Legal(Initial(postfix, now), es)
    ensures Safe(Run(Initial(postfix, now), es)) && Orderly(Run(Initial(postfix, now), es))
  {
    RunOrderly(Initial(postfix, now), es);
  }

  /**
   * In every reachable state of a shutdown, a quit is queued or done exactly when it was queued early, or the
   * list is empty and its last device did not leave past the last-device check.
   */
  lemma QuitExactlyWhenDrained(postfix: string, now: nat, es: seq<Event>)
    requires Legal(Initial(postfix, now), es)
    ensures var s := Run(Initial(postfix, now), es);
            && (s.unregistering ==> (QuitSeen(s) <==> s.history.early || (s.devices == [] && !s.history.bypassed)))
            && (!s.unregistering ==> !QuitSeen(s))
            && (s.unregistering ==> !s.running)
  {
    InitialOrderly(postfix, now, es);
  }

  /** No request or message is left that could still remove a device or quit the loop. */
  ghost predicate Quiescent(s: System) {
    s.pending.removals == multiset{} && s.pending.unregisters == multiset{} && s.idle == []
  }

  /**
   * A shutdown that has completed all its requests has emptied the list, but for devices whose RemoveDevice
   * could not be issued; and it has quit, unless such a device remains or the list was emptied past the check.
   */
  lemma ShutdownDrains(postfix: string, now: nat, es: seq<Event>)
    requires Legal(Initial(postfix, now), es)
    requires Run(Initial(postfix, now), es).unregistering && Quiescent(Run(Initial(postfix, now), es))
    ensures var s := Run(Initial(postfix, now), es);
            && (forall i :: 0 <= i < |s.devices| ==> s.devices[i].ptr in s.history.skipped)
            && (s.history.skipped == {} ==> s.devices == [])
            && (s.quit <==> s.history.early || (s.devices == [] && !s.history.bypassed))
  {
    InitialOrderly(postfix, now, es);
    var s := Run(Initial(postfix, now), es);
    forall i | 0 <= i < |s.devices| ensures s.devices[i].ptr in s.history.skipped {
      assert Covered(s, s.devices[i]);
    }
    if s.devices != [] {
      assert s.devices[0].ptr in s.history.skipped;
    }
  }
}
