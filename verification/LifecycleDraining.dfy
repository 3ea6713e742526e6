/** Draining terminates: completions strictly lower a weight that other events raise by a bounded amount. */
module LifecycleDraining {
  import opened BackOff
  import opened DeviceIds
  import opened Lifecycle
  import opened LifecycleSafety
  import opened LifecycleShutdown

  // ---------- The weight of outstanding work ----------

  function MessageWeight(n: nat, m: Message): nat {
    match m
    case Quit => 1
    case Unregistered(_, _) => 2
    case Registered(_) => 1
    case Ready => 2 * n + 1
    case Shutdown => 2
  }

  function IdleWeight(n: nat, idle: seq<Message>): nat {
    if idle == [] then 0 else MessageWeight(n, idle[0]) + IdleWeight(n, idle[1..])
  }

  function PendingWeight(p: Pending): nat {
    4 * |p.removals| + 3 * |p.unregisters| + 2 * |p.registers|
  }

  function Weight(s: System): nat {
    PendingWeight(s.pending) + IdleWeight(|s.devices|, s.idle)
  }

  /** The events that complete a request or run a queued callback. */
  predicate Completes(e: Event) {
    e.RemoveDone? || e.UnregisterDone? || e.RegisterDone? || e.Dispatch?
  }

  lemma {:induction false} IdleWeightAppend(n: nat, idle: seq<Message>, m: Message)
    ensures IdleWeight(n, idle + [m]) == IdleWeight(n, idle) + MessageWeight(n, m)
  {
    if idle == [] {
      assert idle + [m] == [m];
    } else {
      assert (idle + [m])[1..] == idle[1..] + [m];
      IdleWeightAppend(n, idle[1..], m);
    }
  }

  lemma {:induction false} IdleWeightMonotone(n: nat, n': nat, idle: seq<Message>)
    requires n <= n'
    ensures IdleWeight(n, idle) <= IdleWeight(n', idle)
  {
    if idle != [] {
      IdleWeightMonotone(n, n', idle[1..]);
    }
  }

  /** What a handler may add: weight `w` of requests and messages, never a device. */
  ghost predicate Adds(s: System, t: System, w: nat) {
    |t.devices| <= |s.devices| && Weight(t) <= Weight(s) + w && t.unregistering == s.unregistering && t.running == s.running
  }

  lemma LighterList(s: System, t: System)
    requires |t.devices| <= |s.devices| && t.idle == s.idle && t.pending == s.pending
    requires t.unregistering == s.unregistering && t.running == s.running
    ensures Adds(s, t, 0)
  {
    IdleWeightMonotone(|t.devices|, |s.devices|, s.idle);
  }

  lemma DeleteAdds(s: System, k: nat)
    requires k < |s.devices|
    ensures Adds(s, EdgeDelete(s, k), 1) && Adds(s, BypassDelete(s, k), 0)
  {
    var t := Delete(s, k);
    LighterList(s, t);
    LighterList(s, BypassDelete(s, k));
    IdleWeightAppend(|t.devices|, t.idle, Quit);
  }

  lemma RetireAdds(s: System, k: nat, accepted: bool)
    requires k < |s.devices|
    ensures Adds(s, Retire(s, k, accepted), 3)
  {
    DeleteAdds(s, k);
  }

  lemma SameWeight(s: System, t: System)
    requires |t.devices| == |s.devices| && t.idle == s.idle && t.pending == s.pending
    ensures Weight(t) == Weight(s)
  {
  }

  lemma ArmAdds(s: System, k: nat, ms: nat)
    requires k < |s.devices|
    ensures Adds(s, Arm(s, k, ms), 0)
  {
    LighterList(s, Arm(s, k, ms));
  }

  lemma UnregisterAdds(s: System, id: string)
    ensures Adds(s, Unregister(s, id, false), 3) && Unregister(s, id, false).devices == s.devices
  {
  }

  lemma ReconnectAdds(s: System, k: nat, accepted: bool)
    requires k < |s.devices|
    ensures Adds(s, Reconnect(s, k, accepted), 3)
  {
    hide Overdue, Expired, Retire, Arm, Unregister, Weight;
    if s.devices[k].timer == 0 {
      var d := CountAttempt(s.devices[k]);
      var t := Put(s, k, d);
      var u := Log(t, GiveUp(d.attempts, s.now - d.lastConnected, Expired(d, s.now)));
      SameWeight(s, t);
      SameWeight(s, u);
      RetireAdds(u, k, accepted);
      ArmAdds(t, k, BackOffMs(d.retries));
      UnregisterAdds(u, d.id);
      ArmAdds(if accepted then Unregister(u, d.id, false) else u, k, BackOffMs(d.retries));
    }
  }

  lemma ResolveAdds(s: System, address: Address)
    ensures Adds(s, Resolve(s, address), 2) && |Resolve(s, address).devices| == |s.devices|
    ensures Resolve(s, address).idle == s.idle
  {
    hide FindAddress, IdleWeight;
  }

  lemma {:induction false} ReadyAdds(s: System, k: nat, resolveNow: set<string>)
    requires k <= |s.devices|
    ensures Adds(s, ReadyFrom(s, k, resolveNow), 2 * (|s.devices| - k))
    decreases |s.devices| - k
  {
    hide Resolve, Weight;
    if k < |s.devices| {
      ResolveAdds(s, s.devices[k].address);
      ReadyAdds(if s.edgeUp && s.devices[k].id in resolveNow then Resolve(s, s.devices[k].address) else s, k + 1, resolveNow);
    }
  }

  lemma {:induction false} IdsCount(devices: seq<Device>)
    ensures |Ids(devices)| == |devices|
  {
    if devices != [] {
      IdsCount(devices[1..]);
    }
  }

  // ---------- Completions ----------

  lemma PopWeight(s: System)
    requires s.idle != []
    ensures Weight(s) == Weight(s.(idle := s.idle[1..])) + MessageWeight(|s.devices|, s.idle[0])
  {
  }

  lemma RemovalLowers(s: System, id: string, accepted: bool)
    requires s.unregistering && !s.running && Enabled(s, RemoveDone(id, accepted))
    ensures var t := Step(s, RemoveDone(id, accepted));
            Weight(t) < Weight(s) && |t.devices| <= |s.devices| && t.unregistering && !t.running
  {
    hide Retire, FindId, IdleWeight;
    var t := s.(pending := s.pending.(removals := s.pending.removals - multiset{id}));
    var k := FindId(t.devices, id);
    if k < |t.devices| { RetireAdds(t, k, accepted); }
  }

  /** During shutdown every completed request and every dispatched callback strictly lowers the weight. */
  lemma CompletionLowers(s: System, e: Event)
    requires s.unregistering && !s.running && Enabled(s, e) && Completes(e)
    ensures Weight(Step(s, e)) < Weight(s) && |Step(s, e).devices| <= |s.devices|
    ensures Step(s, e).unregistering && !Step(s, e).running
  {
    hide Retire, FindId, IdleWeight, OnMessage;
    match e
    case RemoveDone(id, accepted) => RemovalLowers(s, id, accepted);
    case UnregisterDone(id, delete) => IdleWeightAppend(|s.devices|, s.idle, Unregistered(id, delete));
    case RegisterDone(id, ok) => IdleWeightAppend(|s.devices|, s.idle, Registered(id));
    case Dispatch(resolveNow, reachable) => DispatchLowers(s, resolveNow, reachable);
  }

  lemma DispatchLowers(s: System, resolveNow: set<string>, reachable: set<string>)
    requires s.unregistering && !s.running && !s.quit && s.idle != []
    ensures var t := Step(s, Dispatch(resolveNow, reachable));
            Weight(t) < Weight(s) && |t.devices| <= |s.devices| && t.unregistering && !t.running
  {
    hide FindId, IdleWeight, ReadyFrom, EdgeDelete;
    PopWeight(s);
    var t := s.(idle := s.idle[1..]);
    match s.idle[0]
    case Quit =>
    case Unregistered(id, delete) =>
      var k := FindId(t.devices, id);
      if k < |t.devices| { DeleteAdds(t, k); }
    case Registered(id) =>
    case Ready => ReadyAdds(t, 0, resolveNow);
    case Shutdown => IdleWeightAppend(|t.devices|, t.idle, Quit);
  }

  lemma ConnectDoneAdds(s: System, address: Address, ok: bool, created: bool, servicesResolved: bool, accepted: bool)
    ensures Adds(s, OnConnectDone(s, address, ok, created, servicesResolved, accepted), 3)
  {
    hide Reconnect, Resolve, BypassDelete, FindAddress, IdleWeight;
    var k := FindAddress(s, address);
    if k < |s.devices| {
      ReconnectAdds(s, k, accepted);
      var u := ResetRetries(s, k);
      DeleteAdds(u, k);
      ResolveAdds(u, address);
    }
  }

  predicate FromDevices(e: Event) {
    e.ConnectDone? || e.Disconnected? || e.ServicesResolved? || e.ObjectRemoved?
  }

  lemma DeviceEventsAdd(s: System, e: Event)
    requires Enabled(s, e) && FromDevices(e)
    ensures Adds(s, Step(s, e), 3)
  {
    hide OnConnectDone, Retire, Reconnect, Resolve, FindAddress, FindPath, Weight;
    if e.ConnectDone? {
      var t := s.(pending := s.pending.(connects := s.pending.connects - multiset{e.address}));
      assert Weight(t) == Weight(s) by { ConnectsWeighNothing(s, t); }
      ConnectDoneAdds(t, e.address, e.ok, e.created, e.servicesResolved, e.accepted);
    } else if e.Disconnected? {
      var k := FindAddress(s, e.address);
      if k < |s.devices| {
        var t := Put(s, k, s.devices[k].(connected := false));
        SameWeight(s, t);
        ReconnectAdds(t, k, e.accepted);
      }
    } else if e.ServicesResolved? {
      ResolveAdds(s, e.address);
    } else {
      var k := FindPath(s.devices, e.path);
      if k < |s.devices| { RetireAdds(s, k, e.accepted); }
    }
  }

  lemma ConnectsWeighNothing(s: System, t: System)
    requires |t.devices| == |s.devices| && t.idle == s.idle
    requires s.pending == t.pending.(connects := s.pending.connects)
    ensures Weight(t) == Weight(s)
  {
  }

  /** Every event that completes nothing raises the weight by a bounded amount and never lengthens the list. */
  lemma OthersAddLittle(s: System, e: Event)
    requires s.unregistering && !s.running && Enabled(s, e) && !Completes(e)
    ensures Weight(Step(s, e)) <= Weight(s) + 2 * |s.devices| + 3 && |Step(s, e).devices| <= |s.devices|
    ensures Step(s, e).unregistering && !Step(s, e).running
  {
    if FromDevices(e) {
      hide Step, Weight;
      DeviceEventsAdd(s, e);
    } else {
      OutsideEventsAdd(s, e);
    }
  }

  lemma OutsideEventsAdd(s: System, e: Event)
    requires s.unregistering && !s.running && Enabled(s, e) && !Completes(e) && !FromDevices(e)
    ensures Weight(Step(s, e)) <= Weight(s) + 2 * |s.devices| + 3 && |Step(s, e).devices| <= |s.devices|
    ensures Step(s, e).unregistering && !Step(s, e).running
  {
    hide FindAddress, FindPtr, IdleWeight;
    if e.Signal? {
      IdleWeightAppend(|s.devices|, s.idle, Quit);
    } else if e.PeerShutdown? {
      IdleWeightAppend(|s.devices|, s.idle, Shutdown);
    } else if e.EdgeReady? {
      IdleWeightAppend(|s.devices|, s.idle, Ready);
    } else if e.TranslatorRegistered? {
      IdsCount(s.devices);
    }
  }

  function Completions(es: seq<Event>): nat {
    if es == [] then 0 else (if Completes(es[0]) then 1 else 0) + Completions(es[1..])
  }

  /**
   * From any state of a shutdown, a run holds at most as many completions as the outstanding work weighs,
   * plus a bounded number for each event from outside; and the list never grows.
   */
  lemma {:induction false} DrainingTerminates(s: System, es: seq<Event>)
    requires s.unregistering && !s.running && Legal(s, es)
    ensures Completions(es) + Weight(Run(s, es)) <= Weight(s) + (|es| - Completions(es)) * (2 * |s.devices| + 3)
    ensures |Run(s, es).devices| <= |s.devices| && Completions(es) <= |es|
    decreases |es|
  {
    if es != [] {
      var t, rest := Step(s, es[0]), es[1..];
      if Completes(es[0]) {
        CompletionLowers(s, es[0]);
      } else {
        OthersAddLittle(s, es[0]);
      }
      DrainingTerminates(t, rest);
      Scale(|rest| - Completions(rest), 2 * |t.devices| + 3, 2 * |s.devices| + 3);
    }
  }

  lemma Scale(count: nat, a: nat, b: nat)
    requires a <= b
    ensures count * a <= count * b && (count + 1) * b == count * b + b
  {
  }

  // ---------- Where the obvious claims fail ----------

  lemma RunOne(s: System, e: Event, es: seq<Event>)
    requires Enabled(s, e) && Legal(Step(s, e), es)
    ensures Legal(s, [e] + es) && Run(s, [e] + es) == Run(Step(s, e), es)
  {
    assert ([e] + es)[1..] == es;
  }

  /** The translator after it has found its first device. */
  function OneDevice(postfix: string, now: nat, address: Address, path: string): System {
    Initial(postfix, now).(
      devices := [Device(0, address, path, DeviceId(address, postfix), false, false, false, false, 0, 0, 0, now, 0)],
      nextPtr := 1,
      pending := Pending(multiset{address}, multiset{}, multiset{}, multiset{}))
  }

  lemma FirstDevice(postfix: string, now: nat, address: Address, path: string)
    ensures Step(Initial(postfix, now), NewDevice(address, path)) == OneDevice(postfix, now, address, path)
  {
    hide DeviceId;
  }

  /** How it hangs: the only device connects during shutdown, and Edge cannot create its context. */
  function HangingTail(address: Address, id: string): seq<Event> {
    [EdgeReady] + ([ConnectDone(address, true, false, false, false)] + ([RemoveDone(id, true)] + ([Dispatch({}, {})] + [])))
  }

  function HangingRun(address: Address, path: string, id: string): seq<Event> {
    [NewDevice(address, path)] + ([Signal({id})] + HangingTail(address, id))
  }

  ghost predicate Hung(s: System) {
    s.unregistering && s.devices == [] && Quiescent(s) && s.pending.registers == multiset{} && !s.quit
  }

  /** A shutdown can complete everything with an empty list and still never quit. */
  lemma ShutdownCanHang(postfix: string, now: nat, address: Address, path: string)
    ensures var es := HangingRun(address, path, DeviceId(address, postfix));
            && Legal(Initial(postfix, now), es)
            && Hung(Run(Initial(postfix, now), es))
  {
    hide DeviceId, Legal, Run, HangingTail;
    var id := DeviceId(address, postfix);
    FirstDevice(postfix, now, address, path);
    var s1 := OneDevice(postfix, now, address, path);
    var s2 := SignalOne(postfix, now, address, path);
    TailHangs(postfix, now, address, path, s2);
    RunOne(s1, Signal({id}), HangingTail(address, id));
    RunOne(Initial(postfix, now), NewDevice(address, path), [Signal({id})] + HangingTail(address, id));
  }

  lemma TailHangs(postfix: string, now: nat, address: Address, path: string, s: System)
    requires var id := DeviceId(address, postfix);
             s == OneDevice(postfix, now, address, path).(
                    running := false, unregistering := true,
                    pending := Pending(multiset{address}, multiset{id}, multiset{}, multiset{}))
    ensures Legal(s, HangingTail(address, DeviceId(address, postfix)))
    ensures Hung(Run(s, HangingTail(address, DeviceId(address, postfix))))
  {
    hide DeviceId, Legal, Run, Hung, OnRemoveDone, OnMessage;
    var id := DeviceId(address, postfix);
    var s3 := Step(s, EdgeReady);
    var s4 := Step(s3, ConnectDone(address, true, false, false, false));
    assert s4.devices == [];
    EmptyHangs(s4, id);
    var e5 := [RemoveDone(id, true)] + ([Dispatch({}, {})] + []);
    var e4 := [ConnectDone(address, true, false, false, false)] + e5;
    RunOne(s3, ConnectDone(address, true, false, false, false), e5);
    RunOne(s, EdgeReady, e4);
  }

  /** With the list already empty the rest of the queue drains without a quit. */
  lemma EmptyHangs(s: System, id: string)
    requires s.devices == [] && !s.running && s.unregistering && !s.quit && s.idle == [Ready]
    requires s.pending == Pending(multiset{}, multiset{id}, multiset{}, multiset{})
    ensures Legal(s, [RemoveDone(id, true)] + ([Dispatch({}, {})] + []))
    ensures Hung(Run(s, [RemoveDone(id, true)] + ([Dispatch({}, {})] + [])))
  {
    hide Legal, Run;
    var s5 := Step(s, RemoveDone(id, true));
    var s6 := Step(s5, Dispatch({}, {}));
    RunNone(s6);
    RunOne(s5, Dispatch({}, {}), []);
    RunOne(s, RemoveDone(id, true), [Dispatch({}, {})] + []);
  }

  lemma RunNone(s: System)
    ensures Legal(s, []) && Run(s, []) == s
  {
  }

  lemma SignalOne(postfix: string, now: nat, address: Address, path: string) returns (t: System)
    ensures var s, id := OneDevice(postfix, now, address, path), DeviceId(address, postfix);
            && t == Step(s, Signal({id}))
            && t == s.(running := false, unregistering := true,
                       pending := Pending(multiset{address}, multiset{id}, multiset{}, multiset{}))
  {
    hide DeviceId;
    var s, id := OneDevice(postfix, now, address, path), DeviceId(address, postfix);
    t := Step(s, Signal({id}));
    var u := s.(running := false, unregistering := true);
    assert u.timers - {0} == u.timers;
    assert RemoveFrom(u, 0, {id}) == RemoveFrom(RemoveAt(u, 0, {id}), 1, {id}) == RemoveAt(u, 0, {id});
  }

  /** The run that quits early: the connection to Edge goes away, and the queued shutdown finds the run flag cleared. */
  function EarlyRun(address: Address, path: string, id: string): seq<Event> {
    [NewDevice(address, path)] + ([PeerShutdown(false)] + ([Dispatch({}, {id})] + ([Dispatch({}, {})] + [])))
  }

  /** A loop can quit while a device is still listed. */
  lemma QuitCanPrecedeDraining(postfix: string, now: nat, address: Address, path: string)
    ensures var es := EarlyRun(address, path, DeviceId(address, postfix));
            && Legal(Initial(postfix, now), es)
            && var s := Run(Initial(postfix, now), es);
               s.quit && |s.devices| == 1
  {
    hide DeviceId, Legal, Run;
    var id := DeviceId(address, postfix);
    FirstDevice(postfix, now, address, path);
    var s1 := OneDevice(postfix, now, address, path);
    var s2 := Step(s1, PeerShutdown(false));
    var s3 := Step(s2, Dispatch({}, {id}));
    var t := s2.(idle := s2.idle[1..]);
    var u := t.(idle := t.idle + [Quit], history := t.history.(early := true), unregistering := true);
    RemoveFromCovers(u, 0, {id});
    assert s3.idle[0] == Quit && !s3.running && !s3.quit && |s3.devices| == 1;
    var s4 := Step(s3, Dispatch({}, {}));
    RunNone(s4);
    RunOne(s3, Dispatch({}, {}), []);
    RunOne(s2, Dispatch({}, {id}), [Dispatch({}, {})] + []);
    RunOne(s1, PeerShutdown(false), [Dispatch({}, {id})] + ([Dispatch({}, {})] + []));
    RunOne(Initial(postfix, now), NewDevice(address, path),
           [PeerShutdown(false)] + ([Dispatch({}, {id})] + ([Dispatch({}, {})] + [])));
  }
}
