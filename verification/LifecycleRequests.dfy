/** Which registrations the translator asks Edge for, and which callbacks reach its main loop. */
module LifecycleRequests {
  import opened Optional
  import opened BackOff
  import opened DeviceIds
  import opened Lifecycle
  import opened LifecycleSafety
  import opened LifecycleHistory

  // ---------- Registrations ----------

  predicate Unregistered(s: System, a: Address) { Of(s, a) != None && !Of(s, a).value.registered }

  /** A device is registered when its services are known and Edge is up, and all devices when the translator is. */
  predicate Asks(s: System, e: Event, a: Address)
    requires e.Dispatch? ==> s.idle != []
  {
    match e
    case ServicesResolved(b) => b == a && s.edgeUp && Unregistered(s, a)
    case ConnectDone(b, ok, created, servicesResolved, _) =>
      b == a && ok && s.edgeUp && created && servicesResolved && Unregistered(s, a)
    case Dispatch(resolveNow, _) =>
      s.idle[0] == Ready && s.edgeUp && DeviceId(a, s.postfix) in resolveNow && Unregistered(s, a)
    case TranslatorRegistered => Of(s, a) != None
    case _ => false
  }

  /** The requests to register a device that are outstanding. */
  function Outstanding(s: System, a: Address): nat { s.pending.registers[DeviceId(a, s.postfix)] }

  lemma ResolveAsks(s: System, address: Address, a: Address)
    requires Safe(s)
    ensures var t := Resolve(s, address);
            && t.postfix == s.postfix
            && Outstanding(t, a) == Outstanding(s, a) + if s.edgeUp && address == a && Unregistered(s, a) then 1 else 0
  {
    SameAddresses(s, address, a);
    SameAddresses(s, a, a);
    var k := FindAddress(s, address);
    if k < |s.devices| {
      DeviceIdInjective(address, a, s.postfix);
      assert s.devices[k].id == DeviceId(address, s.postfix);
    }
    hide Safe, DeviceId, FindAddress;
  }

  lemma {:induction false} ReadyAsks(s: System, k: nat, resolveNow: set<string>, a: Address)
    requires Safe(s) && k <= |s.devices|
    ensures var t := ReadyFrom(s, k, resolveNow);
            Outstanding(t, a) == Outstanding(s, a) +
              if s.edgeUp && k <= FindAddress(s, a) && DeviceId(a, s.postfix) in resolveNow && Unregistered(s, a) then 1 else 0
    ensures ReadyFrom(s, k, resolveNow).postfix == s.postfix
    decreases |s.devices| - k
  {
    NotListed(s, a);
    if k < |s.devices| {
      var d := s.devices[k];
      NamedAt(s, k, a);
      if s.edgeUp && d.id in resolveNow {
        ResolveAsks(s, d.address, a);
        StaysUnregistered(s, d.address, a);
        ResolveSafe(s, d.address);
        SamePositions(s, d.address, a);
        hide Safe, Resolve, DeviceId, FindAddress, Unregistered, Outstanding;
        ReadyAsks(Resolve(s, d.address), k + 1, resolveNow, a);
      } else {
        hide Safe, Resolve, DeviceId, FindAddress, Unregistered, Outstanding;
        ReadyAsks(s, k + 1, resolveNow, a);
      }
    }
  }

  lemma StaysUnregistered(s: System, address: Address, a: Address)
    requires Safe(s)
    ensures Unregistered(Resolve(s, address), a) == Unregistered(s, a)
  {
    ResolveOf(s, address, a);
    hide Of, Resolve, Safe;
  }

  lemma NotListed(s: System, a: Address)
    ensures Of(s, a) == None <==> FindAddress(s, a) == |s.devices|
    ensures Unregistered(s, a) ==> FindAddress(s, a) < |s.devices|
  {
  }

  lemma {:induction false} RemoveFromRequests(s: System, k: nat, reachable: set<string>)
    requires k <= |s.devices|
    ensures var t := RemoveFrom(s, k, reachable);
            t.pending.registers == s.pending.registers && t.postfix == s.postfix && t.idle == s.idle
    decreases |s.devices| - k
  {
    if k < |s.devices| { RemoveFromRequests(RemoveAt(s, k, reachable), k + 1, reachable); }
  }

  /** The messages b are those of a, and quits after them. */
  predicate OnlyQuits(a: seq<Message>, b: seq<Message>) {
    a <= b && forall i :: |a| <= i < |b| ==> b[i] == Quit
  }

  lemma GracefulRequests(s: System, reachable: set<string>)
    ensures var t := Graceful(s, reachable);
            t.pending.registers == s.pending.registers && t.postfix == s.postfix && OnlyQuits(s.idle, t.idle)
  {
    var t := if s.running then s.(running := false) else s.(idle := s.idle + [Quit], history := s.history.(early := true));
    RemoveFromRequests(t.(unregistering := true), 0, reachable);
  }

  lemma RetireRequests(s: System, k: nat, accepted: bool)
    requires k < |s.devices|
    ensures var t := Retire(s, k, accepted);
            t.pending.registers == s.pending.registers && t.postfix == s.postfix && OnlyQuits(s.idle, t.idle)
  {
  }

  lemma ArmRequests(s: System, k: nat, ms: nat)
    requires k < |s.devices|
    ensures var t := Arm(s, k, ms);
            t.pending.registers == s.pending.registers && t.postfix == s.postfix && OnlyQuits(s.idle, t.idle)
  {
  }

  lemma ReconnectRequests(s: System, k: nat, accepted: bool)
    requires k < |s.devices|
    ensures var t := Reconnect(s, k, accepted);
            t.pending.registers == s.pending.registers && t.postfix == s.postfix && OnlyQuits(s.idle, t.idle)
  {
    if s.devices[k].timer == 0 {
      hide Overdue, Expired, Retire, Arm, BackOffMs;
      var d := CountAttempt(s.devices[k]);
      var t := Put(s, k, d);
      var u := Log(t, GiveUp(d.attempts, s.now - d.lastConnected, Expired(d, s.now)));
      RetireRequests(u, k, accepted);
      ArmRequests(t, k, BackOffMs(d.retries));
      ArmRequests(if accepted then Unregister(u, d.id, false) else u, k, BackOffMs(d.retries));
    }
  }

  lemma {:induction false} IdsCount(devices: seq<Device>, id: string)
    requires forall i, j :: 0 <= i < j < |devices| ==> devices[i].id != devices[j].id
    ensures Ids(devices)[id] == if FindId(devices, id) < |devices| then 1 else 0
  {
    if devices != [] {
      var rest := devices[1..];
      IdsCount(rest, id);
      var k := FindId(rest, id);
      if k < |rest| { assert devices[k + 1].id == id; }
      var m := FindId(devices, id);
      if 0 < m < |devices| { assert rest[m - 1].id == id; }
    }
  }

  lemma SuccessAsks(s: System, e: Event, a: Address)
    requires Safe(s) && Enabled(s, e) && e.ConnectDone? && e.ok
    ensures Outstanding(Step(s, e), a) == Outstanding(s, a) + if Asks(s, e, a) then 1 else 0
  {
    var u := s.(pending := s.pending.(connects := s.pending.connects - multiset{e.address}));
    SameList(s, u, a);
    SamePlace(s, u, e.address);
    SamePlace(s, u, a);
    SameAddresses(s, e.address, a);
    var k := FindAddress(u, e.address);
    if k < |u.devices| {
      var t := ResetRetries(u, k);
      ResetSafe(u, k);
      PutOf(u, k, t.devices[k], a);
      ResolveAsks(t, e.address, a);
    }
    hide Safe, DeviceId, FindAddress, Resolve;
  }

  /**
   * The requests to register a device grow by one exactly when it becomes known or Edge does while it is not
   * registered, or the translator as a whole is registered; each completion takes one away.
   */
  lemma RegistrationRequested(s: System, e: Event, a: Address)
    requires Safe(s) && Enabled(s, e)
    ensures Step(s, e).postfix == s.postfix
    ensures Outstanding(Step(s, e), a) ==
              Outstanding(s, a) + (if Asks(s, e, a) then 1 else 0)
                                - (if e.RegisterDone? && e.id == DeviceId(a, s.postfix) then 1 else 0)
  {
    PostfixStays(s, e);
    if e.ConnectDone? && e.ok {
      SuccessAsks(s, e, a);
    } else if e.ConnectDone? || e.Disconnected? {
      if Of(s, e.address) != None {
        var u := BeforeReconnect(s, e, e.address);
        ReconnectRequests(u, FindAddress(u, e.address), e.accepted);
      }
      hide Safe, DeviceId, FindAddress, Reconnect;
    } else if e.ServicesResolved? {
      ResolveAsks(s, e.address, a);
    } else if e.Dispatch? {
      DispatchAsks(s, e, a);
    } else if e.TranslatorRegistered? {
      IdsCount(s.devices, DeviceId(a, s.postfix));
      hide Ids, DeviceId;
    } else {
      OthersAskNothing(s, e, a);
    }
  }

  lemma DispatchAsks(s: System, e: Event, a: Address)
    requires Safe(s) && Enabled(s, e) && e.Dispatch?
    ensures Outstanding(Step(s, e), a) == Outstanding(s, a) + if Asks(s, e, a) then 1 else 0
  {
    hide DeviceId, FindAddress, ReadyFrom, Graceful;
    var u := s.(idle := s.idle[1..]);
    SameList(s, u, a);
    if s.idle[0] == Ready {
      ReadyAsks(u, 0, e.resolveNow, a);
      NotListed(u, a);
    } else if s.idle[0] == Shutdown {
      GracefulRequests(u, e.reachable);
    } else {
      FlagsAskNothing(u, s.idle[0], e.resolveNow, e.reachable);
    }
    hide Safe, OnMessage, Of;
  }

  lemma FlagsAskNothing(s: System, m: Message, resolveNow: set<string>, reachable: set<string>)
    requires m != Ready && m != Shutdown
    ensures var t := OnMessage(s, m, resolveNow, reachable);
            t.pending == s.pending && t.postfix == s.postfix
  {
  }

  lemma OthersAskNothing(s: System, e: Event, a: Address)
    requires Enabled(s, e)
    requires !e.ConnectDone? && !e.Disconnected? && !e.ServicesResolved? && !e.Dispatch? && !e.TranslatorRegistered?
    ensures Step(s, e).postfix == s.postfix
    ensures Outstanding(Step(s, e), a) ==
              Outstanding(s, a) - (if e.RegisterDone? && e.id == DeviceId(a, s.postfix) then 1 else 0)
  {
    hide DeviceId, Retire, Track, FindId, FindPath, FindAddress, Graceful;
    if e.Signal? {
      GracefulRequests(s, e.reachable);
    } else if e.RemoveDone? {
      var u := s.(pending := s.pending.(removals := s.pending.removals - multiset{e.id}));
      if FindId(u.devices, e.id) < |u.devices| { RetireRequests(u, FindId(u.devices, e.id), e.accepted); }
    } else if e.ObjectRemoved? {
      if FindPath(s.devices, e.path) < |s.devices| { RetireRequests(s, FindPath(s.devices, e.path), e.accepted); }
    } else if e.NewDevice? {
      TrackPending(s, e.address, e.path);
    }
  }

  lemma PostfixStays(s: System, e: Event)
    requires Safe(s) && Enabled(s, e)
    ensures Step(s, e).postfix == s.postfix
  {
    hide Safe, Of, Agrees, Waiting;
    StepPostfix(s, e);
  }

  lemma StepPostfix(s: System, e: Event)
    requires Enabled(s, e)
    ensures Step(s, e).postfix == s.postfix
  {
    hide DeviceId, Retire, Reconnect, Resolve, Ids, Graceful, ReadyFrom;
    if e.ConnectDone? {
      var u := s.(pending := s.pending.(connects := s.pending.connects - multiset{e.address}));
      var k := FindAddress(u, e.address);
      if k < |u.devices| {
        ReconnectRequests(u, k, e.accepted);
        ResolveFrame(ResetRetries(u, k), e.address);
      }
    } else if e.Disconnected? {
      var k := FindAddress(s, e.address);
      if k < |s.devices| { ReconnectRequests(Put(s, k, s.devices[k].(connected := false)), k, e.accepted); }
    } else if e.ServicesResolved? {
      ResolveFrame(s, e.address);
    } else if e.Dispatch? {
      var u := s.(idle := s.idle[1..]);
      ReadyFrame(u, 0, e.resolveNow);
      GracefulRequests(u, e.reachable);
    } else if !e.TranslatorRegistered? {
      OthersAskNothing(s, e, "00:00:00:00:00:00");
    }
  }

  // ---------- The queue of the main loop ----------

  /** What the callbacks of the client thread leave for the loop. */
  function Posted(s: System, e: Event): seq<Message> {
    match e
    case UnregisterDone(id, delete) => [Message.Unregistered(id, delete)]
    case RegisterDone(id, ok) => if ok then [Registered(id)] else []
    case PeerShutdown(registrationFailed) => if s.running || registrationFailed then [Shutdown] else []
    case EdgeReady => [Ready]
    case _ => []
  }

  lemma QuitsOnly(a: seq<Message>)
    ensures OnlyQuits(a, a) && OnlyQuits(a, a + [Quit])
  {
  }

  lemma SomeQuits(s: System, t: System, e: Event)
    requires Enabled(s, e) && t == Step(s, e)
    requires e.ConnectDone? || e.Disconnected? || e.ServicesResolved? || e.Signal?
    ensures OnlyQuits(s.idle, t.idle)
  {
    hide DeviceId, Reconnect, Resolve, Graceful;
    QuitsOnly(s.idle);
    if e.ConnectDone? {
      var u := s.(pending := s.pending.(connects := s.pending.connects - multiset{e.address}));
      var k := FindAddress(u, e.address);
      if k < |u.devices| {
        ReconnectRequests(u, k, e.accepted);
        ResolveFrame(ResetRetries(u, k), e.address);
      }
    } else if e.Disconnected? {
      var k := FindAddress(s, e.address);
      if k < |s.devices| { ReconnectRequests(Put(s, k, s.devices[k].(connected := false)), k, e.accepted); }
    } else if e.ServicesResolved? {
      ResolveFrame(s, e.address);
    } else {
      GracefulRequests(s, e.reachable);
    }
  }

  lemma DispatchQuits(s: System, e: Event)
    requires Enabled(s, e) && e.Dispatch?
    ensures OnlyQuits(s.idle[1..], Step(s, e).idle)
  {
    hide DeviceId, ReadyFrom, Graceful;
    var u := s.(idle := s.idle[1..]);
    QuitsOnly(u.idle);
    ReadyFrame(u, 0, e.resolveNow);
    GracefulRequests(u, e.reachable);
  }

  /**
   * The queue is first in, first out: an iteration takes its first message, every callback adds exactly its own at the
   * end, and the handlers add nothing but quits.
   */
  lemma MessagesPosted(s: System, e: Event)
    requires Enabled(s, e)
    ensures OnlyQuits((if e.Dispatch? then s.idle[1..] else s.idle) + Posted(s, e), Step(s, e).idle)
  {
    assert s.idle + [] == s.idle;
    if e.ConnectDone? || e.Disconnected? || e.ServicesResolved? || e.Signal? {
      SomeQuits(s, Step(s, e), e);
    } else if e.Dispatch? {
      assert s.idle[1..] + [] == s.idle[1..];
      DispatchQuits(s, e);
    } else if e.RemoveDone? {
      QuitsOnly(s.idle);
      var u := s.(pending := s.pending.(removals := s.pending.removals - multiset{e.id}));
      if FindId(u.devices, e.id) < |u.devices| { RetireRequests(u, FindId(u.devices, e.id), e.accepted); }
      hide Retire;
    } else if e.ObjectRemoved? {
      QuitsOnly(s.idle);
      if FindPath(s.devices, e.path) < |s.devices| { RetireRequests(s, FindPath(s.devices, e.path), e.accepted); }
      hide Retire;
    } else {
      QuitsOnly(s.idle + Posted(s, e));
    }
  }

  // ---------- Connects and removals ----------

  /** A discovery of a running translator connects, and so does the retry timer of the device. */
  predicate Connects(s: System, e: Event, a: Address) {
    || (e.NewDevice? && e.address == a && s.running)
    || (e.TimerFires? && Of(s, a) != None && Of(s, a).value.timer == e.source)
  }

  lemma {:induction false} RemoveFromConnects(s: System, k: nat, reachable: set<string>)
    requires k <= |s.devices|
    ensures RemoveFrom(s, k, reachable).pending.connects == s.pending.connects
    ensures RemoveFrom(s, k, reachable).pending.unregisters == s.pending.unregisters
    decreases |s.devices| - k
  {
    if k < |s.devices| { RemoveFromConnects(RemoveAt(s, k, reachable), k + 1, reachable); }
  }

  lemma GracefulConnects(s: System, reachable: set<string>)
    ensures Graceful(s, reachable).pending.connects == s.pending.connects
    ensures Graceful(s, reachable).pending.unregisters == s.pending.unregisters
  {
    var t := if s.running then s.(running := false) else s.(idle := s.idle + [Quit], history := s.history.(early := true));
    RemoveFromConnects(t.(unregistering := true), 0, reachable);
  }

  lemma TimerConnects(s: System, source: nat, a: Address)
    requires Safe(s) && source in s.timers
    ensures OnTimer(s, source).pending.connects[a] ==
              s.pending.connects[a] + if Of(s, a) != None && Of(s, a).value.timer == source then 1 else 0
  {
    OnTimerSafe(s, source);
    var k := FindPtr(s.devices, s.timers[source]);
    NamedAt(s, k, a);
    var at := FindAddress(s, a);
    if at < |s.devices| && s.devices[at].timer == source && source != 0 {
      assert Holds(s.devices[at], s.timers, source) && Holds(s.devices[k], s.timers, source);
      assert at == k;
    }
    assert source > 0;
    hide Safe, DeviceId, FindAddress;
  }

  lemma ReconnectConnects(s: System, k: nat, accepted: bool)
    requires k < |s.devices|
    ensures Reconnect(s, k, accepted).pending.connects == s.pending.connects
  {
    if s.devices[k].timer == 0 {
      hide TooMany, TooLong, Reconnect;
      ReconnectAsks(s, k, accepted);
    }
  }

  lemma FailureConnects(s: System, e: Event, a: Address)
    requires Safe(s) && Enabled(s, e) && ((e.ConnectDone? && !e.ok) || e.Disconnected?)
    ensures Step(s, e).pending.connects[a] == s.pending.connects[a] - if e.ConnectDone? && e.address == a then 1 else 0
  {
    if Of(s, e.address) != None {
      var u := BeforeReconnect(s, e, e.address);
      ReconnectConnects(u, FindAddress(u, e.address), e.accepted);
    }
    hide Safe, DeviceId, FindAddress, Reconnect;
  }

  lemma SuccessConnects(s: System, e: Event, a: Address)
    requires Enabled(s, e) && e.ConnectDone? && e.ok
    ensures Step(s, e).pending.connects[a] == s.pending.connects[a] - if e.address == a then 1 else 0
  {
    hide Resolve, FindAddress;
    var u := s.(pending := s.pending.(connects := s.pending.connects - multiset{e.address}));
    var k := FindAddress(u, e.address);
    if k < |u.devices| { ResolveFrame(ResetRetries(u, k), e.address); }
  }

  /** The connects under way to an address: one more for a discovery or its own timer, one less for an answer. */
  lemma ConnectRequested(s: System, e: Event, a: Address)
    requires Safe(s) && Enabled(s, e)
    ensures Step(s, e).pending.connects[a] ==
              s.pending.connects[a] + (if Connects(s, e, a) then 1 else 0) - (if e.ConnectDone? && e.address == a then 1 else 0)
  {
    if e.ConnectDone? && e.ok {
      SuccessConnects(s, e, a);
    } else if e.ConnectDone? || e.Disconnected? {
      FailureConnects(s, e, a);
    } else if e.TimerFires? {
      TimerConnects(s, e.source, a);
      hide OnTimer, Of;
    } else {
      OthersConnect(s, e, a);
    }
  }

  lemma OthersConnect(s: System, e: Event, a: Address)
    requires Enabled(s, e) && !e.ConnectDone? && !e.Disconnected? && !e.TimerFires?
    ensures Step(s, e).pending.connects[a] == s.pending.connects[a] + if e.NewDevice? && e.address == a && s.running then 1 else 0
  {
    hide DeviceId, Retire, Resolve, Ids, Graceful, ReadyFrom, Track;
    if e.NewDevice? {
      assert Track(s, e.address, e.path).pending == s.pending by { TrackPending(s, e.address, e.path); }
    } else if e.ServicesResolved? {
      ResolveFrame(s, e.address);
    } else if e.Dispatch? {
      var u := s.(idle := s.idle[1..]);
      ReadyFrame(u, 0, e.resolveNow);
      GracefulConnects(u, e.reachable);
    } else if e.Signal? {
      GracefulConnects(s, e.reachable);
    } else if e.RemoveDone? {
      var u := s.(pending := s.pending.(removals := s.pending.removals - multiset{e.id}));
      if FindId(u.devices, e.id) < |u.devices| { RetiredClock(u, FindId(u.devices, e.id), e.accepted); }
    } else if e.ObjectRemoved? {
      if FindPath(s.devices, e.path) < |s.devices| { RetiredClock(s, FindPath(s.devices, e.path), e.accepted); }
    }
  }

  lemma TrackPending(s: System, address: Address, path: string)
    ensures Track(s, address, path).pending == s.pending && Track(s, address, path).postfix == s.postfix
  {
  }

  /** A removal, by request or by BlueZ, asks Edge to unregister the device and to delete it then; refused, it goes at once. */
  lemma RemovalUnregisters(s: System, e: Event)
    requires Enabled(s, e) && (e.RemoveDone? || e.ObjectRemoved?)
    ensures var t := Step(s, e);
            var k := if e.RemoveDone? then FindId(s.devices, e.id) else FindPath(s.devices, e.path);
            && (k < |s.devices| && e.accepted ==>
                  t.devices == s.devices && t.pending.unregisters == s.pending.unregisters + multiset{(s.devices[k].id, true)})
            && (k < |s.devices| && !e.accepted ==>
                  t.devices == s.devices[..k] + s.devices[k + 1..] && t.pending.unregisters == s.pending.unregisters)
            && (k == |s.devices| ==> t.devices == s.devices && t.pending.unregisters == s.pending.unregisters)
            && t.pending.removals == s.pending.removals - if e.RemoveDone? then multiset{e.id} else multiset{}
  {
    var u := if e.RemoveDone? then s.(pending := s.pending.(removals := s.pending.removals - multiset{e.id})) else s;
    var k := if e.RemoveDone? then FindId(u.devices, e.id) else FindPath(u.devices, e.path);
    assert k == if e.RemoveDone? then FindId(s.devices, e.id) else FindPath(s.devices, e.path);
    if k < |u.devices| { RetiredClock(u, k, e.accepted); }
  }

  // ---------- The switches of the loop ----------

  predicate SameSwitches(s: System, t: System) {
    t.running == s.running && t.edgeUp == s.edgeUp && t.unregistering == s.unregistering && t.quit == s.quit
  }

  lemma ReconnectSwitches(s: System, k: nat, accepted: bool)
    requires k < |s.devices|
    ensures SameSwitches(s, Reconnect(s, k, accepted))
  {
    if s.devices[k].timer == 0 {
      hide Overdue, Expired, BackOffMs;
    }
  }

  lemma RetireSwitches(s: System, k: nat, accepted: bool)
    requires k < |s.devices|
    ensures SameSwitches(s, Retire(s, k, accepted))
  {
  }

  lemma ResolveSwitches(s: System, address: Address)
    ensures SameSwitches(s, Resolve(s, address))
  {
    hide FindAddress;
  }

  lemma {:induction false} ReadySwitches(s: System, k: nat, resolveNow: set<string>)
    requires k <= |s.devices|
    ensures SameSwitches(s, ReadyFrom(s, k, resolveNow))
    decreases |s.devices| - k
  {
    if k < |s.devices| {
      ResolveSwitches(s, s.devices[k].address);
      SamePositions(s, s.devices[k].address, s.devices[k].address);
      hide Resolve;
      if s.edgeUp && s.devices[k].id in resolveNow {
        ReadySwitches(Resolve(s, s.devices[k].address), k + 1, resolveNow);
      } else {
        ReadySwitches(s, k + 1, resolveNow);
      }
    }
  }

  lemma {:induction false} RemoveFromSwitches(s: System, k: nat, reachable: set<string>)
    requires k <= |s.devices|
    ensures SameSwitches(s, RemoveFrom(s, k, reachable))
    decreases |s.devices| - k
  {
    if k < |s.devices| { RemoveFromSwitches(RemoveAt(s, k, reachable), k + 1, reachable); }
  }

  lemma GracefulSwitches(s: System, reachable: set<string>)
    ensures var t := Graceful(s, reachable);
            !t.running && t.unregistering && t.edgeUp == s.edgeUp && t.quit == s.quit
  {
    var t := if s.running then s.(running := false) else s.(idle := s.idle + [Quit], history := s.history.(early := true));
    RemoveFromSwitches(t.(unregistering := true), 0, reachable);
  }

  /** The shutdown begins, or is asked for again. */
  predicate ShutsDown(s: System, e: Event) { e.Signal? || (e.Dispatch? && s.idle != [] && s.idle[0] == Shutdown) }

  lemma MessageSwitches(s: System, m: Message, resolveNow: set<string>, reachable: set<string>)
    ensures var t := OnMessage(s, m, resolveNow, reachable);
            && (t.running <==> s.running && m != Shutdown) && t.edgeUp == s.edgeUp
            && (t.unregistering <==> s.unregistering || m == Shutdown)
            && (t.quit <==> s.quit || (m == Quit && !s.running))
  {
    hide ReadyFrom, Graceful, FindId;
    ReadySwitches(s, 0, resolveNow);
    GracefulSwitches(s, reachable);
  }

  /** What turns each switch of the loop, and nothing else does. */
  lemma SwitchesExact(s: System, e: Event)
    requires Enabled(s, e)
    ensures var t := Step(s, e);
            && (t.running <==> s.running && !ShutsDown(s, e) && !e.StartFailed? && !e.PeerShutdown?)
            && (t.edgeUp <==> e.EdgeReady? || (s.edgeUp && !e.EdgeLost?))
            && (t.unregistering <==> s.unregistering || ShutsDown(s, e))
            && (t.quit <==> s.quit || (e.Dispatch? && s.idle[0] == Quit && !s.running))
  {
    hide DeviceId, FindAddress, FindId, FindPath, Reconnect, Resolve, Retire, OnMessage, Graceful, Ids, Track;
    if e.ConnectDone? {
      var u := s.(pending := s.pending.(connects := s.pending.connects - multiset{e.address}));
      var k := FindAddress(u, e.address);
      if k < |u.devices| {
        ReconnectSwitches(u, k, e.accepted);
        ResolveSwitches(ResetRetries(u, k), e.address);
      }
    } else if e.Disconnected? {
      var k := FindAddress(s, e.address);
      if k < |s.devices| { ReconnectSwitches(Put(s, k, s.devices[k].(connected := false)), k, e.accepted); }
    } else if e.ServicesResolved? {
      ResolveSwitches(s, e.address);
    } else if e.Dispatch? {
      MessageSwitches(s.(idle := s.idle[1..]), s.idle[0], e.resolveNow, e.reachable);
    } else if e.Signal? {
      GracefulSwitches(s, e.reachable);
    } else if e.RemoveDone? {
      var u := s.(pending := s.pending.(removals := s.pending.removals - multiset{e.id}));
      if FindId(u.devices, e.id) < |u.devices| { RetireSwitches(u, FindId(u.devices, e.id), e.accepted); }
    } else if e.ObjectRemoved? {
      if FindPath(s.devices, e.path) < |s.devices| { RetireSwitches(s, FindPath(s.devices, e.path), e.accepted); }
    } else if e.NewDevice? {
      TrackSwitches(s, e.address, e.path);
    }
  }

  lemma TrackSwitches(s: System, address: Address, path: string)
    ensures SameSwitches(s, Track(s, address, path))
  {
  }
}
