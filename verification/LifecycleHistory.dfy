/**
 * The life of one device told from the events alone, and the proof that its context agrees: when it last connected, how
 * often it failed since, whether it is connected, registered and resolved, and so when the translator gives it up.
 */
module LifecycleHistory {
  import opened Optional
  import opened BackOff
  import opened DeviceIds
  import opened Lifecycle
  import opened LifecycleSafety

  // ---------- The history ----------

  /** The context of an address, if it is listed. */
  function Of(s: System, a: Address): Option<Device> {
    var k := FindAddress(s, a);
    if k < |s.devices| then Some(s.devices[k]) else None
  }

  /** The clock after the events. */
  function ClockAfter(clock: nat, es: seq<Event>): nat
    decreases |es|
  {
    if es == [] then clock else ClockAfter(if es[0].Tick? then clock + es[0].seconds else clock, es[1..])
  }

  /**
   * The clock of the last successful connect, or of the discovery; the failures counted since; whether the last outcome
   * was a success; and the flags.
   */
  datatype Life = Life(since: nat, failures: nat, up: bool, connected: bool, registered: bool, resolved: bool)

  /** A failed connect, or a disconnect. */
  predicate Fails(e: Event, a: Address) {
    (e.ConnectDone? && e.address == a && !e.ok) || (e.Disconnected? && e.address == a)
  }

  /** A failure counts when the device is not waiting for a retry already. */
  function Failed(r: Life, waiting: bool): Life {
    r.(up := false, failures := if waiting then r.failures else r.failures + 1)
  }

  predicate Waiting(s: System, a: Address) { Of(s, a) != None && Of(s, a).value.timer != 0 }

  /** What one event adds to the life of an address. */
  ghost function Note(s: System, e: Event, a: Address, clock: nat, r: Life): Life
    requires Enabled(s, e)
  {
    match e
    case NewDevice(b, _) => if b == a && Of(s, a) == None then Life(clock, 0, false, false, false, false) else r
    case ConnectDone(b, ok, created, servicesResolved, _) =>
      if b != a then r
      else if ok then r.(since := clock, failures := 0, up := true, resolved := r.resolved || (s.edgeUp && created && servicesResolved))
      else Failed(r, Waiting(s, a))
    case Connected(b) => if b == a then r.(connected := true) else r
    case Disconnected(b, _) => if b == a then Failed(r.(connected := false), Waiting(s, a)) else r
    case ServicesResolved(b) => if b == a && s.edgeUp then r.(resolved := true) else r
    case Dispatch(resolveNow, _) => Noted(s.idle[0], resolveNow, s.edgeUp, DeviceId(a, s.postfix), r)
    case _ => r
  }

  function Noted(m: Message, resolveNow: set<string>, edgeUp: bool, id: string, r: Life): Life {
    match m
    case Registered(other) => if other == id then r.(registered := true) else r
    case Unregistered(other, delete) => if other == id && !delete then r.(registered := false) else r
    case Ready => if edgeUp && id in resolveNow then r.(resolved := true) else r
    case _ => r
  }

  /** The life of an address over a run. */
  ghost function LifeAfter(s: System, es: seq<Event>, a: Address, clock: nat, r: Life): Life
    requires Legal(s, es)
    decreases |es|
  {
    if es == [] then r
    else LifeAfter(Step(s, es[0]), es[1..], a, ClockAfter(clock, [es[0]]), Note(s, es[0], a, clock, r))
  }

  /** The context agrees with the history. */
  predicate Agrees(d: Device, a: Address, r: Life) {
    && d.address == a && d.lastConnected == r.since && d.attempts == r.failures && d.retries == Min(r.failures, 10000)
    && d.connected == r.connected && d.registered == r.registered && d.resolved == r.resolved
  }

  predicate Follows(s: System, a: Address, clock: nat, r: Life) {
    s.now == clock && (Of(s, a) != None ==> Agrees(Of(s, a).value, a, r))
  }

  // ---------- Effects on one context ----------

  predicate SameButTimer(d: Device, e: Device) { e == d.(timer := e.timer, wait := e.wait) }

  /** Nothing happens to the context of the address but to its timer, or it goes. */
  predicate Keeps(s: System, t: System, a: Address) {
    && t.now == s.now && t.postfix == s.postfix
    && (Of(t, a) != None ==> Of(s, a) != None && SameButTimer(Of(s, a).value, Of(t, a).value))
  }

  lemma KeepsMore(s: System, t: System, u: System, a: Address)
    requires Keeps(s, t, a) && Keeps(t, u, a)
    ensures Keeps(s, u, a)
  {
    hide Of;
  }

  lemma SameList(s: System, t: System, a: Address)
    requires t.devices == s.devices && t.postfix == s.postfix
    ensures Of(t, a) == Of(s, a)
  {
  }

  lemma PutOf(s: System, k: nat, d: Device, a: Address)
    requires k < |s.devices| && d.id == s.devices[k].id
    ensures FindAddress(Put(s, k, d), a) == FindAddress(s, a)
    ensures Of(Put(s, k, d), a) == if FindAddress(s, a) == k then Some(d) else Of(s, a)
  {
    hide DeviceId;
    var t := Put(s, k, d);
    assert forall i :: 0 <= i < |s.devices| ==> t.devices[i].id == s.devices[i].id;
  }

  lemma FindWithout(devices: seq<Device>, postfix: string, k: nat, id: string)
    requires Named(devices, postfix) && k < |devices|
    ensures var f, r := FindId(devices, id), Without(devices, k);
            var g := FindId(r, id);
            if f == k || f == |devices| then g == |r| else g < |r| && r[g] == devices[f]
  {
    hide DeviceId;
    var f, r := FindId(devices, id), Without(devices, k);
    var g := FindId(r, id);
    if g < |r| {
      var i := if g < k then g else g + 1;
      assert devices[i] == r[g];
      OnePosition(devices, postfix, f, i);
    }
    if f < |devices| && f != k {
      assert r[if f < k then f else f - 1] == devices[f];
    }
  }

  lemma OnePosition(devices: seq<Device>, postfix: string, i: nat, j: nat)
    requires Named(devices, postfix) && i < |devices| && j < |devices| && devices[i].id == devices[j].id
    ensures i == j
  {
    hide DeviceId;
    if i < j {} else if j < i {} else {}
  }

  lemma WithoutOf(s: System, t: System, k: nat, a: Address)
    requires Named(s.devices, s.postfix) && k < |s.devices| && t.devices == Without(s.devices, k) && t.postfix == s.postfix
    ensures Of(t, a) == if FindAddress(s, a) == k then None else Of(s, a)
  {
    FindWithout(s.devices, s.postfix, k, DeviceId(a, s.postfix));
    hide DeviceId, Named;
  }

  lemma DeleteKeeps(s: System, k: nat, a: Address)
    requires Named(s.devices, s.postfix) && k < |s.devices|
    ensures Keeps(s, Delete(s, k), a) && Keeps(s, EdgeDelete(s, k), a) && Keeps(s, BypassDelete(s, k), a)
    ensures Of(BypassDelete(s, k), a) == Of(EdgeDelete(s, k), a) == if FindAddress(s, a) == k then None else Of(s, a)
  {
    hide Named, Of;
    WithoutOf(s, Delete(s, k), k, a);
    WithoutOf(s, EdgeDelete(s, k), k, a);
    WithoutOf(s, BypassDelete(s, k), k, a);
  }

  lemma PutKeeps(s: System, k: nat, d: Device, a: Address)
    requires k < |s.devices| && SameButTimer(s.devices[k], d)
    ensures Keeps(s, Put(s, k, d), a)
  {
    PutOf(s, k, d, a);
  }

  lemma ArmKeeps(s: System, k: nat, ms: nat, a: Address)
    requires k < |s.devices|
    ensures Keeps(s, Arm(s, k, ms), a)
    ensures Of(Arm(s, k, ms), a) ==
            if FindAddress(s, a) == k then Some(s.devices[k].(timer := s.nextSource, wait := ms)) else Of(s, a)
  {
    var d := s.devices[k].(timer := s.nextSource, wait := ms);
    PutOf(s, k, d, a);
    SameList(Put(s, k, d), Arm(s, k, ms), a);
  }

  lemma RetireKeeps(s: System, k: nat, accepted: bool, a: Address)
    requires Named(s.devices, s.postfix) && k < |s.devices|
    ensures Keeps(s, Retire(s, k, accepted), a)
    ensures Of(Retire(s, k, accepted), a) == if !accepted && FindAddress(s, a) == k then None else Of(s, a)
  {
    DeleteKeeps(s, k, a);
    SameList(s, Unregister(s, s.devices[k].id, true), a);
  }

  lemma RemoveAtKeeps(s: System, k: nat, reachable: set<string>, a: Address)
    requires k < |s.devices|
    ensures Keeps(s, RemoveAt(s, k, reachable), a) && |RemoveAt(s, k, reachable).devices| == |s.devices|
  {
    var d := s.devices[k].(timer := 0);
    PutKeeps(s, k, d, a);
    SameList(Put(s, k, d), RemoveAt(s, k, reachable), a);
  }

  lemma {:induction false} RemoveFromKeeps(s: System, k: nat, reachable: set<string>, a: Address)
    requires k <= |s.devices|
    ensures Keeps(s, RemoveFrom(s, k, reachable), a)
    decreases |s.devices| - k
  {
    hide Of, RemoveAt;
    if k < |s.devices| {
      RemoveAtKeeps(s, k, reachable, a);
      RemoveFromKeeps(RemoveAt(s, k, reachable), k + 1, reachable, a);
      KeepsMore(s, RemoveAt(s, k, reachable), RemoveFrom(s, k, reachable), a);
    }
  }

  lemma GracefulKeeps(s: System, reachable: set<string>, a: Address)
    ensures Keeps(s, Graceful(s, reachable), a)
  {
    hide RemoveFrom;
    var t := if s.running then s.(running := false) else s.(idle := s.idle + [Quit], history := s.history.(early := true));
    SameList(s, t, a);
    SameList(t, t.(unregistering := true), a);
    if !t.unregistering && |t.devices| > 0 {
      RemoveFromKeeps(t.(unregistering := true), 0, reachable, a);
    }
  }

  /** Services get resolved, and nothing else. */
  predicate Resolves(s: System, t: System, a: Address, now: bool) {
    && t.now == s.now && t.postfix == s.postfix && (Of(t, a) == None <==> Of(s, a) == None)
    && (Of(s, a) != None ==>
          var d := Of(s, a).value;
          Of(t, a).value == if now && !d.resolved then d.(resolved := true, hasJson := true) else d)
  }

  lemma ResolveOf(s: System, address: Address, a: Address)
    requires Safe(s)
    ensures Resolves(s, Resolve(s, address), a, s.edgeUp && address == a)
    ensures Resolve(s, address).edgeUp == s.edgeUp
  {
    hide DeviceId, Linked, Allocated, AllCounted, AllJustified;
    var k := FindAddress(s, address);
    SameAddresses(s, address, a);
    if s.edgeUp && k < |s.devices| {
      var d := s.devices[k];
      var t := if d.resolved then s else Discover(s, k);
      PutOf(s, k, d.(resolved := true, hasJson := true), a);
      SameList(Put(s, k, d.(resolved := true, hasJson := true)), Discover(s, k), a);
      SameList(t, RequestRegister(t, d), a);
    }
  }

  /** A position belongs to an address exactly when the context there has it. */
  lemma SameAddresses(s: System, b: Address, a: Address)
    requires Safe(s)
    ensures FindAddress(s, b) < |s.devices| ==> s.devices[FindAddress(s, b)].address == b
    ensures FindAddress(s, b) < |s.devices| ==> (FindAddress(s, a) == FindAddress(s, b) <==> a == b)
  {
    hide Linked, Allocated, AllCounted, AllJustified;
    var k := FindAddress(s, b);
    if k < |s.devices| {
      assert s.devices[k].id == DeviceId(s.devices[k].address, s.postfix);
      DeviceIdInjective(s.devices[k].address, b, s.postfix);
      if FindAddress(s, a) == k { DeviceIdInjective(a, b, s.postfix); }
    }
  }

  lemma ResolvesTwice(s: System, t: System, u: System, a: Address, first: bool, second: bool)
    requires Resolves(s, t, a, first) && Resolves(t, u, a, second)
    ensures Resolves(s, u, a, first || second)
  {
    hide Of;
  }

  /** The ready handler resolves the listed devices from position k on that are named. */
  lemma {:induction false} ReadyOf(s: System, k: nat, resolveNow: set<string>, a: Address)
    requires Safe(s) && k <= |s.devices|
    ensures Resolves(s, ReadyFrom(s, k, resolveNow), a,
                     s.edgeUp && k <= FindAddress(s, a) && DeviceId(a, s.postfix) in resolveNow)
    decreases |s.devices| - k
  {
    if k < |s.devices| {
      var d := s.devices[k];
      var at := FindAddress(s, a);
      NamedAt(s, k, a);
      if s.edgeUp && d.id in resolveNow {
        var t := Resolve(s, d.address);
        ResolveOf(s, d.address, a);
        ResolveSafe(s, d.address);
        SamePositions(s, d.address, a);
        ReadyOf(t, k + 1, resolveNow, a);
        hide Safe, Of, Resolve, DeviceId, Resolves;
        ResolvesTwice(s, t, ReadyFrom(t, k + 1, resolveNow), a, d.address == a,
                      t.edgeUp && k + 1 <= FindAddress(t, a) && DeviceId(a, t.postfix) in resolveNow);
      } else {
        ReadyOf(s, k + 1, resolveNow, a);
      }
    }
  }

  lemma NamedAt(s: System, k: nat, a: Address)
    requires Safe(s) && k < |s.devices|
    ensures FindAddress(s, a) == k <==> s.devices[k].address == a
    ensures s.devices[k].id == DeviceId(s.devices[k].address, s.postfix)
  {
    hide Linked, Allocated, AllCounted, AllJustified;
    assert s.devices[k].id == DeviceId(s.devices[k].address, s.postfix);
    if FindAddress(s, a) == k { DeviceIdInjective(s.devices[k].address, a, s.postfix); }
  }

  lemma SamePositions(s: System, address: Address, a: Address)
    ensures FindAddress(Resolve(s, address), a) == FindAddress(s, a)
    ensures |Resolve(s, address).devices| == |s.devices|
    ensures Resolve(s, address).postfix == s.postfix && Resolve(s, address).edgeUp == s.edgeUp
  {
    hide DeviceId;
    var k := FindAddress(s, address);
    if s.edgeUp && k < |s.devices| {
      PutOf(s, k, s.devices[k].(resolved := true, hasJson := true), a);
    }
  }

  // ---------- One failure ----------

  predicate TooMany(d: Device, now: nat) { Overdue(CountAttempt(d), now) }

  predicate TooLong(d: Device, now: nat) { Expired(CountAttempt(d), now) }

  /** The context in position k has changed to d, and nothing else in the list. */
  ghost predicate Changed(s: System, t: System, k: nat, d: Device)
    requires k < |s.devices|
  {
    t.devices == s.devices[k := d] && t.postfix == s.postfix && t.now == s.now && SameNames(d, s.devices[k])
  }

  lemma ArmedOf(s: System, t: System, k: nat, d: Device, ms: nat, a: Address)
    requires k < |s.devices| && Changed(s, t, k, d)
    ensures FindAddress(s, a) != k ==> Of(Arm(t, k, ms), a) == Of(s, a)
    ensures FindAddress(s, a) == k ==> Of(Arm(t, k, ms), a) == Some(d.(timer := t.nextSource, wait := ms))
  {
    PutOf(s, k, d, a);
    SamePlace(Put(s, k, d), t, a);
    SameList(Put(s, k, d), t, a);
    ArmKeeps(t, k, ms, a);
  }

  lemma RetiredOf(s: System, t: System, k: nat, d: Device, accepted: bool, a: Address)
    requires Named(s.devices, s.postfix) && k < |s.devices| && Changed(s, t, k, d)
    ensures FindAddress(s, a) != k ==> Of(Retire(t, k, accepted), a) == Of(s, a)
    ensures FindAddress(s, a) == k ==> Of(Retire(t, k, accepted), a) == if accepted then Some(d) else None
  {
    PutNamedOnly(s.devices, s.postfix, k, d);
    PutOf(s, k, d, a);
    SamePlace(Put(s, k, d), t, a);
    SameList(Put(s, k, d), t, a);
    RetireKeeps(t, k, accepted, a);
    hide Named;
  }

  /** What the reconnection path does to the contexts, for a device that is not waiting. */
  lemma ReconnectOf(s: System, k: nat, accepted: bool, a: Address)
    requires Named(s.devices, s.postfix) && k < |s.devices| && s.devices[k].timer == 0
    ensures var d, t := s.devices[k], Reconnect(s, k, accepted);
            && t.now == s.now && t.postfix == s.postfix
            && (FindAddress(s, a) != k ==> Of(t, a) == Of(s, a))
            && (FindAddress(s, a) == k ==>
                  Of(t, a) == if !(TooMany(d, s.now) && TooLong(d, s.now)) then
                                Some(CountAttempt(d).(timer := s.nextSource, wait := BackOffMs(CountAttempt(d).retries)))
                              else if accepted then Some(CountAttempt(d)) else None)
  {
    hide Overdue, Expired, Of, DeviceId, Keeps, Named, FindAddress, Arm, Retire;
    var d := CountAttempt(s.devices[k]);
    var t := Put(s, k, d);
    if Overdue(d, s.now) {
      var u := Log(t, GiveUp(d.attempts, s.now - d.lastConnected, Expired(d, s.now)));
      if Expired(d, s.now) {
        RetiredOf(s, u, k, d, accepted, a);
        RetiredClock(u, k, accepted);
      } else {
        ArmedOf(s, if accepted then Unregister(u, d.id, false) else u, k, d, BackOffMs(d.retries), a);
        ArmedClock(if accepted then Unregister(u, d.id, false) else u, k, BackOffMs(d.retries));
      }
    } else {
      ArmedOf(s, t, k, d, BackOffMs(d.retries), a);
      ArmedClock(t, k, BackOffMs(d.retries));
    }
  }

  lemma RetiredClock(s: System, k: nat, accepted: bool)
    requires k < |s.devices|
    ensures var t := Retire(s, k, accepted);
            && t.now == s.now && t.postfix == s.postfix && t.unregistering == s.unregistering && s.idle <= t.idle
            && t.pending == s.pending.(unregisters := s.pending.unregisters +
                 if accepted then multiset{(s.devices[k].id, true)} else multiset{})
  {
  }

  lemma ArmedClock(s: System, k: nat, ms: nat)
    requires k < |s.devices|
    ensures var t := Arm(s, k, ms);
            && t.now == s.now && t.postfix == s.postfix && t.unregistering == s.unregistering && t.idle == s.idle
            && t.pending == s.pending
  {
  }

  /** And what it asks Edge for. */
  lemma ReconnectAsks(s: System, k: nat, accepted: bool)
    requires k < |s.devices| && s.devices[k].timer == 0
    ensures var d, t := s.devices[k], Reconnect(s, k, accepted);
            && t.pending == s.pending.(unregisters := s.pending.unregisters +
                 if TooMany(d, s.now) && accepted then multiset{(d.id, TooLong(d, s.now))} else multiset{})
            && t.unregistering == s.unregistering && s.idle <= t.idle
  {
    hide Overdue, Expired, Arm, Retire;
    var d := CountAttempt(s.devices[k]);
    var t := Put(s, k, d);
    if Overdue(d, s.now) {
      var u := Log(t, GiveUp(d.attempts, s.now - d.lastConnected, Expired(d, s.now)));
      if Expired(d, s.now) {
        RetiredClock(u, k, accepted);
      } else {
        ArmedClock(if accepted then Unregister(u, d.id, false) else u, k, BackOffMs(d.retries));
      }
    } else {
      ArmedClock(t, k, BackOffMs(d.retries));
    }
  }

  lemma PutNamedOnly(devices: seq<Device>, postfix: string, k: nat, d: Device)
    requires Named(devices, postfix) && k < |devices| && SameNames(d, devices[k])
    ensures Named(devices[k := d], postfix)
  {
    assert forall i :: 0 <= i < |devices| ==> SameNames(devices[k := d][i], devices[i]);
  }

  lemma SamePlace(s: System, t: System, a: Address)
    requires t.devices == s.devices && t.postfix == s.postfix
    ensures FindAddress(t, a) == FindAddress(s, a)
  {
  }

  // ---------- One step ----------

  lemma KeepsFollows(s: System, t: System, a: Address, clock: nat, r: Life)
    requires Follows(s, a, clock, r) && Keeps(s, t, a)
    ensures Follows(t, a, clock, r)
  {
    hide Of;
  }

  lemma ResolvesFollows(s: System, t: System, a: Address, clock: nat, r: Life, now: bool)
    requires Follows(s, a, clock, r) && Resolves(s, t, a, now)
    ensures Follows(t, a, clock, if now then r.(resolved := true) else r)
  {
    hide Of;
  }

  /** The context in position k changes to d, and with it the life of its address. */
  lemma PutFollows(s: System, k: nat, d: Device, b: Address, a: Address, clock: nat, r: Life, r': Life)
    requires Safe(s) && FindAddress(s, b) == k < |s.devices| && d.id == s.devices[k].id && Follows(s, a, clock, r)
    requires if a == b then Agrees(s.devices[k], a, r) ==> Agrees(d, a, r') else r' == r
    ensures Follows(Put(s, k, d), a, clock, r')
  {
    SameAddresses(s, b, a);
    PutOf(s, k, d, a);
    hide Safe, DeviceId, FindAddress;
  }

  lemma FailureFollows(s: System, accepted: bool, b: Address, a: Address, clock: nat, r: Life)
    requires Safe(s) && FindAddress(s, b) < |s.devices| && Follows(s, a, clock, r)
    ensures Follows(Reconnect(s, FindAddress(s, b), accepted), a, clock, if a == b then Failed(r, Waiting(s, a)) else r)
  {
    var k := FindAddress(s, b);
    SameAddresses(s, b, a);
    if s.devices[k].timer == 0 {
      assert a == b ==> Of(s, a) == Some(s.devices[k]);
      hide DeviceId, FindAddress, Reconnect, TooMany, TooLong, Of, BackOffMs, Agrees;
      ReconnectOf(s, k, accepted, a);
      CountedAgrees(s.devices[k], a, r);
      hide Safe;
    }
  }

  /** A counted failure, whatever becomes of the timer. */
  lemma CountedAgrees(d: Device, a: Address, r: Life)
    ensures Agrees(d, a, r) && d.timer == 0 ==>
      forall timer, wait :: Agrees(CountAttempt(d).(timer := timer, wait := wait), a, Failed(r, false))
                            && Agrees(CountAttempt(d), a, Failed(r, false))
  {
  }

  lemma SuccessFollows(s: System, b: Address, created: bool, servicesResolved: bool, a: Address, clock: nat, r: Life)
    requires Safe(s) && Follows(s, a, clock, r) && FindAddress(s, b) < |s.devices|
    ensures Follows(OnConnectDone(s, b, true, created, servicesResolved, false), a, clock,
      if b != a then r
      else r.(since := clock, failures := 0, up := true, resolved := r.resolved || (s.edgeUp && created && servicesResolved)))
  {
    var k := FindAddress(s, b);
    var done := if a == b then r.(since := clock, failures := 0, up := true) else r;
    var t := ResetRetries(s, k);
    ResetSafe(s, k);
    PutFollows(s, k, s.devices[k].(lastConnected := s.now, retries := 0, attempts := 0), b, a, clock, r, done);
    SameAddresses(s, b, a);
    PutOf(s, k, t.devices[k], a);
    hide FindAddress, Reconnect, Resolve, Follows;
    if t.edgeUp && !created {
      DeleteKeeps(t, k, a);
      KeepsFollows(t, BypassDelete(t, k), a, clock, done);
      if a == b { GoneFollows(BypassDelete(t, k), a, clock, done, r.(since := clock, failures := 0, up := true)); }
    } else if t.edgeUp && servicesResolved {
      ResolveOf(t, b, a);
      ResolvesFollows(t, Resolve(t, b), a, clock, done, b == a);
    }
  }

  /** Of an address that is not listed only the clock matters. */
  lemma GoneFollows(s: System, a: Address, clock: nat, r: Life, r': Life)
    requires Follows(s, a, clock, r) && Of(s, a) == None
    ensures Follows(s, a, clock, r')
  {
  }

  lemma ConnectDoneFollows(s: System, b: Address, ok: bool, created: bool, servicesResolved: bool, accepted: bool,
      a: Address, clock: nat, r: Life)
    requires Safe(s) && Follows(s, a, clock, r)
    ensures Follows(OnConnectDone(s, b, ok, created, servicesResolved, accepted), a, clock,
      if b != a then r
      else if ok then r.(since := clock, failures := 0, up := true, resolved := r.resolved || (s.edgeUp && created && servicesResolved))
      else Failed(r, Waiting(s, a)))
  {
    if FindAddress(s, b) == |s.devices| {
      if a == b {
        GoneFollows(s, a, clock, r, Failed(r, Waiting(s, a)));
        GoneFollows(s, a, clock, r, r.(since := clock, failures := 0, up := true,
                                      resolved := r.resolved || (s.edgeUp && created && servicesResolved)));
      }
    } else if ok {
      SuccessFollows(s, b, created, servicesResolved, a, clock, r);
    } else {
      FailureFollows(s, accepted, b, a, clock, r);
    }
    hide Safe, Follows, Of;
  }

  lemma DisconnectedFollows(s: System, b: Address, accepted: bool, a: Address, clock: nat, r: Life)
    requires Safe(s) && Follows(s, a, clock, r)
    ensures Follows(OnDisconnected(s, b, accepted), a, clock,
                    if b == a then Failed(r.(connected := false), Waiting(s, a)) else r)
  {
    var k := FindAddress(s, b);
    if k == |s.devices| {
      if a == b { GoneFollows(s, a, clock, r, Failed(r.(connected := false), Waiting(s, a))); }
    } else {
      var d := s.devices[k].(connected := false);
      var lost := if a == b then r.(connected := false) else r;
      assert Counted(s.devices[k], s.now);
      PutSafe(s, k, d);
      PutFollows(s, k, d, b, a, clock, r, lost);
      PutOf(s, k, d, b);
      SameWaiting(s, k, d, a);
      hide Safe, Follows, FindAddress, Reconnect, Waiting, Of, Agrees;
      FailureFollows(Put(s, k, d), accepted, b, a, clock, lost);
    }
  }

  lemma SameWaiting(s: System, k: nat, d: Device, a: Address)
    requires k < |s.devices| && d.id == s.devices[k].id && d.timer == s.devices[k].timer
    ensures Waiting(Put(s, k, d), a) == Waiting(s, a)
  {
    PutOf(s, k, d, a);
  }

  lemma TrackFollows(s: System, b: Address, path: string, a: Address, clock: nat, r: Life)
    requires Safe(s) && Follows(s, a, clock, r)
    ensures Follows(Track(s, b, path), a, clock,
                    if b == a && Of(s, a) == None then Life(clock, 0, false, false, false, false) else r)
  {
    var t := Track(s, b, path);
    TrackSafe(s, b, path);
    if FindAddress(s, b) == |s.devices| {
      assert forall i :: 0 <= i < |s.devices| ==> t.devices[i] == s.devices[i];
      SameAddresses(t, b, a);
      hide Safe, DeviceId;
      var k := FindAddress(s, a);
      if k < |s.devices| {
        assert FindAddress(t, a) == k;
      } else if FindAddress(t, a) < |t.devices| {
        assert FindAddress(t, a) == |s.devices| == FindAddress(t, b);
      }
    }
  }

  lemma MessageFollows(s: System, m: Message, resolveNow: set<string>, reachable: set<string>, a: Address, clock: nat, r: Life)
    requires Safe(s) && Follows(s, a, clock, r)
    ensures Follows(OnMessage(s, m, resolveNow, reachable), a, clock,
                    Noted(m, resolveNow, s.edgeUp, DeviceId(a, s.postfix), r))
  {
    var id := DeviceId(a, s.postfix);
    match m
    case Quit =>
    case Unregistered(other, delete) => FlagFollows(s, other, delete, false, a, clock, r);
    case Registered(other) => FlagFollows(s, other, false, true, a, clock, r);
    case Ready =>
      ReadyOf(s, 0, resolveNow, a);
      hide Safe, DeviceId, Follows;
      ResolvesFollows(s, ReadyFrom(s, 0, resolveNow), a, clock, r, s.edgeUp && id in resolveNow);
    case Shutdown =>
      GracefulKeeps(s, reachable, a);
      hide Safe, DeviceId, Follows;
      KeepsFollows(s, Graceful(s, reachable), a, clock, r);
  }

  /** A message about an id deletes its context or sets its flag. */
  lemma FlagFollows(s: System, other: string, delete: bool, flag: bool, a: Address, clock: nat, r: Life)
    requires Safe(s) && Follows(s, a, clock, r)
    ensures var k, id := FindId(s.devices, other), DeviceId(a, s.postfix);
            && (k == |s.devices| && other == id ==> Follows(s, a, clock, r.(registered := flag)))
            && (k < |s.devices| && delete ==> Follows(EdgeDelete(s, k), a, clock, r))
            && (k < |s.devices| ==>
                  Follows(Put(s, k, s.devices[k].(registered := flag)), a, clock,
                          if other == id then r.(registered := flag) else r))
  {
    var k, id := FindId(s.devices, other), DeviceId(a, s.postfix);
    if k < |s.devices| {
      DeleteKeeps(s, k, a);
      KeepsFollows(s, EdgeDelete(s, k), a, clock, r);
      PutOf(s, k, s.devices[k].(registered := flag), a);
    }
    hide Safe, DeviceId;
  }

  /** The event concerns no context. */
  predicate Quiet(e: Event) {
    || e.UnregisterDone? || e.RegisterDone? || e.PeerShutdown? || e.StartFailed? || e.EdgeReady? || e.EdgeLost?
    || e.TranslatorRegistered? || e.Tick?
  }

  /** Every step keeps context and history in agreement. */
  lemma StepFollows(s: System, e: Event, a: Address, clock: nat, r: Life)
    requires Safe(s) && Enabled(s, e) && Follows(s, a, clock, r)
    ensures Follows(Step(s, e), a, ClockAfter(clock, [e]), Note(s, e, a, clock, r))
  {
    assert [e][1..] == [];
    if e.ConnectDone? {
      var t := s.(pending := s.pending.(connects := s.pending.connects - multiset{e.address}));
      SameList(s, t, a);
      hide OnConnectDone, DeviceId, Of;
      ConnectDoneFollows(t, e.address, e.ok, e.created, e.servicesResolved, e.accepted, a, clock, r);
    } else if e.Disconnected? {
      hide Safe, OnDisconnected, DeviceId, Of, Follows;
      DisconnectedFollows(s, e.address, e.accepted, a, clock, r);
    } else if e.Dispatch? {
      var t := s.(idle := s.idle[1..]);
      SameList(s, t, a);
      hide OnMessage, DeviceId, Of;
      MessageFollows(t, s.idle[0], e.resolveNow, e.reachable, a, clock, r);
    } else if Quiet(e) {
      QuietFollows(s, e, a, clock, r);
    } else {
      PlainFollows(s, e, a, clock, r);
    }
  }

  lemma QuietFollows(s: System, e: Event, a: Address, clock: nat, r: Life)
    requires Enabled(s, e) && Follows(s, a, clock, r) && Quiet(e)
    ensures Follows(Step(s, e), a, ClockAfter(clock, [e]), Note(s, e, a, clock, r))
  {
    assert [e][1..] == [];
    SameList(s, Step(s, e), a);
    hide Of, Ids;
  }

  lemma PlainFollows(s: System, e: Event, a: Address, clock: nat, r: Life)
    requires Safe(s) && Enabled(s, e) && Follows(s, a, clock, r)
    requires !e.ConnectDone? && !e.Disconnected? && !e.Dispatch? && !Quiet(e)
    ensures Follows(Step(s, e), a, ClockAfter(clock, [e]), Note(s, e, a, clock, r))
  {
    assert [e][1..] == [];
    if e.NewDevice? || e.Connected? || e.ServicesResolved? {
      KnownFollows(s, e, a, clock, r);
    } else if e.TimerFires? {
      TimerFollows(s, e.source, a, clock, r);
    } else if e.Signal? {
      GracefulKeeps(s, e.reachable, a);
      KeepsFollows(s, Graceful(s, e.reachable), a, clock, r);
    } else {
      GoingFollows(s, e, a, clock, r);
    }
    hide Safe, Of, Graceful, OnTimer, OnRemoveDone, OnObjectRemoved;
  }

  lemma KnownFollows(s: System, e: Event, a: Address, clock: nat, r: Life)
    requires Safe(s) && Enabled(s, e) && Follows(s, a, clock, r)
    requires e.NewDevice? || e.Connected? || e.ServicesResolved?
    ensures Follows(Step(s, e), a, clock, Note(s, e, a, clock, r))
  {
    hide Track, Resolve, DeviceId;
    if e.NewDevice? {
      TrackFollows(s, e.address, e.path, a, clock, r);
      if s.running { SameList(Track(s, e.address, e.path), Connect(Track(s, e.address, e.path), e.address), a); }
    } else if e.Connected? {
      var k := FindAddress(s, e.address);
      if k < |s.devices| {
        PutFollows(s, k, s.devices[k].(connected := true), e.address, a, clock, r, if a == e.address then r.(connected := true) else r);
      }
    } else {
      ResolveOf(s, e.address, a);
      ResolvesFollows(s, Resolve(s, e.address), a, clock, r, s.edgeUp && e.address == a);
    }
  }

  lemma GoingFollows(s: System, e: Event, a: Address, clock: nat, r: Life)
    requires Safe(s) && Enabled(s, e) && Follows(s, a, clock, r) && (e.RemoveDone? || e.ObjectRemoved?)
    ensures Follows(Step(s, e), a, clock, r)
  {
    hide Retire, DeviceId;
    if e.RemoveDone? {
      var t := s.(pending := s.pending.(removals := s.pending.removals - multiset{e.id}));
      SameList(s, t, a);
      var k := FindId(t.devices, e.id);
      if k < |t.devices| { RetireKeeps(t, k, e.accepted, a); KeepsFollows(t, Retire(t, k, e.accepted), a, clock, r); }
    } else {
      var k := FindPath(s.devices, e.path);
      if k < |s.devices| { RetireKeeps(s, k, e.accepted, a); KeepsFollows(s, Retire(s, k, e.accepted), a, clock, r); }
    }
  }

  lemma TimerFollows(s: System, source: nat, a: Address, clock: nat, r: Life)
    requires Safe(s) && source in s.timers && Follows(s, a, clock, r)
    ensures Follows(OnTimer(s, source), a, clock, r)
  {
    var k := FindPtr(s.devices, s.timers[source]);
    var t := s.(timers := s.timers - {source});
    SameList(s, t, a);
    if k < |s.devices| {
      var u := Connect(t, s.devices[k].address);
      SameList(t, u, a);
      PutKeeps(u, k, s.devices[k].(timer := 0), a);
      hide Safe, Of;
    }
  }

  // ---------- Whole runs ----------

  lemma ClockStep(clock: nat, es: seq<Event>)
    ensures ClockAfter(clock, es) == if es == [] then clock else ClockAfter(ClockAfter(clock, [es[0]]), es[1..])
  {
    if es != [] { assert [es[0]][1..] == []; }
  }

  lemma {:induction false} RunFollows(s: System, es: seq<Event>, a: Address, clock: nat, r: Life)
    requires Safe(s) && Legal(s, es) && Follows(s, a, clock, r)
    ensures Follows(Run(s, es), a, ClockAfter(clock, es), LifeAfter(s, es, a, clock, r))
    decreases |es|
  {
    hide Safe, Step, Enabled, Follows, Note, ClockAfter;
    ClockStep(clock, es);
    if es != [] {
      StepFollows(s, es[0], a, clock, r);
      StepSafe(s, es[0]);
      RunFollows(Step(s, es[0]), es[1..], a, ClockAfter(clock, [es[0]]), Note(s, es[0], a, clock, r));
    }
  }

  const NEW := Life(0, 0, false, false, false, false)

  /**
   * In every reachable state a listed context holds exactly what the events of its address say: the clock of its last
   * successful connect or of its discovery, the failures since as a saturated count, and its flags.
   */
  lemma ContextIsHistory(postfix: string, now: nat, es: seq<Event>, a: Address)
    requires Legal(Initial(postfix, now), es)
    ensures var s, life := Run(Initial(postfix, now), es), LifeAfter(Initial(postfix, now), es, a, now, NEW);
            && s.now == ClockAfter(now, es)
            && forall i :: 0 <= i < |s.devices| && s.devices[i].address == a ==>
                 var d := s.devices[i];
                 && d.lastConnected == life.since && d.retries == Min(life.failures, 10000)
                 && d.connected == life.connected && d.registered == life.registered && d.resolved == life.resolved
  {
    RunFollows(Initial(postfix, now), es, a, now, NEW);
    RunSafe(Initial(postfix, now), es);
    var s := Run(Initial(postfix, now), es);
    hide Run, LifeAfter, Legal;
    forall i | 0 <= i < |s.devices| && s.devices[i].address == a ensures Of(s, a) == Some(s.devices[i]) {
      NamedAt(s, i, a);
    }
    hide Safe;
  }

  // ---------- Giving up ----------

  /** Seconds since the last success, as the code computes them. */
  function Elapsed(clock: nat, r: Life): nat { (clock - r.since) % 0x1_0000_0000_0000_0000 }

  predicate FiveFailures(clock: nat, r: Life) { r.failures + 1 >= 5 && Elapsed(clock, r) >= 300 }

  predicate ADay(clock: nat, r: Life) { Elapsed(clock, r) >= 86400 }

  /** Milliseconds before the retry after the n-th failure. */
  function Delay(n: nat): nat {
    if n <= 1 then 4000 else if n == 2 then 12000 else if n == 3 then 36000 else if n == 4 then 108000 else 324000
  }

  lemma DelayByHistory(d: Device, a: Address, r: Life)
    requires Agrees(d, a, r)
    ensures BackOffMs(CountAttempt(d).retries) == Delay(r.failures + 1)
  {
    Pow3Small();
  }

  lemma LimitsByHistory(d: Device, a: Address, clock: nat, r: Life)
    requires Agrees(d, a, r)
    ensures TooMany(d, clock) <==> FiveFailures(clock, r)
    ensures TooLong(d, clock) <==> ADay(clock, r)
  {
    BackOffBounds(CountAttempt(d).retries, CountAttempt(d).retries);
  }

  /**
   * What a failure of a listed device that is not waiting leads to: Edge is asked to unregister it exactly after five
   * failures since its last success and 300 seconds, and to delete its context exactly after a day; when Edge does not
   * take that, the context goes; and in every other case the next retry is armed, with a delay that triples up to the
   * fifth failure.
   */
  predicate FailsExactly(s: System, t: System, accepted: bool, a: Address, clock: nat, r: Life) {
    && t.pending.unregisters == s.pending.unregisters +
         (if FiveFailures(clock, r) && accepted then multiset{(DeviceId(a, s.postfix), ADay(clock, r))} else multiset{})
    && (Of(t, a) == None <==> !accepted && FiveFailures(clock, r) && ADay(clock, r))
    && (Of(t, a) != None ==> (Of(t, a).value.timer != 0 <==> !(FiveFailures(clock, r) && ADay(clock, r))))
    && (Waiting(t, a) ==> Of(t, a).value.wait == Delay(r.failures + 1))
  }

  lemma FailureStep(s: System, e: Event, a: Address, clock: nat, r: Life)
    requires Safe(s) && Enabled(s, e) && Follows(s, a, clock, r)
    requires Fails(e, a) && Of(s, a) != None && !Waiting(s, a)
    ensures FailsExactly(s, Step(s, e), e.accepted, a, clock, r)
  {
    var u := BeforeReconnect(s, e, a);
    var k := FindAddress(u, a);
    var r' := if e.Disconnected? then r.(connected := false) else r;
    assert u.nextSource > 0 && u.devices[k].timer == 0 && u.now == clock && Agrees(u.devices[k], a, r');
    hide Safe, Enabled, Reconnect, Follows, DeviceId, Step, FiveFailures, ADay, Agrees, Named, Of, FindAddress;
    SameLimits(clock, r);
    ReconnectExactly(u, k, e.accepted, a, clock, r');
  }

  lemma ReconnectExactly(s: System, k: nat, accepted: bool, a: Address, clock: nat, r: Life)
    requires Named(s.devices, s.postfix) && FindAddress(s, a) == k < |s.devices| && s.nextSource > 0 && s.now == clock
    requires s.devices[k].timer == 0 && Agrees(s.devices[k], a, r) && s.devices[k].id == DeviceId(a, s.postfix)
    ensures FailsExactly(s, Reconnect(s, k, accepted), accepted, a, clock, r)
  {
    LimitsByHistory(s.devices[k], a, clock, r);
    DelayByHistory(s.devices[k], a, r);
    hide Reconnect, DeviceId, BackOffMs, TooMany, TooLong, FiveFailures, ADay, Agrees, Named, Of, FindAddress;
    ReconnectOf(s, k, accepted, a);
    ReconnectAsks(s, k, accepted);
  }

  lemma SameLimits(clock: nat, r: Life)
    ensures FiveFailures(clock, r.(connected := false)) == FiveFailures(clock, r)
    ensures ADay(clock, r.(connected := false)) == ADay(clock, r)
  {
  }

  /** A failure of a device that is waiting for its retry, or is not listed, has no effect of its own. */
  lemma FailureIgnored(s: System, e: Event, a: Address)
    requires Safe(s) && Enabled(s, e) && Fails(e, a) && (Of(s, a) == None || Waiting(s, a))
    ensures var t := Step(s, e);
            t.pending.unregisters == s.pending.unregisters && (Of(t, a) == None <==> Of(s, a) == None) && |t.devices| == |s.devices|
  {
    if Of(s, a) != None {
      var u := BeforeReconnect(s, e, a);
    }
  }

  /** The state in which the reconnection path is taken. */
  lemma BeforeReconnect(s: System, e: Event, a: Address) returns (u: System)
    requires Safe(s) && Enabled(s, e) && Fails(e, a) && Of(s, a) != None
    ensures FindAddress(u, a) == FindAddress(s, a) < |s.devices| == |u.devices| && Named(u.devices, u.postfix)
    ensures u.devices[FindAddress(u, a)] ==
              (if e.Disconnected? then s.devices[FindAddress(s, a)].(connected := false) else s.devices[FindAddress(s, a)])
    ensures u.devices[FindAddress(u, a)].id == DeviceId(a, s.postfix)
    ensures u.now == s.now && u.postfix == s.postfix && u.nextSource == s.nextSource && u.idle == s.idle
    ensures u.pending == if e.Disconnected? then s.pending else s.pending.(connects := s.pending.connects - multiset{a})
    ensures u.unregistering == s.unregistering
    ensures Step(s, e) == Reconnect(u, FindAddress(u, a), e.accepted)
    ensures u == if e.Disconnected? then Put(s, FindAddress(s, a), s.devices[FindAddress(s, a)].(connected := false))
                 else s.(pending := s.pending.(connects := s.pending.connects - multiset{a}))
  {
    var k := FindAddress(s, a);
    SameAddresses(s, a, a);
    hide Reconnect, DeviceId, Linked, Allocated, AllCounted, AllJustified;
    if e.Disconnected? {
      var d := s.devices[k].(connected := false);
      u := Put(s, k, d);
      PutNamedOnly(s.devices, s.postfix, k, d);
      PutOf(s, k, d, a);
    } else {
      u := s.(pending := s.pending.(connects := s.pending.connects - multiset{a}));
      SamePlace(s, u, a);
    }
  }

  /** On every run a failure has exactly the outcome that the events so far say. */
  lemma GiveUpsJustified(postfix: string, now: nat, es: seq<Event>, e: Event, a: Address)
    requires Legal(Initial(postfix, now), es) && Enabled(Run(Initial(postfix, now), es), e)
    requires Fails(e, a) && Of(Run(Initial(postfix, now), es), a) != None && !Waiting(Run(Initial(postfix, now), es), a)
    ensures var s := Run(Initial(postfix, now), es);
            FailsExactly(s, Step(s, e), e.accepted, a, ClockAfter(now, es), LifeAfter(Initial(postfix, now), es, a, now, NEW))
  {
    RunFollows(Initial(postfix, now), es, a, now, NEW);
    RunSafe(Initial(postfix, now), es);
    var s := Run(Initial(postfix, now), es);
    hide Run, LifeAfter, Legal, Safe, Step, Follows, Enabled, FailsExactly, Fails, Of, Waiting;
    FailureStep(s, e, a, ClockAfter(now, es), LifeAfter(Initial(postfix, now), es, a, now, NEW));
  }

  /** The failure events of an address. */
  function FailureEvents(es: seq<Event>, a: Address): nat
    decreases |es|
  {
    if es == [] then 0 else (if Fails(es[0], a) then 1 else 0) + FailureEvents(es[1..], a)
  }

  lemma {:induction false} FailuresBounded(s: System, es: seq<Event>, a: Address, clock: nat, r: Life)
    requires Legal(s, es)
    ensures LifeAfter(s, es, a, clock, r).failures <= r.failures + FailureEvents(es, a)
    decreases |es|
  {
    if es != [] {
      NoteBounded(s, es[0], a, clock, r);
      hide Note, Step, Enabled, Fails;
      FailuresBounded(Step(s, es[0]), es[1..], a, ClockAfter(clock, [es[0]]), Note(s, es[0], a, clock, r));
    }
  }

  lemma NoteBounded(s: System, e: Event, a: Address, clock: nat, r: Life)
    requires Enabled(s, e)
    ensures Note(s, e, a, clock, r).failures <= r.failures + if Fails(e, a) then 1 else 0
  {
    hide Of, DeviceId;
  }

  /** After a successful connect no failure gives the device up, or drops it, before the fifth since then. */
  lemma FiveFailuresBetween(postfix: string, now: nat, es: seq<Event>, success: Event, later: seq<Event>, e: Event, a: Address)
    requires Legal(Initial(postfix, now), es) && success.ConnectDone? && success.address == a && success.ok
    requires Enabled(Run(Initial(postfix, now), es), success)
    requires Legal(Step(Run(Initial(postfix, now), es), success), later)
    requires Enabled(Run(Step(Run(Initial(postfix, now), es), success), later), e) && Fails(e, a)
    requires FailureEvents(later, a) + 1 < 5
    ensures var s := Run(Step(Run(Initial(postfix, now), es), success), later);
            var t := Step(s, e);
            t.pending.unregisters == s.pending.unregisters && (Of(t, a) == None <==> Of(s, a) == None)
  {
    var s0 := Run(Initial(postfix, now), es);
    var s1 := Step(s0, success);
    var clock, life := ClockAfter(now, es), LifeAfter(Initial(postfix, now), es, a, now, NEW);
    RunFollows(Initial(postfix, now), es, a, now, NEW);
    RunSafe(Initial(postfix, now), es);
    StepFollows(s0, success, a, clock, life);
    StepSafe(s0, success);
    var up, clock1 := Note(s0, success, a, clock, life), ClockAfter(clock, [success]);
    assert up.failures == 0;
    hide Run, LifeAfter, Legal, Safe, Step, Follows, Enabled, Note, Fails, Of, Waiting;
    RunFollows(s1, later, a, clock1, up);
    RunSafe(s1, later);
    FailuresBounded(s1, later, a, clock1, up);
    NoGiveUp(Run(s1, later), e, a, ClockAfter(clock1, later), LifeAfter(s1, later, a, clock1, up));
  }

  lemma NoGiveUp(s: System, e: Event, a: Address, clock: nat, r: Life)
    requires Safe(s) && Enabled(s, e) && Follows(s, a, clock, r) && Fails(e, a) && r.failures + 1 < 5
    ensures var t := Step(s, e);
            t.pending.unregisters == s.pending.unregisters && (Of(t, a) == None <==> Of(s, a) == None)
  {
    hide Safe, Step, Follows, Enabled, Fails, Of;
    if Of(s, a) == None || Waiting(s, a) {
      FailureIgnored(s, e, a);
    } else {
      FailureStep(s, e, a, clock, r);
    }
  }

  // ---------- Nobody is forgotten ----------

  /** Something is under way for the device, or it last connected: a connect, a retry, or its removal. */
  predicate Attended(s: System, a: Address, r: Life) {
    !s.unregistering && Of(s, a) != None ==>
      || a in s.pending.connects
      || Of(s, a).value.timer != 0
      || r.up
      || (DeviceId(a, s.postfix), true) in s.pending.unregisters
      || Unregistered(DeviceId(a, s.postfix), true) in s.idle
  }

  /** What attends to the device stays. */
  predicate Grows(s: System, t: System, a: Address) {
    var id := DeviceId(a, s.postfix);
    && t.postfix == s.postfix && (s.unregistering ==> t.unregistering)
    && (a in s.pending.connects ==> a in t.pending.connects)
    && ((id, true) in s.pending.unregisters ==> (id, true) in t.pending.unregisters)
    && (Unregistered(id, true) in s.idle ==> Unregistered(id, true) in t.idle)
    && (Of(t, a) != None ==> Of(s, a) != None && (Of(s, a).value.timer != 0 ==> Of(t, a).value.timer != 0))
  }

  lemma GrowsAttended(s: System, t: System, a: Address, r: Life, r': Life)
    requires Attended(s, a, r) && Grows(s, t, a) && (r.up ==> r'.up)
    ensures Attended(t, a, r')
  {
    hide Of, DeviceId;
  }

  lemma ResolveFrame(s: System, address: Address)
    ensures var t := Resolve(s, address);
            && t.pending.connects == s.pending.connects && t.pending.unregisters == s.pending.unregisters
            && t.idle == s.idle && t.unregistering == s.unregistering && t.postfix == s.postfix
  {
    hide FindAddress, RequestRegister, Discover;
    var k := FindAddress(s, address);
    if s.edgeUp && k < |s.devices| {
      DiscoverFrame(s, k);
      RegisterFrame(s, s.devices[k]);
      RegisterFrame(Discover(s, k), s.devices[k]);
    }
  }

  lemma DiscoverFrame(s: System, k: nat)
    requires k < |s.devices|
    ensures var t := Discover(s, k);
            t.pending == s.pending && t.idle == s.idle && t.unregistering == s.unregistering && t.postfix == s.postfix
  {
  }

  lemma RegisterFrame(s: System, d: Device)
    ensures var t := RequestRegister(s, d);
            && t.pending.connects == s.pending.connects && t.pending.unregisters == s.pending.unregisters
            && t.idle == s.idle && t.unregistering == s.unregistering && t.postfix == s.postfix
  {
  }

  lemma {:induction false} ReadyFrame(s: System, k: nat, resolveNow: set<string>)
    requires k <= |s.devices|
    ensures var t := ReadyFrom(s, k, resolveNow);
            && t.pending.connects == s.pending.connects && t.pending.unregisters == s.pending.unregisters
            && t.idle == s.idle && t.unregistering == s.unregistering && t.postfix == s.postfix
    decreases |s.devices| - k
  {
    if k < |s.devices| {
      ResolveFrame(s, s.devices[k].address);
      SamePositions(s, s.devices[k].address, s.devices[k].address);
      hide Resolve;
      if s.edgeUp && s.devices[k].id in resolveNow {
        ReadyFrame(Resolve(s, s.devices[k].address), k + 1, resolveNow);
      } else {
        ReadyFrame(s, k + 1, resolveNow);
      }
    }
  }

  lemma FailureAttended(s: System, e: Event, b: Address, a: Address, clock: nat, r: Life)
    requires Safe(s) && Enabled(s, e) && Fails(e, b) && Attended(s, a, r)
    ensures Attended(Step(s, e), a, Note(s, e, a, clock, r))
  {
    var t := Step(s, e);
    SameAddresses(s, b, a);
    if Of(s, b) == None {
      SameList(s, t, a);
      assert a != b ==> Grows(s, t, a);
      if a != b { GrowsAttended(s, t, a, r, Note(s, e, a, clock, r)); }
    } else {
      var u := BeforeReconnect(s, e, b);
      var k := FindAddress(u, b);
      OfBefore(s, u, e, b, a);
      if a == b {
        OwnFailureAttended(u, k, e.accepted, a);
        hide Safe, Enabled, Step, Reconnect, FindAddress, DeviceId;
        AttendedAnyhow(t, a, Note(s, e, a, clock, r));
      } else {
        OtherFailureGrows(u, k, e.accepted, a);
        hide Safe, Enabled, Step, Reconnect, FindAddress, DeviceId;
        GrowsAttended(u, t, a, r, Note(s, e, a, clock, r));
      }
    }
  }

  /** The state before the reconnection differs for other addresses by at most the completed request. */
  lemma OfBefore(s: System, u: System, e: Event, b: Address, a: Address)
    requires Safe(s) && Enabled(s, e) && Fails(e, b) && Of(s, b) != None && FindAddress(s, b) < |s.devices|
    requires u == if e.Disconnected? then Put(s, FindAddress(s, b), s.devices[FindAddress(s, b)].(connected := false))
                  else s.(pending := s.pending.(connects := s.pending.connects - multiset{b}))
    ensures a != b ==> Of(u, a) == Of(s, a) && FindAddress(u, a) != FindAddress(u, b)
    ensures a != b ==> forall r :: Attended(s, a, r) ==> Attended(u, a, r)
  {
    SameAddresses(s, b, a);
    hide Safe, DeviceId, Step, Enabled;
    if e.Disconnected? {
      var k := FindAddress(s, b);
      PutOf(s, k, s.devices[k].(connected := false), a);
      PutOf(s, k, s.devices[k].(connected := false), b);
    } else {
      SameList(s, u, a);
      SamePlace(s, u, a);
      SamePlace(s, u, b);
    }
  }

  /** After its own failure the device waits for a retry or is being removed. */
  predicate BeingRemoved(s: System, a: Address) {
    Of(s, a) == None || Of(s, a).value.timer != 0 || (DeviceId(a, s.postfix), true) in s.pending.unregisters
  }

  lemma AttendedAnyhow(s: System, a: Address, r: Life)
    requires BeingRemoved(s, a)
    ensures Attended(s, a, r)
  {
    hide Of, DeviceId;
  }

  lemma OwnFailureAttended(s: System, k: nat, accepted: bool, a: Address)
    requires Named(s.devices, s.postfix) && FindAddress(s, a) == k < |s.devices| && s.nextSource > 0
    requires s.devices[k].id == DeviceId(a, s.postfix)
    ensures BeingRemoved(Reconnect(s, k, accepted), a)
  {
    if s.devices[k].timer == 0 {
      hide Reconnect, DeviceId, FindAddress, TooMany, TooLong, Named;
      ReconnectOf(s, k, accepted, a);
      ReconnectAsks(s, k, accepted);
    }
  }

  lemma OtherFailureGrows(s: System, k: nat, accepted: bool, a: Address)
    requires Named(s.devices, s.postfix) && k < |s.devices| && FindAddress(s, a) != k
    ensures Grows(s, Reconnect(s, k, accepted), a)
  {
    var t := Reconnect(s, k, accepted);
    if s.devices[k].timer == 0 {
      hide Reconnect, DeviceId, FindAddress, TooMany, TooLong, Named;
      ReconnectOf(s, k, accepted, a);
      ReconnectAsks(s, k, accepted);
      assert forall m :: m in s.idle ==> m in t.idle;
    }
  }

  lemma SuccessAttended(s: System, e: Event, a: Address, clock: nat, r: Life)
    requires Safe(s) && Enabled(s, e) && e.ConnectDone? && e.ok && Attended(s, a, r)
    ensures Attended(Step(s, e), a, Note(s, e, a, clock, r))
  {
    if a != e.address {
      SuccessGrows(s, e, a);
      GrowsAttended(s, Step(s, e), a, r, Note(s, e, a, clock, r));
    }
  }

  lemma SuccessGrows(s: System, e: Event, a: Address)
    requires Safe(s) && Enabled(s, e) && e.ConnectDone? && e.ok && a != e.address
    ensures Grows(s, Step(s, e), a)
  {
    var b := e.address;
    var s' := s.(pending := s.pending.(connects := s.pending.connects - multiset{b}));
    SameList(s, s', a);
    SameAddresses(s', b, a);
    var k := FindAddress(s', b);
    hide FindAddress, Resolve, BypassDelete, DeviceId, Of;
    if k < |s'.devices| {
      var t := ResetRetries(s', k);
      ResetSafe(s', k);
      PutOf(s', k, t.devices[k], a);
      hide Safe;
      ConnectedGrows(s, t, k, b, a);
    }
  }

  lemma ConnectedGrows(s: System, t: System, k: nat, b: Address, a: Address)
    requires Safe(t) && k < |t.devices| && a != b && Of(t, a) == Of(s, a)
    requires t == s.(devices := t.devices, pending := t.pending)
    requires t.pending == s.pending.(connects := s.pending.connects - multiset{b})
    ensures Grows(s, t, a) && Grows(s, BypassDelete(t, k), a) && Grows(s, Resolve(t, b), a)
  {
    DeleteKeeps(t, k, a);
    BypassFrame(t, k);
    ResolveOf(t, b, a);
    ResolveFrame(t, b);
    hide Safe, FindAddress, Resolve, BypassDelete, DeviceId, Of;
  }

  lemma BypassFrame(s: System, k: nat)
    requires k < |s.devices|
    ensures var t := BypassDelete(s, k);
            t.pending == s.pending && t.idle == s.idle && t.unregistering == s.unregistering && t.postfix == s.postfix
  {
  }

  lemma MessageAttended(s: System, e: Event, a: Address, clock: nat, r: Life)
    requires Safe(s) && Enabled(s, e) && e.Dispatch? && Attended(s, a, r)
    ensures Attended(Step(s, e), a, Note(s, e, a, clock, r))
  {
    var m, id := s.idle[0], DeviceId(a, s.postfix);
    var u := s.(idle := s.idle[1..]);
    SameList(s, u, a);
    hide OnMessage;
    assert forall n :: n in s.idle && n != m ==> n in u.idle;
    if m == Unregistered(id, true) {
      DeletesOwn(u, id, e.resolveNow, e.reachable, a);
    } else {
      assert Grows(s, u, a);
      MessageGrows(u, m, e.resolveNow, e.reachable, a);
      hide Safe, Of, DeviceId;
      GrowsTwice(s, u, Step(s, e), a);
      NotedUp(m, e.resolveNow, s.edgeUp, id, r);
      if Step(s, e).unregistering { } else { GrowsAttended(s, Step(s, e), a, r, Note(s, e, a, clock, r)); }
    }
  }

  lemma NotedUp(m: Message, resolveNow: set<string>, edgeUp: bool, id: string, r: Life)
    ensures Noted(m, resolveNow, edgeUp, id, r).up == r.up
  {
  }

  lemma GrowsTwice(s: System, t: System, u: System, a: Address)
    requires Grows(s, t, a) && (Grows(t, u, a) || u.unregistering)
    ensures Grows(s, u, a) || u.unregistering
  {
    hide Of, DeviceId;
  }

  lemma DeletesOwn(s: System, id: string, resolveNow: set<string>, reachable: set<string>, a: Address)
    requires Safe(s) && id == DeviceId(a, s.postfix)
    ensures Of(OnMessage(s, Unregistered(id, true), resolveNow, reachable), a) == None
  {
    var k := FindAddress(s, a);
    if k < |s.devices| { DeleteKeeps(s, k, a); }
    hide Safe, DeviceId;
  }

  lemma MessageGrows(s: System, m: Message, resolveNow: set<string>, reachable: set<string>, a: Address)
    requires Safe(s)
    ensures var t := OnMessage(s, m, resolveNow, reachable); Grows(s, t, a) || t.unregistering
  {
    if m.Shutdown? {
      GracefulEnds(s, reachable);
    } else if m.Ready? {
      ReadyOf(s, 0, resolveNow, a);
      ReadyFrame(s, 0, resolveNow);
      hide Safe, DeviceId, ReadyFrom, FindAddress;
    } else if m.Quit? {
      SameList(s, OnMessage(s, m, resolveNow, reachable), a);
    } else {
      FlagGrows(s, m.id, a);
      hide Grows;
      SelfGrows(s, a);
    }
  }

  lemma SelfGrows(s: System, a: Address)
    ensures Grows(s, s, a)
  {
  }

  lemma FlagGrows(s: System, id: string, a: Address)
    requires Safe(s)
    ensures var k := FindId(s.devices, id);
            k < |s.devices| ==>
              && Grows(s, EdgeDelete(s, k), a)
              && forall flag :: Grows(s, Put(s, k, s.devices[k].(registered := flag)), a)
  {
    var k := FindId(s.devices, id);
    if k < |s.devices| {
      DeleteKeeps(s, k, a);
      forall flag ensures Grows(s, Put(s, k, s.devices[k].(registered := flag)), a) {
        PutOf(s, k, s.devices[k].(registered := flag), a);
        hide Safe, DeviceId, FindAddress;
      }
      hide Safe, DeviceId, FindAddress;
    }
  }

  lemma GracefulEnds(s: System, reachable: set<string>)
    ensures Graceful(s, reachable).unregistering
  {
    var t := if s.running then s.(running := false) else s.(idle := s.idle + [Quit], history := s.history.(early := true));
    if !t.unregistering && |t.devices| > 0 { RemoveFromUnregistering(t.(unregistering := true), 0, reachable); }
  }

  lemma {:induction false} RemoveFromUnregistering(s: System, k: nat, reachable: set<string>)
    requires k <= |s.devices|
    ensures RemoveFrom(s, k, reachable).unregistering == s.unregistering
    decreases |s.devices| - k
  {
    if k < |s.devices| { RemoveFromUnregistering(RemoveAt(s, k, reachable), k + 1, reachable); }
  }

  /** A timer that fires issues the connect of its own device. */
  lemma TimerAttended(s: System, source: nat, a: Address)
    requires Safe(s) && source in s.timers
    ensures var t := OnTimer(s, source);
            && t.unregistering == s.unregistering && t.idle == s.idle && t.postfix == s.postfix
            && t.pending.unregisters == s.pending.unregisters
            && (a in s.pending.connects ==> a in t.pending.connects)
            && (Of(t, a) == None <==> Of(s, a) == None)
            && (Of(t, a) != None && Of(s, a).value.timer == source ==> a in t.pending.connects && Of(t, a).value.timer == 0)
            && (Of(t, a) != None && Of(s, a).value.timer != source ==> Of(t, a).value.timer == Of(s, a).value.timer)
  {
    OnTimerSafe(s, source);
    var k := FindPtr(s.devices, s.timers[source]);
    var u := Connect(s.(timers := s.timers - {source}), s.devices[k].address);
    SameList(s, u, a);
    SamePlace(s, u, a);
    PutOf(u, k, s.devices[k].(timer := 0), a);
    NamedAt(s, k, a);
    var at := FindAddress(s, a);
    if at < |s.devices| && s.devices[at].timer == source {
      assert Holds(s.devices[at], s.timers, source) && Holds(s.devices[k], s.timers, source);
      assert at == k;
    }
    hide Safe, DeviceId, FindAddress;
  }

  lemma PlainAttended(s: System, e: Event, a: Address, clock: nat, r: Life)
    requires Safe(s) && Enabled(s, e) && Attended(s, a, r)
    requires !e.ConnectDone? && !e.Disconnected? && !e.Dispatch? && !Quiet(e)
    ensures Attended(Step(s, e), a, Note(s, e, a, clock, r))
  {
    var t := Step(s, e);
    if e.NewDevice? {
      NewAttended(s, e.address, e.path, a, clock, r);
    } else if e.TimerFires? {
      TimerAttended(s, e.source, a);
      hide Safe, Of, OnTimer, DeviceId;
    } else if e.Signal? {
      GracefulEnds(s, e.reachable);
      hide Graceful;
    } else if e.Connected? || e.ServicesResolved? {
      KnownGrows(s, e, a);
      GrowsAttended(s, t, a, r, Note(s, e, a, clock, r));
    } else {
      GoingGrows(s, e, a);
      GrowsAttended(s, t, a, r, r);
    }
  }

  lemma NewAttended(s: System, b: Address, path: string, a: Address, clock: nat, r: Life)
    requires Safe(s) && Attended(s, a, r)
    ensures Attended(if s.running then Connect(Track(s, b, path), b) else s, a,
                     if b == a && Of(s, a) == None then Life(clock, 0, false, false, false, false) else r)
  {
    if s.running {
      var t := Connect(Track(s, b, path), b);
      TrackOf(s, b, path, a);
      SameList(Track(s, b, path), t, a);
      hide Safe, DeviceId, FindAddress;
    } else if Of(s, a) == None {
    }
  }

  lemma TrackOf(s: System, b: Address, path: string, a: Address)
    requires Safe(s)
    ensures a != b || Of(s, a) != None ==> Of(Track(s, b, path), a) == Of(s, a)
  {
    var t := Track(s, b, path);
    TrackSafe(s, b, path);
    if FindAddress(s, b) == |s.devices| {
      assert forall i :: 0 <= i < |s.devices| ==> t.devices[i] == s.devices[i];
      SameAddresses(t, b, a);
      hide Safe, DeviceId;
      var k := FindAddress(s, a);
      if k < |s.devices| {
        assert FindAddress(t, a) == k;
      } else if FindAddress(t, a) < |t.devices| {
        assert FindAddress(t, a) == |s.devices| == FindAddress(t, b);
      }
    }
  }

  lemma KnownGrows(s: System, e: Event, a: Address)
    requires Safe(s) && Enabled(s, e) && (e.Connected? || e.ServicesResolved?)
    ensures Grows(s, Step(s, e), a)
  {
    hide DeviceId, Resolve;
    if e.Connected? {
      var k := FindAddress(s, e.address);
      if k < |s.devices| { PutOf(s, k, s.devices[k].(connected := true), a); }
    } else {
      ResolveOf(s, e.address, a);
      ResolveFrame(s, e.address);
    }
    hide Safe, FindAddress;
  }

  lemma GoingGrows(s: System, e: Event, a: Address)
    requires Safe(s) && Enabled(s, e) && (e.RemoveDone? || e.ObjectRemoved?)
    ensures Grows(s, Step(s, e), a)
  {
    hide DeviceId, Retire, Of, Keeps;
    var u := if e.RemoveDone? then s.(pending := s.pending.(removals := s.pending.removals - multiset{e.id})) else s;
    SameList(s, u, a);
    var k := if e.RemoveDone? then FindId(u.devices, e.id) else FindPath(u.devices, e.path);
    if k < |u.devices| { RetireGrows(s, u, k, e.accepted, a); }
    hide Safe, FindAddress;
  }

  lemma RetireGrows(s: System, u: System, k: nat, accepted: bool, a: Address)
    requires Safe(s) && k < |u.devices| && u == s.(pending := u.pending) && u.pending == s.pending.(removals := u.pending.removals)
    requires Of(u, a) == Of(s, a)
    ensures Grows(s, Retire(u, k, accepted), a)
  {
    RetireKeeps(u, k, accepted, a);
    RetiredClock(u, k, accepted);
    hide Safe, FindAddress, DeviceId, Retire, Of, Keeps;
    assert forall m :: m in u.idle ==> m in Retire(u, k, accepted).idle;
  }

  lemma QuietGrows(s: System, e: Event, a: Address)
    requires Enabled(s, e) && Quiet(e) && !e.UnregisterDone?
    ensures Grows(s, Step(s, e), a)
  {
    SameList(s, Step(s, e), a);
    hide Of, Ids, DeviceId;
  }

  lemma StepAttended(s: System, e: Event, a: Address, clock: nat, r: Life)
    requires Safe(s) && Enabled(s, e) && Attended(s, a, r)
    ensures Attended(Step(s, e), a, Note(s, e, a, clock, r))
  {
    if (e.ConnectDone? && !e.ok) || e.Disconnected? {
      FailureAttended(s, e, e.address, a, clock, r);
    } else if e.ConnectDone? {
      SuccessAttended(s, e, a, clock, r);
    } else if e.Dispatch? {
      MessageAttended(s, e, a, clock, r);
    } else if e.UnregisterDone? {
      SameList(s, Step(s, e), a);
      hide Of, DeviceId;
    } else if Quiet(e) {
      QuietGrows(s, e, a);
      hide Safe, Of, DeviceId, Ids;
      GrowsAttended(s, Step(s, e), a, r, r);
    } else {
      PlainAttended(s, e, a, clock, r);
    }
    hide Attended, Safe;
  }

  lemma {:induction false} RunAttended(s: System, es: seq<Event>, a: Address, clock: nat, r: Life)
    requires Safe(s) && Legal(s, es) && Attended(s, a, r)
    ensures Attended(Run(s, es), a, LifeAfter(s, es, a, clock, r))
    decreases |es|
  {
    hide Safe, Step, Enabled, Attended, Note, ClockAfter;
    if es != [] {
      StepAttended(s, es[0], a, clock, r);
      StepSafe(s, es[0]);
      RunAttended(Step(s, es[0]), es[1..], a, ClockAfter(clock, [es[0]]), Note(s, es[0], a, clock, r));
    }
  }

  /**
   * Before shutdown no device is forgotten: while it is listed a connect is outstanding, or its retry timer is live, or
   * the last outcome was a success, or it is about to be deleted after giving up.
   */
  lemma NobodyForgotten(postfix: string, now: nat, es: seq<Event>, a: Address)
    requires Legal(Initial(postfix, now), es)
    requires !Run(Initial(postfix, now), es).unregistering && Of(Run(Initial(postfix, now), es), a) != None
    ensures var s, life := Run(Initial(postfix, now), es), LifeAfter(Initial(postfix, now), es, a, now, NEW);
            var d := Of(s, a).value;
            || a in s.pending.connects
            || (d.timer in s.timers && s.timers[d.timer] == d.ptr)
            || life.up
            || (d.id, true) in s.pending.unregisters
            || Unregistered(d.id, true) in s.idle
  {
    RunAttended(Initial(postfix, now), es, a, now, NEW);
    RunSafe(Initial(postfix, now), es);
    var s := Run(Initial(postfix, now), es);
    hide Run, LifeAfter, Legal;
    var d := Of(s, a).value;
    assert d.timer != 0 ==> Holds(d, s.timers, d.timer);
    hide DeviceId, Safe;
  }
}
