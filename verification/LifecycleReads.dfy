/**
 * Which steps remove a device context, and what that means for a characteristic read in flight: its callback looks
 * the device up by id and uses the result without a check.
 */
module LifecycleReads {
  import opened BackOff
  import opened DeviceIds
  import opened Lifecycle
  import opened LifecycleSafety

  ghost predicate Has(devices: seq<Device>, id: string) {
    exists i :: 0 <= i < |devices| && devices[i].id == id
  }

  ghost predicate Listed(s: System, id: string) { Has(s.devices, id) }

  /** The reconnection path gives the device up for good, and Edge does not take the request. */
  predicate DroppedOnRetry(s: System, k: nat, accepted: bool)
    requires k < |s.devices|
  {
    var d := s.devices[k];
    d.timer == 0 && !accepted && Overdue(CountAttempt(d), s.now) && Expired(d, s.now)
  }

  /** The event removes the context of this device. */
  ghost predicate Removes(s: System, e: Event, id: string)
    requires Enabled(s, e)
  {
    match e
    case ConnectDone(address, ok, created, _, accepted) =>
      var k := FindAddress(s, address);
      k < |s.devices| && s.devices[k].id == id
      && (if ok then s.edgeUp && !created else DroppedOnRetry(s, k, accepted))
    case Disconnected(address, accepted) =>
      var k := FindAddress(s, address);
      k < |s.devices| && s.devices[k].id == id && DroppedOnRetry(s, k, accepted)
    case RemoveDone(removed, accepted) => removed == id && !accepted
    case ObjectRemoved(path, accepted) =>
      var k := FindPath(s.devices, path);
      k < |s.devices| && s.devices[k].id == id && !accepted
    case Dispatch(_, _) => s.idle[0] == Unregistered(id, true)
    case _ => false
  }

  predicate SameContext(d: Device, e: Device) { e.id == d.id && e.ptr == d.ptr && (d.resolved ==> e.resolved) }

  /** Every context stays where it is, under its id, with its services resolved if they were. */
  ghost predicate SameIds(s: System, t: System) {
    && |t.devices| == |s.devices| && t.nextPtr == s.nextPtr
    && forall i :: 0 <= i < |s.devices| ==> SameContext(s.devices[i], t.devices[i])
  }

  lemma SameIdsListed(s: System, t: System, id: string)
    requires SameIds(s, t)
    ensures Listed(s, id) <==> Listed(t, id)
  {
    if Listed(s, id) {
      var i :| 0 <= i < |s.devices| && s.devices[i].id == id;
      assert t.devices[i].id == id;
    }
    if Listed(t, id) {
      var i :| 0 <= i < |t.devices| && t.devices[i].id == id;
      assert s.devices[i].id == id;
    }
  }

  lemma WithoutHas(devices: seq<Device>, postfix: string, k: nat, id: string)
    requires Named(devices, postfix) && k < |devices|
    ensures Has(Without(devices, k), id) <==> Has(devices, id) && id != devices[k].id
  {
    hide DeviceId, Named;
    var r := Without(devices, k);
    if Has(r, id) {
      var i :| 0 <= i < |r| && r[i].id == id;
      var j := if i < k then i else i + 1;
      assert r[i] == devices[j];
      OthersDiffer(devices, postfix, j, k);
    }
    if Has(devices, id) && id != devices[k].id {
      var i :| 0 <= i < |devices| && devices[i].id == id;
      assert r[if i < k then i else i - 1] == devices[i];
    }
  }

  lemma OthersDiffer(devices: seq<Device>, postfix: string, j: nat, k: nat)
    requires Named(devices, postfix) && j < |devices| && k < |devices| && j != k
    ensures devices[j].id != devices[k].id
  {
    hide DeviceId;
    if j < k {} else {}
  }

  lemma DeleteListed(s: System, t: System, k: nat, id: string)
    requires Named(s.devices, s.postfix) && k < |s.devices| && t.devices == Without(s.devices, k)
    ensures Listed(t, id) <==> Listed(s, id) && id != s.devices[k].id
  {
    hide Has, Without;
    WithoutHas(s.devices, s.postfix, k, id);
  }

  lemma RetireListed(s: System, k: nat, accepted: bool, id: string)
    requires Named(s.devices, s.postfix) && k < |s.devices|
    ensures Listed(Retire(s, k, accepted), id) <==> Listed(s, id) && (accepted || id != s.devices[k].id)
  {
    if !accepted {
      DeleteListed(s, Retire(s, k, accepted), k, id);
    } else {
      SameIdsListed(s, Retire(s, k, accepted), id);
    }
  }

  lemma ReconnectListed(s: System, k: nat, accepted: bool, id: string)
    requires Named(s.devices, s.postfix) && k < |s.devices|
    ensures Listed(Reconnect(s, k, accepted), id) <==>
            Listed(s, id) && !(id == s.devices[k].id && DroppedOnRetry(s, k, accepted))
  {
    hide Overdue, Expired, Retire, BackOff.BackOffMs, Named, Has;
    ReconnectIs(s, k, accepted);
    if DroppedOnRetry(s, k, accepted) {
      var d := CountAttempt(s.devices[k]);
      var u := Log(Put(s, k, d), GiveUp(d.attempts, s.now - d.lastConnected, true));
      assert Named(u.devices, s.postfix) by { PutNamedOnly(s.devices, s.postfix, k, d); }
      SameIdsListed(s, u, id);
      RetireListed(u, k, accepted, id);
    } else {
      SameIdsListed(s, Reconnect(s, k, accepted), id);
    }
  }

  lemma PutNamedOnly(devices: seq<Device>, postfix: string, k: nat, d: Device)
    requires Named(devices, postfix) && k < |devices| && SameNames(d, devices[k])
    ensures Named(devices[k := d], postfix)
  {
    hide DeviceId;
    assert forall i :: 0 <= i < |devices| ==> SameNames(devices[k := d][i], devices[i]);
  }

  /** The reconnection path drops the device at once, or leaves every id in place. */
  lemma ReconnectIs(s: System, k: nat, accepted: bool)
    requires k < |s.devices|
    ensures var d := CountAttempt(s.devices[k]);
            DroppedOnRetry(s, k, accepted) ==>
              Reconnect(s, k, accepted) == Retire(Log(Put(s, k, d), GiveUp(d.attempts, s.now - d.lastConnected, true)), k, false)
    ensures !DroppedOnRetry(s, k, accepted) ==> SameIds(s, Reconnect(s, k, accepted))
  {
    hide Overdue, Expired, BackOff.BackOffMs, Arm, Retire;
    ExpiredSame(s.devices[k], s.now);
    var d := CountAttempt(s.devices[k]);
    var t := Put(s, k, d);
    var u := Log(t, GiveUp(d.attempts, s.now - d.lastConnected, Expired(d, s.now)));
    assert SameIds(s, t) && SameIds(s, u);
    ArmSame(t, k, BackOffMs(d.retries));
    ArmSame(if accepted then Unregister(u, d.id, false) else u, k, BackOffMs(d.retries));
    RetireFacts(u, k, true);
  }

  lemma ArmSame(s: System, k: nat, ms: nat)
    requires k < |s.devices|
    ensures SameIds(s, Arm(s, k, ms))
  {
  }

  lemma ExpiredSame(d: Device, now: nat)
    ensures Expired(CountAttempt(d), now) == Expired(d, now)
  {
  }

  lemma ResolveSame(s: System, address: Address)
    ensures SameIds(s, Resolve(s, address))
  {
    hide FindAddress;
  }

  lemma {:induction false} ReadySame(s: System, k: nat, resolveNow: set<string>)
    requires k <= |s.devices|
    ensures SameIds(s, ReadyFrom(s, k, resolveNow))
    decreases |s.devices| - k
  {
    hide Resolve;
    if k < |s.devices| {
      if s.edgeUp && s.devices[k].id in resolveNow {
        ResolveSame(s, s.devices[k].address);
        ReadySame(Resolve(s, s.devices[k].address), k + 1, resolveNow);
      } else {
        ReadySame(s, k + 1, resolveNow);
      }
    }
  }

  lemma {:induction false} RemoveFromSame(s: System, k: nat, reachable: set<string>)
    requires k <= |s.devices|
    ensures SameIds(s, RemoveFrom(s, k, reachable))
    decreases |s.devices| - k
  {
    if k < |s.devices| {
      assert SameIds(s, RemoveAt(s, k, reachable));
      hide RemoveAt;
      RemoveFromSame(RemoveAt(s, k, reachable), k + 1, reachable);
    }
  }

  lemma GracefulSame(s: System, reachable: set<string>)
    ensures SameIds(s, Graceful(s, reachable))
  {
    hide RemoveFrom;
    var t := if s.running then s.(running := false)
             else s.(idle := s.idle + [Quit], history := s.history.(early := true));
    RemoveFromSame(t.(unregistering := true), 0, reachable);
  }

  lemma FindsListed(devices: seq<Device>, id: string)
    ensures FindId(devices, id) < |devices| <==> Has(devices, id)
  {
  }

  lemma UnregisteredListed(s: System, other: string, delete: bool, resolveNow: set<string>, reachable: set<string>, id: string)
    requires Named(s.devices, s.postfix)
    ensures Listed(OnMessage(s, Unregistered(other, delete), resolveNow, reachable), id) <==>
            Listed(s, id) && !(delete && other == id)
  {
    hide Named, Has;
    var t := OnMessage(s, Unregistered(other, delete), resolveNow, reachable);
    var k := FindId(s.devices, other);
    FindsListed(s.devices, other);
    if k < |s.devices| && delete {
      DeleteListed(s, t, k, id);
    } else {
      SameIdsListed(s, t, id);
    }
  }

  lemma MessageListed(s: System, m: Message, resolveNow: set<string>, reachable: set<string>, id: string)
    requires Named(s.devices, s.postfix)
    ensures Listed(OnMessage(s, m, resolveNow, reachable), id) <==> Listed(s, id) && m != Unregistered(id, true)
  {
    hide ReadyFrom, Graceful, Named, Has;
    var t := OnMessage(s, m, resolveNow, reachable);
    match m
    case Quit => SameIdsListed(s, t, id);
    case Unregistered(other, delete) => UnregisteredListed(s, other, delete, resolveNow, reachable, id);
    case Registered(_) => SameIdsListed(s, t, id);
    case Ready =>
      ReadySame(s, 0, resolveNow);
      SameIdsListed(s, t, id);
    case Shutdown =>
      GracefulSame(s, reachable);
      SameIdsListed(s, t, id);
  }

  lemma ConnectDoneListed(s: System, address: Address, ok: bool, created: bool, servicesResolved: bool, accepted: bool, id: string)
    requires Named(s.devices, s.postfix)
    ensures var k := FindAddress(s, address);
            Listed(OnConnectDone(s, address, ok, created, servicesResolved, accepted), id) <==>
              Listed(s, id) && !(k < |s.devices| && s.devices[k].id == id
                                 && if ok then s.edgeUp && !created else DroppedOnRetry(s, k, accepted))
  {
    hide FindAddress, Reconnect, Resolve, DroppedOnRetry;
    var k := FindAddress(s, address);
    if k < |s.devices| {
      if !ok {
        ReconnectListed(s, k, accepted, id);
      } else {
        var t := ResetRetries(s, k);
        assert SameIds(s, t);
        SameIdsListed(s, t, id);
        if s.edgeUp && !created {
          DeleteListed(t, BypassDelete(t, k), k, id);
        } else if s.edgeUp && servicesResolved {
          ResolveSame(t, address);
          SameIdsListed(t, Resolve(t, address), id);
        }
      }
    }
  }

  lemma DisconnectedListed(s: System, address: Address, accepted: bool, id: string)
    requires Named(s.devices, s.postfix)
    ensures var k := FindAddress(s, address);
            Listed(OnDisconnected(s, address, accepted), id) <==>
              Listed(s, id) && !(k < |s.devices| && s.devices[k].id == id && DroppedOnRetry(s, k, accepted))
  {
    hide FindAddress, Reconnect;
    var k := FindAddress(s, address);
    if k < |s.devices| {
      var u := Put(s, k, s.devices[k].(connected := false));
      SameIdsListed(s, u, id);
      ReconnectListed(u, k, accepted, id);
    }
  }

  /** A listed device leaves the list exactly in the steps that remove it. */
  lemma RemovedExactly(s: System, e: Event, id: string)
    requires Safe(s) && Enabled(s, e) && Listed(s, id)
    ensures !Listed(Step(s, e), id) <==> Removes(s, e, id)
  {
    hide FindAddress, Reconnect, Resolve, Graceful, OnMessage, OnConnectDone, OnDisconnected, Ids, Retire, Allocated, Linked;
    hide AllCounted, AllJustified, DeviceId, OnTimer;
    var t := Step(s, e);
    if e.ConnectDone? {
      var u := s.(pending := s.pending.(connects := s.pending.connects - multiset{e.address}));
      SameAddress(s, u, e.address);
      SameIdsListed(s, u, id);
      ConnectDoneListed(u, e.address, e.ok, e.created, e.servicesResolved, e.accepted, id);
    } else if e.Disconnected? {
      DisconnectedListed(s, e.address, e.accepted, id);
    } else if e.RemoveDone? {
      var u := s.(pending := s.pending.(removals := s.pending.removals - multiset{e.id}));
      SameIdsListed(s, u, id);
      var k := FindId(u.devices, e.id);
      if k < |u.devices| { RetireListed(u, k, e.accepted, id); }
    } else if e.ObjectRemoved? {
      var k := FindPath(s.devices, e.path);
      if k < |s.devices| { RetireListed(s, k, e.accepted, id); }
    } else if e.Dispatch? {
      var u := s.(idle := s.idle[1..]);
      SameIdsListed(s, u, id);
      MessageListed(u, s.idle[0], e.resolveNow, e.reachable, id);
    } else {
      KeepsListed(s, e, id);
    }
  }

  lemma SameAddress(s: System, t: System, address: Address)
    requires s.devices == t.devices && s.postfix == t.postfix
    ensures FindAddress(s, address) == FindAddress(t, address)
  {
  }

  lemma KeepsListed(s: System, e: Event, id: string)
    requires Enabled(s, e) && Listed(s, id)
    requires !(e.ConnectDone? || e.Disconnected? || e.RemoveDone? || e.ObjectRemoved? || e.Dispatch?)
    ensures Listed(Step(s, e), id)
  {
    var t := Step(s, e);
    if e.NewDevice? {
      DiscoveryAdds(s, e);
      hide Step, Enabled;
      var i :| 0 <= i < |s.devices| && s.devices[i].id == id;
      if SameIds(s, t) { SameIdsListed(s, t, id); } else { assert t.devices[..|s.devices|][i].id == id; }
    } else {
      QuietSame(s, e);
      hide Step, Enabled;
      SameIdsListed(s, t, id);
    }
  }

  // ---------- Reads in flight ----------

  /** Some step of the run removes the device. */
  ghost predicate RemovedDuring(s: System, es: seq<Event>, id: string)
    requires Legal(s, es)
    decreases |es|
  {
    es != [] && (Removes(s, es[0], id) || RemovedDuring(Step(s, es[0]), es[1..], id))
  }

  /** The context p is listed under this id. */
  ghost predicate Holding(s: System, p: nat, id: string) {
    exists i :: 0 <= i < |s.devices| && s.devices[i].ptr == p && s.devices[i].id == id
  }

  ghost predicate Came(s: System, e: Device) {
    exists i :: 0 <= i < |s.devices| && SameContext(s.devices[i], e)
  }

  /** Every context of t was in s under the same id, and no number was given out. */
  ghost predicate Inherits(s: System, t: System) {
    t.nextPtr == s.nextPtr && forall i :: 0 <= i < |t.devices| ==> Came(s, t.devices[i])
  }

  lemma SameInherits(s: System, t: System)
    requires SameIds(s, t)
    ensures Inherits(s, t)
  {
    forall i | 0 <= i < |t.devices| ensures Came(s, t.devices[i]) {
      assert SameContext(s.devices[i], t.devices[i]);
    }
  }

  lemma WithoutInherits(s: System, t: System, k: nat)
    requires k < |s.devices| && t.devices == Without(s.devices, k) && t.nextPtr == s.nextPtr
    ensures Inherits(s, t)
  {
    forall i | 0 <= i < |t.devices| ensures Came(s, t.devices[i]) {
      assert SameContext(s.devices[if i < k then i else i + 1], t.devices[i]);
    }
  }

  lemma InheritsFromSame(s: System, t: System, u: System)
    requires SameIds(s, t) && Inherits(t, u)
    ensures Inherits(s, u)
  {
    forall i | 0 <= i < |u.devices| ensures Came(s, u.devices[i]) {
      assert Came(t, u.devices[i]);
      var j :| 0 <= j < |t.devices| && SameContext(t.devices[j], u.devices[i]);
      assert SameContext(s.devices[j], u.devices[i]);
    }
  }

  lemma RetireInherits(s: System, k: nat, accepted: bool)
    requires k < |s.devices|
    ensures Inherits(s, Retire(s, k, accepted))
  {
    hide Inherits;
    if accepted {
      SameInherits(s, Retire(s, k, accepted));
    } else {
      WithoutInherits(s, Retire(s, k, accepted), k);
    }
  }

  lemma ReconnectInherits(s: System, k: nat, accepted: bool)
    requires k < |s.devices|
    ensures Inherits(s, Reconnect(s, k, accepted))
  {
    hide Reconnect, Retire, Inherits;
    ReconnectIs(s, k, accepted);
    if DroppedOnRetry(s, k, accepted) {
      var d := CountAttempt(s.devices[k]);
      var u := Log(Put(s, k, d), GiveUp(d.attempts, s.now - d.lastConnected, true));
      RetireInherits(u, k, false);
      InheritsFromSame(s, u, Reconnect(s, k, accepted));
    } else {
      SameInherits(s, Reconnect(s, k, accepted));
    }
  }

  lemma UnregisteredInherits(s: System, id: string, delete: bool, resolveNow: set<string>, reachable: set<string>)
    ensures Inherits(s, OnMessage(s, Unregistered(id, delete), resolveNow, reachable))
  {
    hide Inherits;
    var t := OnMessage(s, Unregistered(id, delete), resolveNow, reachable);
    var k := FindId(s.devices, id);
    if k < |s.devices| && delete { WithoutInherits(s, t, k); } else { SameInherits(s, t); }
  }

  lemma MessageInherits(s: System, m: Message, resolveNow: set<string>, reachable: set<string>)
    ensures Inherits(s, OnMessage(s, m, resolveNow, reachable))
  {
    hide ReadyFrom, Graceful, Inherits;
    var t := OnMessage(s, m, resolveNow, reachable);
    match m
    case Quit => SameInherits(s, t);
    case Unregistered(id, delete) => UnregisteredInherits(s, id, delete, resolveNow, reachable);
    case Registered(_) => SameInherits(s, t);
    case Ready =>
      ReadySame(s, 0, resolveNow);
      SameInherits(s, t);
    case Shutdown =>
      GracefulSame(s, reachable);
      SameInherits(s, t);
  }

  lemma ConnectDoneInherits(s: System, address: Address, ok: bool, created: bool, servicesResolved: bool, accepted: bool)
    ensures Inherits(s, OnConnectDone(s, address, ok, created, servicesResolved, accepted))
  {
    hide FindAddress, Reconnect, Resolve, Inherits;
    var t := OnConnectDone(s, address, ok, created, servicesResolved, accepted);
    var k := FindAddress(s, address);
    if k == |s.devices| {
      SameInherits(s, t);
    } else if !ok {
      ReconnectInherits(s, k, accepted);
    } else {
      var u := ResetRetries(s, k);
      if s.edgeUp && !created {
        WithoutInherits(u, t, k);
        InheritsFromSame(s, u, t);
      } else {
        ResolveSame(u, address);
        SameInherits(s, t);
      }
    }
  }

  /** A step other than a discovery only keeps or drops contexts. */
  lemma StepInherits(s: System, e: Event)
    requires Enabled(s, e) && !e.NewDevice?
    ensures Inherits(s, Step(s, e))
  {
    hide FindAddress, Reconnect, Resolve, Graceful, OnMessage, OnConnectDone, Ids, Retire, Inherits;
    var t := Step(s, e);
    if e.ConnectDone? {
      var u := s.(pending := s.pending.(connects := s.pending.connects - multiset{e.address}));
      ConnectDoneInherits(u, e.address, e.ok, e.created, e.servicesResolved, e.accepted);
      InheritsFromSame(s, u, t);
    } else if e.Disconnected? {
      var k := FindAddress(s, e.address);
      if k < |s.devices| {
        var u := Put(s, k, s.devices[k].(connected := false));
        ReconnectInherits(u, k, e.accepted);
        InheritsFromSame(s, u, t);
      } else {
        SameInherits(s, t);
      }
    } else if e.RemoveDone? {
      var u := s.(pending := s.pending.(removals := s.pending.removals - multiset{e.id}));
      var k := FindId(u.devices, e.id);
      if k < |u.devices| { RetireInherits(u, k, e.accepted); } else { SameInherits(u, t); }
      InheritsFromSame(s, u, t);
    } else if e.ObjectRemoved? {
      var k := FindPath(s.devices, e.path);
      if k < |s.devices| { RetireInherits(s, k, e.accepted); } else { SameInherits(s, t); }
    } else if e.Dispatch? {
      var u := s.(idle := s.idle[1..]);
      MessageInherits(u, s.idle[0], e.resolveNow, e.reachable);
      InheritsFromSame(s, u, t);
    } else {
      QuietSame(s, e);
      SameInherits(s, t);
    }
  }

  lemma QuietSame(s: System, e: Event)
    requires Enabled(s, e) && !e.NewDevice?
    requires !(e.ConnectDone? || e.Disconnected? || e.RemoveDone? || e.ObjectRemoved? || e.Dispatch?)
    ensures SameIds(s, Step(s, e))
  {
    if e.ServicesResolved? {
      ResolveSame(s, e.address);
    } else if e.Signal? {
      GracefulSame(s, e.reachable);
    } else if e.Connected? || e.TimerFires? {
      FieldSame(s, e);
    } else {
      hide DeviceId, Ids, SameIds;
      SameDevices(s, Step(s, e));
    }
  }

  lemma FieldSame(s: System, e: Event)
    requires Enabled(s, e) && (e.Connected? || e.TimerFires?)
    ensures SameIds(s, Step(s, e))
  {
    hide FindAddress;
  }

  lemma SameDevices(s: System, t: System)
    requires t.devices == s.devices && t.nextPtr == s.nextPtr
    ensures SameIds(s, t)
  {
  }

  /** A discovery keeps the list, or adds a context of its own under an id that was not listed. */
  lemma DiscoveryAdds(s: System, e: Event)
    requires Enabled(s, e) && e.NewDevice?
    ensures var t := Step(s, e);
            || SameIds(s, t)
            || (t.nextPtr == s.nextPtr + 1 && |t.devices| == |s.devices| + 1 && t.devices[..|s.devices|] == s.devices
                && t.devices[|s.devices|].ptr == s.nextPtr && !Listed(s, t.devices[|s.devices|].id))
  {
    hide DeviceId;
  }

  lemma OneContextPerId(s: System, i: nat, j: nat)
    requires Safe(s) && i < |s.devices| && j < |s.devices|
    ensures s.devices[i].id == s.devices[j].id <==> s.devices[i].ptr == s.devices[j].ptr
  {
    hide Linked, AllCounted, AllJustified, DeviceId;
    if i < j {} else if j < i {} else {}
  }

  /** A listed context leaves the list exactly in the steps that remove its id. */
  lemma ContextRemovedExactly(s: System, e: Event, p: nat, id: string)
    requires Safe(s) && Enabled(s, e) && Holding(s, p, id)
    ensures Holding(Step(s, e), p, id) <==> !Removes(s, e, id)
  {
    assert Listed(s, id);
    RemovedExactly(s, e, id);
    hide Safe, Removes, Enabled;
    if Listed(Step(s, e), id) { SameContextListed(s, e, p, id); }
  }

  lemma SameContextListed(s: System, e: Event, p: nat, id: string)
    requires Safe(s) && Enabled(s, e) && Holding(s, p, id) && Listed(Step(s, e), id)
    ensures Holding(Step(s, e), p, id)
  {
    var t := Step(s, e);
    if e.NewDevice? { DiscoveryAdds(s, e); } else { StepInherits(s, e); }
    hide Safe, Step, Enabled;
    var j :| 0 <= j < |s.devices| && s.devices[j].ptr == p && s.devices[j].id == id;
    var i :| 0 <= i < |t.devices| && t.devices[i].id == id;
    if e.NewDevice? {
      if SameIds(s, t) { assert t.devices[j].ptr == p; } else { assert t.devices[..|s.devices|][j] == t.devices[j]; }
    } else {
      assert Came(s, t.devices[i]);
      var m :| 0 <= m < |s.devices| && s.devices[m].ptr == t.devices[i].ptr && s.devices[m].id == id;
      OneContextPerId(s, m, j);
    }
  }

  /** A number is never given out again: a context that is listed under a used number was listed before. */
  lemma HeldBefore(s: System, e: Event, p: nat, id: string)
    requires Enabled(s, e) && p < s.nextPtr
    ensures Holding(Step(s, e), p, id) ==> Holding(s, p, id)
    ensures Step(s, e).nextPtr >= s.nextPtr
  {
    var t := Step(s, e);
    if e.NewDevice? { DiscoveryAdds(s, e); } else { StepInherits(s, e); }
    hide Step, Enabled;
    if Holding(t, p, id) {
      var i :| 0 <= i < |t.devices| && t.devices[i].ptr == p && t.devices[i].id == id;
      if e.NewDevice? {
        if !SameIds(s, t) { assert t.devices[..|s.devices|][i] == t.devices[i]; }
        assert s.devices[i].ptr == p && s.devices[i].id == id;
      } else {
        assert Came(s, t.devices[i]);
      }
    }
  }

  lemma {:induction false} GoneForGood(s: System, es: seq<Event>, p: nat, id: string)
    requires Legal(s, es) && p < s.nextPtr && !Holding(s, p, id)
    ensures !Holding(Run(s, es), p, id)
    decreases |es|
  {
    hide Step, Enabled, Holding;
    if es != [] {
      HeldBefore(s, es[0], p, id);
      GoneForGood(Step(s, es[0]), es[1..], p, id);
    }
  }

  lemma {:induction false} HeldExactly(s: System, es: seq<Event>, p: nat, id: string)
    requires Safe(s) && Legal(s, es) && Holding(s, p, id)
    ensures Holding(Run(s, es), p, id) <==> !RemovedDuring(s, es, id)
    decreases |es|
  {
    if es != [] {
      ContextRemovedExactly(s, es[0], p, id);
      StepSafe(s, es[0]);
      NumberUsed(s, p, id);
      HeldBefore(s, es[0], p, id);
      hide Step, Enabled, Holding, Removes, Safe;
      if Removes(s, es[0], id) {
        GoneForGood(Step(s, es[0]), es[1..], p, id);
      } else {
        HeldExactly(Step(s, es[0]), es[1..], p, id);
      }
    }
  }

  lemma NumberUsed(s: System, p: nat, id: string)
    requires Safe(s) && Holding(s, p, id)
    ensures p < s.nextPtr
  {
  }

  /**
   * A read is issued for the context in position k. The unchecked lookup of its callback, after any run, returns that
   * very context exactly when no step of the run removed a context of its id.
   */
  lemma ReadFindsDevice(s: System, es: seq<Event>, k: nat)
    requires Safe(s) && Legal(s, es) && k < |s.devices|
    ensures var t, d := Run(s, es), s.devices[k];
            var f := FindId(t.devices, d.id);
            (f < |t.devices| && t.devices[f].ptr == d.ptr) <==> !RemovedDuring(s, es, d.id)
  {
    var t, d := Run(s, es), s.devices[k];
    assert Holding(s, d.ptr, d.id);
    HeldExactly(s, es, d.ptr, d.id);
    RunSafe(s, es);
    var f := FindId(t.devices, d.id);
    hide Run, RemovedDuring, Safe;
    if Holding(t, d.ptr, d.id) {
      var i :| 0 <= i < |t.devices| && t.devices[i].ptr == d.ptr && t.devices[i].id == d.id;
      OneContextPerId(t, f, i);
    }
  }

  // ---------- The indices of a read ----------

  /** The context p is listed under this id, and its service table is built. */
  ghost predicate HoldingTable(s: System, p: nat, id: string) {
    exists i :: 0 <= i < |s.devices| && s.devices[i].ptr == p && s.devices[i].id == id && s.devices[i].resolved
  }

  /** How many characteristics each service has that a discovery finds for a context, by its number. */
  type Found = nat -> seq<nat>

  /** The table of a context: empty before its discovery. */
  function Table(d: Device, found: Found): seq<nat> {
    if d.resolved then found(d.ptr) else []
  }

  /** The service and the characteristic a read was issued for are in the table. */
  predicate InTable(table: seq<nat>, service: nat, ch: nat) { service < |table| && ch < table[service] }

  lemma TableStays(s: System, e: Event, p: nat, id: string)
    requires Safe(s) && Enabled(s, e) && HoldingTable(s, p, id) && Holding(Step(s, e), p, id)
    ensures HoldingTable(Step(s, e), p, id)
  {
    if e.NewDevice? {
      DiscoveryAdds(s, e);
      hide Step, Enabled, Safe;
      TableFound(s, Step(s, e), p, id);
    } else {
      StepInherits(s, e);
      hide Step, Enabled;
      TableInherited(s, Step(s, e), p, id);
    }
  }

  /** A discovery leaves the contexts of before in their places. */
  lemma TableFound(s: System, t: System, p: nat, id: string)
    requires HoldingTable(s, p, id)
    requires SameIds(s, t) || (|t.devices| == |s.devices| + 1 && t.devices[..|s.devices|] == s.devices)
    ensures HoldingTable(t, p, id)
  {
    var j :| 0 <= j < |s.devices| && s.devices[j].ptr == p && s.devices[j].id == id && s.devices[j].resolved;
    if SameIds(s, t) { assert SameContext(s.devices[j], t.devices[j]); } else { assert t.devices[..|s.devices|][j] == t.devices[j]; }
  }

  lemma TableInherited(s: System, t: System, p: nat, id: string)
    requires Safe(s) && Inherits(s, t) && HoldingTable(s, p, id) && Holding(t, p, id)
    ensures HoldingTable(t, p, id)
  {
    hide Safe;
    var j :| 0 <= j < |s.devices| && s.devices[j].ptr == p && s.devices[j].id == id && s.devices[j].resolved;
    var i :| 0 <= i < |t.devices| && t.devices[i].ptr == p && t.devices[i].id == id;
    assert Came(s, t.devices[i]);
    var m :| 0 <= m < |s.devices| && SameContext(s.devices[m], t.devices[i]);
    SamePosition(s, m, j);
  }

  lemma SamePosition(s: System, i: nat, j: nat)
    requires Safe(s) && i < |s.devices| && j < |s.devices| && s.devices[i].ptr == s.devices[j].ptr
    ensures i == j
  {
    hide Linked, AllCounted, AllJustified, DeviceId;
    if i < j {} else if j < i {} else {}
  }

  lemma {:induction false} TableInRun(s: System, es: seq<Event>, p: nat, id: string)
    requires Safe(s) && Legal(s, es) && HoldingTable(s, p, id) && !RemovedDuring(s, es, id)
    ensures HoldingTable(Run(s, es), p, id)
    decreases |es|
  {
    if es != [] {
      ContextRemovedExactly(s, es[0], p, id);
      TableStays(s, es[0], p, id);
      StepSafe(s, es[0]);
      hide Step, Enabled, HoldingTable, Removes, Safe;
      TableInRun(Step(s, es[0]), es[1..], p, id);
    }
  }

  /**
   * A read is issued for a characteristic of the context in position k. If no step of the run removes a context of its
   * id, both indices are in range when the callback uses them. If one does, the lookup finds nothing or a context that
   * was discovered later, whose table is another one.
   */
  lemma ReadIndexInRange(s: System, es: seq<Event>, k: nat, service: nat, ch: nat, found: Found)
    requires Safe(s) && Legal(s, es) && k < |s.devices| && InTable(Table(s.devices[k], found), service, ch)
    ensures var t, d := Run(s, es), s.devices[k];
            var f := FindId(t.devices, d.id);
            if !RemovedDuring(s, es, d.id) then f < |t.devices| && InTable(Table(t.devices[f], found), service, ch)
            else
              f < |t.devices| ==> t.devices[f].ptr >= s.nextPtr
  {
    var t, d := Run(s, es), s.devices[k];
    var f := FindId(t.devices, d.id);
    ReadFindsDevice(s, es, k);
    RunSafe(s, es);
    if !RemovedDuring(s, es, d.id) {
      assert HoldingTable(s, d.ptr, d.id);
      TableInRun(s, es, d.ptr, d.id);
      hide Run, RemovedDuring, Safe;
      var i :| 0 <= i < |t.devices| && t.devices[i].ptr == d.ptr && t.devices[i].id == d.id && t.devices[i].resolved;
      SamePosition(t, f, i);
    } else if f < |t.devices| {
      assert Holding(t, t.devices[f].ptr, d.id);
      FoundIsLater(s, es, k, t.devices[f].ptr);
    }
  }

  /** A listed context with another number than the one that was listed under its id was discovered in the run. */
  lemma FoundIsLater(s: System, es: seq<Event>, k: nat, p: nat)
    requires Safe(s) && Legal(s, es) && k < |s.devices| && p != s.devices[k].ptr
    requires Holding(Run(s, es), p, s.devices[k].id)
    ensures p >= s.nextPtr
  {
    if p < s.nextPtr {
      if Holding(s, p, s.devices[k].id) {
        HeldByOne(s, p, k);
      } else {
        GoneForGood(s, es, p, s.devices[k].id);
      }
    }
  }

  lemma HeldByOne(s: System, p: nat, k: nat)
    requires Safe(s) && k < |s.devices| && Holding(s, p, s.devices[k].id)
    ensures p == s.devices[k].ptr
  {
    var i :| 0 <= i < |s.devices| && s.devices[i].ptr == p && s.devices[i].id == s.devices[k].id;
    OneContextPerId(s, i, k);
  }

  // ---------- Runs on which it goes wrong ----------

  /** One step is enough: after a removal the callback of a read in flight gets no device. */
  lemma ReadLosesDevice(s: System, e: Event, id: string)
    requires Safe(s) && Enabled(s, e) && Listed(s, id) && Removes(s, e, id)
    ensures FindId(Step(s, e).devices, id) == |Step(s, e).devices|
  {
    hide Step, Removes, Safe;
    RemovedExactly(s, e, id);
  }

  /** It happens: BlueZ drops a device while it is read, and Edge does not take the unregistration. */
  lemma ReadCanLoseDevice(postfix: string, now: nat, address: Address, path: string)
    ensures var s := Initial(postfix, now);
            var es := [NewDevice(address, path), ConnectDone(address, true, true, false, true)];
            && Legal(s, es) && Listed(Run(s, es), DeviceId(address, postfix))
            && Enabled(Run(s, es), ObjectRemoved(path, false))
            && !Listed(Step(Run(s, es), ObjectRemoved(path, false)), DeviceId(address, postfix))
  {
    hide DeviceId;
    var s := Initial(postfix, now);
    var e, f := NewDevice(address, path), ConnectDone(address, true, true, false, true);
    var t := Step(s, e);
    assert t.devices[0].id == DeviceId(address, postfix) && |t.devices| == 1;
    var u := Step(t, f);
    assert u.devices[0].id == DeviceId(address, postfix) && u.devices[0].path == path && |u.devices| == 1;
    assert [e, f][1..] == [f] && [f][1..] == [];
    assert Legal(u, []) && Legal(t, [f]) && Run(t, [f]) == Run(u, []) == u;
    assert Run(s, [e, f]) == u;
    assert Step(u, ObjectRemoved(path, false)).devices == [];
  }

  /**
   * Or the callback gets another context: the device is found again under its id, before its services are resolved.
   * Its table is empty, so that no index of the old one is in range.
   */
  lemma ReadCanFindAnother(postfix: string, now: nat, address: Address, path: string)
    ensures var s, id := Initial(postfix, now), DeviceId(address, postfix);
            var es := [EdgeReady, NewDevice(address, path), ConnectDone(address, true, true, true, true)];
            var later := [ObjectRemoved(path, false), NewDevice(address, path)];
            && Legal(s, es) && Legal(Run(s, es), later)
            && var t, u := Run(s, es), Run(Run(s, es), later);
            && |t.devices| == 1 && t.devices[0].id == id && t.devices[0].resolved
            && FindId(u.devices, id) == 0 < |u.devices| && u.devices[0].ptr != t.devices[0].ptr
            && forall found: Found :: Table(t.devices[0], found) == found(0) && Table(u.devices[0], found) == []
  {
    var s := OneResolved(postfix, now, address, path);
    FoundAgain(s, address, path);
    hide Step, Run, Legal, Enabled;
    RunTwo(s, ObjectRemoved(path, false), NewDevice(address, path));
  }

  /** Edge is up, and the first device connects with its services resolved. */
  lemma OneResolved(postfix: string, now: nat, address: Address, path: string) returns (t: System)
    ensures var s := Initial(postfix, now);
            var es := [EdgeReady, NewDevice(address, path), ConnectDone(address, true, true, true, true)];
            Legal(s, es) && t == Run(s, es)
    ensures t.running && !t.quit && !t.unregistering && t.postfix == postfix && t.nextPtr == 1 && |t.devices| == 1
    ensures var d := t.devices[0];
            d.id == DeviceId(address, postfix) && d.path == path && d.ptr == 0 && d.resolved
  {
    hide DeviceId, OnConnectDone;
    var e1, e2, e3 := EdgeReady, NewDevice(address, path), ConnectDone(address, true, true, true, true);
    var s0 := Initial(postfix, now);
    var s1 := Step(s0, e1);
    var s2 := Step(s1, e2);
    assert s2.devices[0].id == DeviceId(address, postfix) && |s2.devices| == 1;
    ConnectResolves(s2, address);
    t := Step(s2, e3);
    hide Step, Legal, Run, Enabled;
    RunThree(s0, e1, e2, e3);
  }

  lemma ConnectResolves(s: System, address: Address)
    requires !s.quit && s.edgeUp && |s.devices| == 1 && s.devices[0].id == DeviceId(address, s.postfix)
    requires address in s.pending.connects
    ensures Enabled(s, ConnectDone(address, true, true, true, true))
    ensures var t, d := Step(s, ConnectDone(address, true, true, true, true)), s.devices[0];
            && t.running == s.running && !t.quit && t.unregistering == s.unregistering && t.postfix == s.postfix
            && t.nextPtr == s.nextPtr && |t.devices| == 1
            && t.devices[0].id == d.id && t.devices[0].path == d.path && t.devices[0].ptr == d.ptr && t.devices[0].resolved
  {
    hide DeviceId;
  }

  lemma FoundAgain(s: System, address: Address, path: string)
    requires s.running && !s.quit && !s.unregistering && |s.devices| == 1 && s.devices[0].path == path
    requires s.devices[0].ptr < s.nextPtr
    ensures Enabled(s, ObjectRemoved(path, false))
    ensures Enabled(Step(s, ObjectRemoved(path, false)), NewDevice(address, path))
    ensures var t := Step(Step(s, ObjectRemoved(path, false)), NewDevice(address, path));
            && |t.devices| == 1 && t.devices[0].id == DeviceId(address, s.postfix) && !t.devices[0].resolved
            && t.devices[0].ptr == s.nextPtr
  {
    hide DeviceId;
    assert Step(s, ObjectRemoved(path, false)).devices == [];
  }

  lemma RunTwo(s: System, e: Event, f: Event)
    requires Enabled(s, e) && Enabled(Step(s, e), f)
    ensures Legal(s, [e, f]) && Run(s, [e, f]) == Step(Step(s, e), f)
  {
    hide Step, Enabled;
    assert [e, f][1..] == [f] && [f][1..] == [];
    assert Legal(Step(Step(s, e), f), []) && Legal(Step(s, e), [f]);
    assert Run(Step(s, e), [f]) == Run(Step(Step(s, e), f), []) == Step(Step(s, e), f);
  }

  lemma RunThree(s: System, e: Event, f: Event, g: Event)
    requires Enabled(s, e) && Enabled(Step(s, e), f) && Enabled(Step(Step(s, e), f), g)
    ensures Legal(s, [e, f, g]) && Run(s, [e, f, g]) == Step(Step(Step(s, e), f), g)
  {
    RunTwo(Step(s, e), f, g);
    hide Step, Enabled;
    assert [e, f, g][1..] == [f, g];
  }

  /** Completions and queued callbacks that name a device no longer listed change nothing but their own queue. */
  lemma StaleMessagesIgnored(s: System, id: string, accepted: bool, resolveNow: set<string>, reachable: set<string>)
    requires !s.quit && !Listed(s, id)
    ensures id in s.pending.removals ==>
      Step(s, RemoveDone(id, accepted)) == s.(pending := s.pending.(removals := s.pending.removals - multiset{id}))
    ensures s.idle != [] && s.idle[0] in {Unregistered(id, true), Unregistered(id, false), Registered(id)} ==>
      Step(s, Dispatch(resolveNow, reachable)) == s.(idle := s.idle[1..])
  {
    FindsListed(s.devices, id);
  }
}
