/** A test thread of the stress tester: its device list and the mutex operations its routines perform. */
module StressTester {
  import opened Optional
  import opened StressLocks
  import opened DevicePool

  class TestThread {
    const index: nat
    const connection: nat
    const parallel: bool
    const limits: Limits

    var devices: List
    /** Everything the thread has locked and unlocked. */
    var ops: seq<Op>

    constructor (index: nat, translators: nat, parallel: bool, limits: Limits)
      requires translators > 0 && limits.randMax <= INT_MAX
      ensures devices == [] && ops == [] && Valid()
      ensures this.index == index && this.connection == index % translators
      ensures this.parallel == parallel && this.limits == limits
    {
      this.index, this.connection, this.parallel, this.limits := index, index % translators, parallel, limits;
      devices, ops := [], [];
    }

    predicate Valid() { limits.randMax <= INT_MAX }

    /** find_device */
    method FindDevice(id: string) returns (k: nat)
      ensures k == Find(devices, id)
    {
      k := 0;
      while k < |devices|
        invariant k <= |devices|
        invariant forall j :: 0 <= j < k ==> devices[j].id != id
      {
        if devices[k].id == id { return; }
        k := k + 1;
      }
    }

    method LockDeviceList()
      modifies this`ops
      ensures ops == old(ops) + [LockList(index)]
    {
      ops := ops + [LockList(index)];
    }

    method UnlockDeviceList()
      modifies this`ops
      ensures ops == old(ops) + [UnlockList(index)]
    {
      ops := ops + [UnlockList(index)];
    }

    /** A call into the connection between the conditional lock and unlock. */
    method CallConnection()
      modifies this`ops
      ensures ops == old(ops) + ConnectionOps(parallel, connection)
    {
      var calls := LockedCall(parallel, connection);
      ops := ops + calls;
    }

    /** unregister_device_entry_common on entry k */
    method UnregisterEntry(k: nat, accepted: bool)
      requires k < |devices|
      modifies this`devices, this`ops
      ensures devices == if accepted then old(devices) else Removed(old(devices), k)
      ensures ops == old(ops) + ConnectionOps(parallel, connection)
    {
      CallConnection();
      if !accepted {
        devices := devices[..k] + devices[k + 1..];
      }
    }

    /** Draw numbers until the id is new. */
    method DrawDeviceId(draws: seq<nat>) returns (id: string)
      requires Drawn(devices, index, draws)
      ensures id == DeviceId(index, draws[FirstFresh(devices, index, draws)])
    {
      hide DeviceId;
      var k := 0;
      id := DeviceId(index, draws[k]);
      var found := FindDevice(id);
      while found < |devices|
        invariant k <= FirstFresh(devices, index, draws) < |draws|
        invariant id == DeviceId(index, draws[k]) && found == Find(devices, id)
        decreases |draws| - k
      {
        assert Listed(devices, DeviceId(index, draws[k]));
        k := k + 1;
        id := DeviceId(index, draws[k]);
        found := FindDevice(id);
      }
      assert !Listed(devices, DeviceId(index, draws[k]));
    }

    /** register_random_device; `number` is that of the new entry. */
    method RegisterRandomDevice(draws: seq<nat>, number: nat)
      requires |devices| < limits.max ==> Drawn(devices, index, draws)
      modifies this`devices, this`ops
      ensures devices == Registered(old(devices), index, draws, number, limits.max)
      ensures ops == old(ops) + Repeat(ConnectionOps(parallel, connection), if |old(devices)| >= limits.max then 0 else 1)
    {
      hide DeviceId, FirstFresh;
      Never(ops, parallel, connection);
      if |devices| >= limits.max { return; }
      var id := DrawDeviceId(draws);
      devices := devices + [Entry(id, number, false)];
      CallConnection();
      Once(parallel, connection);
    }

    /** unregister_random_device */
    method UnregisterRandomDevice(r: nat, accepted: bool)
      requires Valid() && r <= limits.randMax
      modifies this`devices, this`ops
      ensures devices == Unregistered(old(devices), r, limits.randMax, accepted, limits.min)
      ensures ops == old(ops) +
        Repeat(ConnectionOps(parallel, connection), if |old(devices)| <= limits.min || |old(devices)| == 0 then 0 else 1)
    {
      hide Choice;
      Once(parallel, connection);
      if |devices| <= limits.min || |devices| == 0 {
        assert ops + [] == ops;
        return;
      }
      ChoiceInRange(r, limits.randMax, |devices|);
      var chosen := Choice(r, limits.randMax, |devices|);
      var i := 0;
      while i < |devices|
        invariant i <= chosen < |devices| && devices == old(devices) && ops == old(ops)
      {
        if i == chosen {
          UnregisterEntry(i, accepted);
          return;
        }
        i := i + 1;
      }
      assert false;
    }

    /** set_random_value: the ids whose device gets a value. */
    method SetRandomValue(r: nat) returns (written: seq<string>)
      requires Valid() && r <= limits.randMax
      modifies this`ops
      ensures |devices| == 0 ==> written == []
      ensures |devices| > 0 ==>
        0 <= Choice(r, limits.randMax, |devices|) < |devices| &&
        var e := devices[Choice(r, limits.randMax, |devices|)];
        written == if e.registered then [e.id] else []
      ensures ops == old(ops) + Repeat(ConnectionOps(parallel, connection), |written|)
    {
      hide Choice;
      Once(parallel, connection);
      written := [];
      assert ops + [] == ops;
      if |devices| > 0 {
        ChoiceInRange(r, limits.randMax, |devices|);
        var chosen := Choice(r, limits.randMax, |devices|);
        for i := 0 to |devices|
          invariant written == if i > chosen && devices[chosen].registered then [devices[chosen].id] else []
          invariant ops == old(ops) + Repeat(ConnectionOps(parallel, connection), |written|)
        {
          if i == chosen && devices[i].registered {
            CallConnection();
            written := written + [devices[i].id];
          }
        }
      }
    }

    /** The chosen action, with the number of calls it makes. */
    method PerformAction(action: nat, draws: seq<nat>, number: nat, r: nat, accepted: bool) returns (ghost calls: nat)
      requires Valid() && r <= limits.randMax
      requires action == 0 && |devices| < limits.max ==> Drawn(devices, index, draws)
      modifies this`devices, this`ops
      ensures action == 0 ==> devices == Registered(old(devices), index, draws, number, limits.max)
      ensures action == 1 ==> devices == Unregistered(old(devices), r, limits.randMax, accepted, limits.min)
      ensures action > 1 ==> devices == old(devices)
      ensures calls <= 1 && ops == old(ops) + Repeat(ConnectionOps(parallel, connection), calls)
    {
      hide Choice, Registered, Unregistered, Repeat, ConnectionOps;
      if action == 0 {
        calls := if |devices| >= limits.max then 0 else 1;
        RegisterRandomDevice(draws, number);
      } else if action == 1 {
        calls := if |devices| <= limits.min || |devices| == 0 then 0 else 1;
        UnregisterRandomDevice(r, accepted);
      } else if action == 2 {
        var written := SetRandomValue(r);
        calls := |written|;
      } else {
        calls := 0;
        Never(ops, parallel, connection);
      }
    }

    /** run_test_action; `up` says that the connection is up and the translator registered. */
    method RunTestAction(action: nat, up: bool, draws: seq<nat>, number: nat, r: nat, accepted: bool)
      requires Valid() && r <= limits.randMax
      requires up && action == 0 && |devices| < limits.max ==> Drawn(devices, index, draws)
      modifies this`devices, this`ops
      ensures up && action == 0 ==> devices == Registered(old(devices), index, draws, number, limits.max)
      ensures up && action == 1 ==> devices == Unregistered(old(devices), r, limits.randMax, accepted, limits.min)
      ensures !up || action > 1 ==> devices == old(devices)
      ensures exists n: nat :: n <= 1 && ops == old(ops) + UnderList(parallel, index, connection, n)
    {
      hide Choice, Registered, Unregistered, Repeat, ConnectionOps;
      ghost var n: nat := 0;
      LockDeviceList();
      Never(ops, parallel, connection);
      if up {
        n := PerformAction(action, draws, number, r, accepted);
      }
      UnlockDeviceList();
      assert ops == old(ops) + UnderList(parallel, index, connection, n);
    }

    /** unregister_devices */
    method UnregisterDevices(answers: seq<bool>)
      requires |answers| == |devices|
      modifies this`devices, this`ops
      ensures devices == Flushed(old(devices), answers)
      ensures ops == old(ops) + UnderList(parallel, index, connection, |old(devices)|)
    {
      hide Flushed, Removed, Repeat, ConnectionOps, Flushing;
      LockDeviceList();
      ghost var before := ops;
      ghost var all := devices;
      ghost var kept: List := [];
      Never(ops, parallel, connection);
      FlushingStarts(all, answers);
      var k, i := 0, 0;
      while i < |answers|
        invariant |kept| == k && i <= |answers| == |all|
        invariant Flushing(devices, all, answers, i, kept)
        invariant ops == before + Repeat(ConnectionOps(parallel, connection), i)
      {
        FlushStep(devices, all, answers, i, kept);
        UnregisterEntry(k, answers[i]);
        if answers[i] {
          kept := kept + [all[i]];
          k := k + 1;
        }
        RepeatMore(before, ConnectionOps(parallel, connection), i);
        i := i + 1;
      }
      FlushingEnds(devices, all, answers, kept);
      UnlockDeviceList();
      assert ops == old(ops) + UnderList(parallel, index, connection, |old(devices)|);
    }

    /** device_registration_success, for a device that is still listed. */
    method DeviceRegistrationSuccess(id: string)
      requires Listed(devices, id)
      modifies this`devices, this`ops
      ensures devices == Confirmed(old(devices), id)
      ensures ops == old(ops) + UnderList(parallel, index, connection, 0)
    {
      LockDeviceList();
      var k := FindDevice(id);
      devices := devices[k := devices[k].(registered := true)];
      UnlockDeviceList();
      assert ops == old(ops) + ([LockList(index)] + [] + [UnlockList(index)]);
    }

    /** device_unregistration_success, for a device that is still listed. */
    method DeviceUnregistrationSuccess(id: string)
      requires Listed(devices, id)
      modifies this`devices, this`ops
      ensures devices == Dropped(old(devices), id)
      ensures ops == old(ops) + UnderList(parallel, index, connection, 0)
    {
      LockDeviceList();
      var k := FindDevice(id);
      devices := devices[k := devices[k].(registered := false)];
      var i := 0;
      while i < |devices|
        invariant i <= Find(old(devices), id) == k
        invariant devices == old(devices)[k := old(devices)[k].(registered := false)]
      {
        if devices[i].id == id {
          devices := devices[..i] + devices[i + 1..];
          break;
        }
        i := i + 1;
      }
      UnlockDeviceList();
      assert ops == old(ops) + ([LockList(index)] + [] + [UnlockList(index)]);
    }
  }

  lemma Once(parallel: bool, p: nat)
    ensures Repeat(ConnectionOps(parallel, p), 1) == ConnectionOps(parallel, p)
  {
    assert [] + ConnectionOps(parallel, p) == ConnectionOps(parallel, p);
  }

  lemma Never(ops: seq<Op>, parallel: bool, p: nat)
    ensures ops + Repeat(ConnectionOps(parallel, p), 0) == ops
  {
  }

  lemma RepeatMore(before: seq<Op>, part: seq<Op>, n: nat)
    ensures before + Repeat(part, n) + part == before + Repeat(part, n + 1)
  {
  }

  /** The entries kept so far, followed by those whose turn has not come. */
  ghost predicate Flushing(devices: List, all: List, answers: seq<bool>, i: nat, kept: List)
    requires |answers| == |all| && i <= |all|
  {
    devices == kept + all[i..] && kept + Flushed(all[i..], answers[i..]) == Flushed(all, answers)
  }

  lemma FlushingStarts(all: List, answers: seq<bool>)
    requires |answers| == |all|
    ensures Flushing(all, all, answers, 0, [])
  {
    assert all[0..] == all && answers[0..] == answers;
  }

  lemma FlushingEnds(devices: List, all: List, answers: seq<bool>, kept: List)
    requires |answers| == |all| && Flushing(devices, all, answers, |all|, kept)
    ensures devices == Flushed(all, answers)
  {
  }

  /** The entry whose turn it is follows those kept; it is kept or removed. */
  lemma FlushStep(devices: List, all: List, answers: seq<bool>, i: nat, kept: List)
    requires |answers| == |all| && i < |all| && Flushing(devices, all, answers, i, kept)
    ensures |kept| < |devices|
    ensures answers[i] ==> Flushing(devices, all, answers, i + 1, kept + [all[i]])
    ensures !answers[i] ==> Flushing(Removed(devices, |kept|), all, answers, i + 1, kept)
  {
    assert all[i..][1..] == all[i + 1..] && answers[i..][1..] == answers[i + 1..];
  }

  /** A call into the connection between the conditional lock and unlock. */
  method LockedCall(parallel: bool, connection: nat) returns (ops: seq<Op>)
    ensures ops == ConnectionOps(parallel, connection)
  {
    ops := [];
    if parallel { ops := ops + [LockConnection(connection)]; }
    ops := ops + [UseConnection(connection)];
    if parallel { ops := ops + [UnlockConnection(connection)]; }
  }

  /** received_write_handler on the lists of all threads, in order. */
  method ReceivedWriteHandler(parallel: bool, connection: nat, lookups: seq<Lookup>) returns (rc: int, ops: seq<Op>)
    ensures ops == WriteHandler(parallel, connection, lookups, 0)
    ensures rc == 0 <==> Balanced(ops)
  {
    hide Balanced, WriteHandler, ConnectionOps, ReturnsEarly, Visited, NoneEarly;
    ops := [];
    HandlerBalanced(parallel, connection, lookups);
    NoneVisited(parallel, connection, lookups);
    var i := 0;
    while i < |lookups|
      invariant i <= |lookups|
      invariant NoneEarly(lookups[..i])
      invariant Visited(ops, parallel, connection, lookups, i)
    {
      VisitStep(ops, parallel, connection, lookups, i);
      EarlyStep(lookups, i);
      ops := ops + [LockList(i)];
      if ReturnsEarly(lookups[i]) {
        return 1, ops;
      }
      var calls := [];
      if lookups[i].Executed? {
        calls := LockedCall(parallel, connection);
      }
      ops := ops + calls + [UnlockList(i)];
      i := i + 1;
    }
    AllVisited(ops, parallel, connection, lookups);
    assert lookups[..i] == lookups;
    rc := 0;
  }

  /** The operations so far and those of the threads still to visit make up the whole handler. */
  ghost predicate Visited(ops: seq<Op>, parallel: bool, p: nat, lookups: seq<Lookup>, i: nat)
    requires i <= |lookups|
  {
    ops + WriteHandler(parallel, p, lookups, i) == WriteHandler(parallel, p, lookups, 0)
  }

  predicate NoneEarly(lookups: seq<Lookup>) {
    forall k :: 0 <= k < |lookups| ==> !ReturnsEarly(lookups[k])
  }

  lemma HandlerBalanced(parallel: bool, p: nat, lookups: seq<Lookup>)
    ensures Balanced(WriteHandler(parallel, p, lookups, 0)) <==> NoneEarly(lookups)
    ensures NoneEarly(lookups[..0])
  {
    WriteHandlerExact(parallel, p, lookups, 0);
  }

  lemma EarlyStep(lookups: seq<Lookup>, i: nat)
    requires i < |lookups| && NoneEarly(lookups[..i])
    ensures ReturnsEarly(lookups[i]) ==> !NoneEarly(lookups)
    ensures !ReturnsEarly(lookups[i]) ==> NoneEarly(lookups[..i + 1])
  {
  }

  lemma NoneVisited(parallel: bool, p: nat, lookups: seq<Lookup>)
    ensures Visited([], parallel, p, lookups, 0)
  {
  }

  lemma AllVisited(ops: seq<Op>, parallel: bool, p: nat, lookups: seq<Lookup>)
    requires Visited(ops, parallel, p, lookups, |lookups|)
    ensures ops == WriteHandler(parallel, p, lookups, 0)
  {
  }

  lemma VisitStep(ops: seq<Op>, parallel: bool, p: nat, lookups: seq<Lookup>, i: nat)
    requires i < |lookups| && Visited(ops, parallel, p, lookups, i)
    ensures ReturnsEarly(lookups[i]) ==> ops + [LockList(i)] == WriteHandler(parallel, p, lookups, 0)
    ensures !ReturnsEarly(lookups[i]) ==>
      var calls := if lookups[i].Executed? then ConnectionOps(parallel, p) else [];
      Visited(ops + [LockList(i)] + calls + [UnlockList(i)], parallel, p, lookups, i + 1)
  {
    hide ConnectionOps;
  }
}
