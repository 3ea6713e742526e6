/** The mutexes of the stress tester: one per test thread for its device list, one per connection. */
module StressLocks {
  import opened Optional

  datatype Op =
    | LockList(i: nat)
    | UnlockList(i: nat)
    | LockConnection(p: nat)
    | UseConnection(p: nat)
    | UnlockConnection(p: nat)

  /** What one thread holds. */
  datatype Held = Held(list: Option<nat>, connection: Option<nat>)

  const NOTHING := Held(None, None)

  // ---------- The discipline ----------

  /** The list mutex comes before the connection mutex, one of each at most, released in the opposite order. */
  function Next(h: Held, op: Op): Option<Held> {
    match op
    case LockList(i) => if h == NOTHING then Some(Held(Some(i), None)) else None
    case LockConnection(p) => if h.connection == None then Some(h.(connection := Some(p))) else None
    case UseConnection(_) => Some(h)
    case UnlockConnection(p) => if h.connection == Some(p) then Some(h.(connection := None)) else None
    case UnlockList(i) => if h == Held(Some(i), None) then Some(NOTHING) else None
  }

  /** What a thread holds after the operations, or None if they break the discipline. */
  function After(h: Held, ops: seq<Op>): Option<Held> {
    if ops == [] then Some(h)
    else
      match After(h, ops[..|ops| - 1])
      case None => None
      case Some(g) => Next(g, ops[|ops| - 1])
  }

  /** A disciplined program that leaves nothing locked. */
  predicate Balanced(ops: seq<Op>) { After(NOTHING, ops) == Some(NOTHING) }

  lemma {:induction false} AfterAppend(h: Held, a: seq<Op>, b: seq<Op>)
    ensures After(h, a + b) == match After(h, a) case None => None case Some(g) => After(g, b)
  {
    if b == [] {
      assert a + b == a;
    } else {
      assert (a + b)[..|a + b| - 1] == a + b[..|b| - 1];
      AfterAppend(h, a, b[..|b| - 1]);
    }
  }

  /** Every prefix of a balanced program keeps the discipline. */
  lemma {:induction false} PrefixDisciplined(ops: seq<Op>, k: nat)
    requires k <= |ops| && After(NOTHING, ops) != None
    ensures After(NOTHING, ops[..k]) != None
  {
    assert ops == ops[..k] + ops[k..];
    AfterAppend(NOTHING, ops[..k], ops[k..]);
  }

  // ---------- The routines ----------

  /** A call into the connection, locked only when the tester runs with the lock. */
  function ConnectionOps(parallel: bool, p: nat): seq<Op> {
    if parallel then [LockConnection(p), UseConnection(p), UnlockConnection(p)] else [UseConnection(p)]
  }

  function Repeat(ops: seq<Op>, n: nat): seq<Op> {
    if n == 0 then [] else Repeat(ops, n - 1) + ops
  }

  /** A routine that makes n calls with list i locked: a test action, a callback, unregister_devices, a count. */
  function UnderList(parallel: bool, i: nat, p: nat, n: nat): seq<Op> {
    [LockList(i)] + Repeat(ConnectionOps(parallel, p), n) + [UnlockList(i)]
  }

  /** What the write handler finds in one thread's list. */
  datatype Lookup =
    | NoDevice
    | NoResource
    | NotPermitted
    | Written
    | Executed
    | NoCallback

  predicate ReturnsEarly(l: Lookup) { l.NoResource? || l.NotPermitted? }

  /** received_write_handler from thread i on. The two early returns leave the list locked. */
  function WriteHandler(parallel: bool, p: nat, lookups: seq<Lookup>, i: nat): seq<Op>
    requires i <= |lookups|
    decreases |lookups| - i
  {
    if i == |lookups| then []
    else if ReturnsEarly(lookups[i]) then [LockList(i)]
    else
      [LockList(i)] + (if lookups[i].Executed? then ConnectionOps(parallel, p) else []) + [UnlockList(i)]
      + WriteHandler(parallel, p, lookups, i + 1)
  }

  lemma {:induction false} RepeatKeeps(parallel: bool, p: nat, n: nat, h: Held)
    requires h.connection == None
    ensures After(h, Repeat(ConnectionOps(parallel, p), n)) == Some(h)
  {
    if n > 0 {
      RepeatKeeps(parallel, p, n - 1, h);
      AfterAppend(h, Repeat(ConnectionOps(parallel, p), n - 1), ConnectionOps(parallel, p));
      ConnectionKeeps(parallel, p, h);
    }
  }

  lemma ConnectionKeeps(parallel: bool, p: nat, h: Held)
    requires h.connection == None
    ensures After(h, ConnectionOps(parallel, p)) == Some(h)
  {
    if parallel {
      var ops := [LockConnection(p), UseConnection(p), UnlockConnection(p)];
      var held := h.(connection := Some(p));
      assert ops[..2] == [LockConnection(p), UseConnection(p)] && ops[..2][..1] == [LockConnection(p)];
      assert ops[..2][..1][..0] == [];
      assert After(h, ops[..2][..1]) == Some(held);
      assert After(h, ops[..2]) == Some(held);
    } else {
      assert [UseConnection(p)][..0] == [];
    }
  }

  lemma UnderListKeeps(h: Held, i: nat, inner: seq<Op>)
    requires h == NOTHING && After(Held(Some(i), None), inner) == Some(Held(Some(i), None))
    ensures After(h, [LockList(i)] + inner + [UnlockList(i)]) == Some(NOTHING)
  {
    assert [LockList(i)][..0] == [];
    assert After(h, [LockList(i)]) == Some(Held(Some(i), None));
    AfterAppend(h, [LockList(i)], inner);
    var ops := [LockList(i)] + inner;
    assert (ops + [UnlockList(i)])[..|ops|] == ops;
  }

  /** Every routine that works under a list mutex is balanced. */
  lemma UnderListBalanced(parallel: bool, i: nat, p: nat, n: nat)
    ensures Balanced(UnderList(parallel, i, p, n)) && Balanced(ConnectionOps(parallel, p))
  {
    RepeatKeeps(parallel, p, n, Held(Some(i), None));
    UnderListKeeps(NOTHING, i, Repeat(ConnectionOps(parallel, p), n));
    ConnectionKeeps(parallel, p, NOTHING);
  }

  /**
   * The write handler keeps the discipline, and is balanced exactly when it takes neither early return.
   */
  lemma {:induction false} WriteHandlerExact(parallel: bool, p: nat, lookups: seq<Lookup>, i: nat)
    requires i <= |lookups|
    ensures After(NOTHING, WriteHandler(parallel, p, lookups, i)) != None
    ensures Balanced(WriteHandler(parallel, p, lookups, i)) <==> forall k :: i <= k < |lookups| ==> !ReturnsEarly(lookups[k])
    decreases |lookups| - i
  {
    if i < |lookups| {
      if ReturnsEarly(lookups[i]) {
        assert [LockList(i)][..0] == [];
        assert After(NOTHING, [LockList(i)]) == Some(Held(Some(i), None));
      } else {
        WriteHandlerExact(parallel, p, lookups, i + 1);
        var inner := if lookups[i].Executed? then ConnectionOps(parallel, p) else [];
        ConnectionKeeps(parallel, p, Held(Some(i), None));
        UnderListKeeps(NOTHING, i, inner);
        AfterAppend(NOTHING, [LockList(i)] + inner + [UnlockList(i)], WriteHandler(parallel, p, lookups, i + 1));
      }
    }
  }

  /** After an early return the handler's thread still holds the list mutex it locked last. */
  lemma {:induction false} EarlyReturnHolds(parallel: bool, p: nat, lookups: seq<Lookup>, i: nat, k: nat)
    requires i <= k < |lookups| && ReturnsEarly(lookups[k])
    requires forall j :: i <= j < k ==> !ReturnsEarly(lookups[j])
    ensures After(NOTHING, WriteHandler(parallel, p, lookups, i)) == Some(Held(Some(k), None))
    decreases |lookups| - i
  {
    if i == k {
      assert [LockList(i)][..0] == [];
    } else {
      EarlyReturnHolds(parallel, p, lookups, i + 1, k);
      var inner := if lookups[i].Executed? then ConnectionOps(parallel, p) else [];
      ConnectionKeeps(parallel, p, Held(Some(i), None));
      UnderListKeeps(NOTHING, i, inner);
      AfterAppend(NOTHING, [LockList(i)] + inner + [UnlockList(i)], WriteHandler(parallel, p, lookups, i + 1));
    }
  }

  // ---------- What a thread runs ----------

  /** Work under a list mutex, a call into some connection, and the write handler with what it finds. */
  datatype Routine =
    | ListWork(list: nat, calls: nat)
    | ConnectionCall(connection: nat)
    | HandleWrite(lookups: seq<Lookup>)

  function OpsOf(r: Routine, parallel: bool, p: nat): seq<Op> {
    match r
    case ListWork(i, n) => UnderList(parallel, i, p, n)
    case ConnectionCall(q) => ConnectionOps(parallel, q)
    case HandleWrite(lookups) => WriteHandler(parallel, p, lookups, 0)
  }

  function Program(rs: seq<Routine>, parallel: bool, p: nat): seq<Op> {
    if rs == [] then [] else OpsOf(rs[0], parallel, p) + Program(rs[1..], parallel, p)
  }

  predicate ComesBackEarly(r: Routine) {
    r.HandleWrite? && exists k :: 0 <= k < |r.lookups| && ReturnsEarly(r.lookups[k])
  }

  lemma NoSecondList(i: nat, k: nat, rest: seq<Op>)
    ensures After(Held(Some(k), None), [LockList(i)] + rest) == None
  {
    assert [LockList(i)][..0] == [];
    assert After(Held(Some(k), None), [LockList(i)]) == None;
    AfterAppend(Held(Some(k), None), [LockList(i)], rest);
  }

  lemma StartsWithList(r: Routine, parallel: bool, p: nat) returns (i: nat, rest: seq<Op>)
    requires r.ListWork? || (r.HandleWrite? && r.lookups != [])
    ensures OpsOf(r, parallel, p) == [LockList(i)] + rest
  {
    i := if r.ListWork? then r.list else 0;
    rest := OpsOf(r, parallel, p)[1..];
  }

  /** A thread that came back with a list mutex never returns to the state in which it holds nothing. */
  lemma {:induction false} NeverBalanced(k: nat, rs: seq<Routine>, parallel: bool, p: nat)
    ensures After(Held(Some(k), None), Program(rs, parallel, p)) in {None, Some(Held(Some(k), None))}
  {
    if rs != [] {
      var h, ops, rest := Held(Some(k), None), OpsOf(rs[0], parallel, p), Program(rs[1..], parallel, p);
      AfterAppend(h, ops, rest);
      if rs[0].ListWork? || (rs[0].HandleWrite? && rs[0].lookups != []) {
        var i, tail := StartsWithList(rs[0], parallel, p);
        NoSecondList(i, k, tail);
      } else {
        if rs[0].ConnectionCall? { ConnectionKeeps(parallel, rs[0].connection, h); }
        NeverBalanced(k, rs[1..], parallel, p);
      }
    }
  }

  /** A thread's program is balanced exactly when none of its write handlers comes back early. */
  lemma {:induction false} ProgramBalancedExactly(rs: seq<Routine>, parallel: bool, p: nat)
    ensures Balanced(Program(rs, parallel, p)) <==> forall j :: 0 <= j < |rs| ==> !ComesBackEarly(rs[j])
  {
    if rs != [] {
      var r, ops, rest := rs[0], OpsOf(rs[0], parallel, p), Program(rs[1..], parallel, p);
      ProgramBalancedExactly(rs[1..], parallel, p);
      AfterAppend(NOTHING, ops, rest);
      assert forall j :: 0 <= j < |rs| - 1 ==> rs[1..][j] == rs[j + 1];
      if ComesBackEarly(r) {
        var k := FirstEarly(r.lookups, 0);
        EarlyReturnHolds(parallel, p, r.lookups, 0, k);
        NeverBalanced(k, rs[1..], parallel, p);
      } else {
        OneBalanced(r, parallel, p);
        assert !ComesBackEarly(rs[0]);
      }
    }
  }

  lemma OneBalanced(r: Routine, parallel: bool, p: nat)
    requires !ComesBackEarly(r)
    ensures Balanced(OpsOf(r, parallel, p))
  {
    match r
    case ListWork(i, n) => UnderListBalanced(parallel, i, p, n);
    case ConnectionCall(q) => UnderListBalanced(parallel, 0, q, 0);
    case HandleWrite(lookups) => WriteHandlerExact(parallel, p, lookups, 0);
  }

  /** shutdown_and_cleanup locks the connections of all translators in turn. */
  function ShutdownRoutines(translators: nat): seq<Routine> {
    seq(translators, i requires 0 <= i < translators => ConnectionCall(i))
  }

  lemma ShutdownBalanced(translators: nat, parallel: bool, p: nat)
    ensures Balanced(Program(ShutdownRoutines(translators), parallel, p))
  {
    ProgramBalancedExactly(ShutdownRoutines(translators), parallel, p);
  }

  lemma FirstEarly(lookups: seq<Lookup>, i: nat) returns (k: nat)
    requires i <= |lookups| && exists j :: i <= j < |lookups| && ReturnsEarly(lookups[j])
    ensures i <= k < |lookups| && ReturnsEarly(lookups[k]) && forall j :: i <= j < k ==> !ReturnsEarly(lookups[j])
    decreases |lookups| - i
  {
    if ReturnsEarly(lookups[i]) { k := i; } else { k := FirstEarly(lookups, i + 1); }
  }

  // ---------- All threads together ----------

  /** Each thread runs a program of its own; `at` says how far it is. */
  datatype System = System(programs: seq<seq<Op>>, at: seq<nat>)

  predicate Formed(s: System) {
    && |s.at| == |s.programs|
    && forall t :: 0 <= t < |s.at| ==> s.at[t] <= |s.programs[t]| && Balanced(s.programs[t])
  }

  function HeldBy(s: System, t: nat): Held
    requires Formed(s) && t < |s.at|
  {
    PrefixDisciplined(s.programs[t], s.at[t]);
    After(NOTHING, s.programs[t][..s.at[t]]).value
  }

  predicate Running(s: System, t: nat)
    requires Formed(s)
  {
    t < |s.at| && s.at[t] < |s.programs[t]|
  }

  function NextOp(s: System, t: nat): Op
    requires Formed(s) && Running(s, t)
  {
    s.programs[t][s.at[t]]
  }

  /** Thread t wants a mutex that thread u holds. */
  predicate WaitsFor(s: System, t: nat, u: nat)
    requires Formed(s)
  {
    && Running(s, t) && u < |s.at|
    && match NextOp(s, t)
       case LockList(i) => HeldBy(s, u).list == Some(i)
       case LockConnection(p) => HeldBy(s, u).connection == Some(p)
       case _ => false
  }

  predicate CanStep(s: System, t: nat)
    requires Formed(s)
  {
    Running(s, t) && forall u :: 0 <= u < |s.at| ==> !WaitsFor(s, t, u)
  }

  /** No mutex is held twice. */
  predicate Exclusive(s: System)
    requires Formed(s)
  {
    forall t, u :: 0 <= t < u < |s.at| ==>
      && (HeldBy(s, t).list == None || HeldBy(s, t).list != HeldBy(s, u).list)
      && (HeldBy(s, t).connection == None || HeldBy(s, t).connection != HeldBy(s, u).connection)
  }

  function Step(s: System, t: nat): System
    requires Formed(s) && Running(s, t)
  {
    s.(at := s.at[t := s.at[t] + 1])
  }

  /** Any schedule: each entry names the thread that takes the next step. */
  ghost predicate Schedule(s: System, threads: seq<nat>, end: System)
    decreases |threads|
  {
    Formed(s) &&
    if threads == [] then end == s
    else CanStep(s, threads[0]) && Schedule(Step(s, threads[0]), threads[1..], end)
  }

  lemma HeldAfterStep(s: System, t: nat)
    requires Formed(s) && Running(s, t)
    ensures Formed(Step(s, t))
    ensures Next(HeldBy(s, t), NextOp(s, t)) == Some(HeldBy(Step(s, t), t))
    ensures forall u :: 0 <= u < |s.at| && u != t ==> HeldBy(Step(s, t), u) == HeldBy(s, u)
  {
    var ops, k := s.programs[t], s.at[t];
    assert ops[..k + 1][..k] == ops[..k];
    PrefixDisciplined(ops, k + 1);
  }

  lemma StepExclusive(s: System, t: nat)
    requires Formed(s) && Exclusive(s) && CanStep(s, t)
    ensures Formed(Step(s, t)) && Exclusive(Step(s, t))
  {
    HeldAfterStep(s, t);
    hide HeldBy;
    var e := Step(s, t);
    forall u | 0 <= u < |s.at| && u != t
      ensures HeldBy(e, t).list == None || HeldBy(e, t).list != HeldBy(e, u).list
      ensures HeldBy(e, t).connection == None || HeldBy(e, t).connection != HeldBy(e, u).connection
    {
      assert !WaitsFor(s, t, u);
      assert HeldBy(e, u) == HeldBy(s, u);
      if u < t {
        assert HeldBy(s, u).list == None || HeldBy(s, u).list != HeldBy(s, t).list;
      } else {
        assert HeldBy(s, t).list == None || HeldBy(s, t).list != HeldBy(s, u).list;
      }
    }
  }

  lemma {:induction false} ScheduleKeeps(s: System, threads: seq<nat>, end: System)
    requires Formed(s) && Exclusive(s) && Schedule(s, threads, end)
    ensures Formed(end) && Exclusive(end)
    decreases |threads|
  {
    if threads != [] {
      StepExclusive(s, threads[0]);
      ScheduleKeeps(Step(s, threads[0]), threads[1..], end);
    }
  }

  lemma StartExclusive(s: System)
    requires Formed(s) && forall t :: 0 <= t < |s.at| ==> s.at[t] == 0
    ensures Exclusive(s)
  {
    forall t | 0 <= t < |s.at| ensures HeldBy(s, t) == NOTHING {
      assert s.programs[t][..0] == [];
    }
    hide HeldBy;
  }

  /** From the start of all threads, after any schedule, no mutex is held twice. */
  lemma ScheduleExclusive(s: System, threads: seq<nat>, end: System)
    requires Formed(s) && forall t :: 0 <= t < |s.at| ==> s.at[t] == 0
    requires Schedule(s, threads, end)
    ensures Formed(end) && Exclusive(end)
  {
    StartExclusive(s);
    hide Exclusive, Schedule;
    ScheduleKeeps(s, threads, end);
  }

  // ---------- No deadlock ----------

  /** Who holds something has not finished; who holds a connection mutex can go on. */
  lemma HoldersGoOn(s: System, t: nat)
    requires Formed(s) && t < |s.at|
    ensures HeldBy(s, t) != NOTHING ==> Running(s, t)
    ensures HeldBy(s, t).connection != None ==> Running(s, t) && !NextOp(s, t).LockConnection?
    ensures HeldBy(s, t) != NOTHING && Running(s, t) ==> !NextOp(s, t).LockList?
  {
    if s.at[t] == |s.programs[t]| {
      assert s.programs[t][..s.at[t]] == s.programs[t];
    } else {
      HeldAfterStep(s, t);
    }
  }

  /** A chain of waiting threads has at most one link: whoever is waited for by a waiting thread does not wait. */
  lemma ChainsAreShort(s: System, t: nat, u: nat, v: nat, w: nat)
    requires Formed(s) && t < |s.at| && u < |s.at| && v < |s.at|
    requires WaitsFor(s, t, u) && WaitsFor(s, u, v)
    ensures !WaitsFor(s, v, w)
  {
    HoldersGoOn(s, u);
    HoldersGoOn(s, v);
    hide HeldBy;
  }

  /** Each of the threads waits for the next one, and the last for the first. */
  predicate Cycle(s: System, threads: seq<nat>)
    requires Formed(s)
  {
    && threads != []
    && (forall k :: 0 <= k < |threads| ==> threads[k] < |s.at|)
    && (forall k :: 0 <= k < |threads| - 1 ==> WaitsFor(s, threads[k], threads[k + 1]))
    && WaitsFor(s, threads[|threads| - 1], threads[0])
  }

  /** In no state do threads wait in a cycle. */
  lemma NoCyclicWait(s: System, threads: seq<nat>)
    requires Formed(s)
    ensures !Cycle(s, threads)
  {
    if Cycle(s, threads) {
      var n := |threads|;
      var b := if n > 1 then threads[1] else threads[0];
      var c := if n > 2 then threads[2] else threads[0];
      var d := if n > 3 then threads[3] else if n == 2 then threads[1] else threads[0];
      ChainsAreShort(s, threads[0], b, c, d);
      assert false;
    }
  }

  /** While any mutex is held, one of its holders can step. */
  lemma SomeHolderSteps(s: System, t: nat) returns (u: nat)
    requires Formed(s) && t < |s.at| && HeldBy(s, t) != NOTHING
    ensures u < |s.at| && HeldBy(s, u) != NOTHING && CanStep(s, u)
  {
    HoldersGoOn(s, t);
    if v: nat :| v < |s.at| && WaitsFor(s, t, v) {
      HoldersGoOn(s, v);
      u := v;
    } else {
      u := t;
    }
    hide HeldBy;
  }

  /** Unless every thread has finished, some thread can step; so every schedule can be carried on to the end. */
  lemma NoDeadlock(s: System, t: nat) returns (u: nat)
    requires Formed(s) && Running(s, t)
    ensures CanStep(s, u)
  {
    if v: nat :| v < |s.at| && HeldBy(s, v) != NOTHING {
      u := SomeHolderSteps(s, v);
    } else {
      u := t;
    }
  }

  function Left(programs: seq<seq<Op>>, at: seq<nat>): nat
    requires |at| == |programs| && forall t :: 0 <= t < |at| ==> at[t] <= |programs[t]|
  {
    if at == [] then 0 else |programs[0]| - at[0] + Left(programs[1..], at[1..])
  }

  lemma {:induction false} LeftDrops(programs: seq<seq<Op>>, at: seq<nat>, t: nat)
    requires |at| == |programs| && forall t :: 0 <= t < |at| ==> at[t] <= |programs[t]|
    requires t < |at| && at[t] < |programs[t]|
    ensures Left(programs, at[t := at[t] + 1]) == Left(programs, at) - 1
  {
    if t > 0 {
      LeftDrops(programs[1..], at[1..], t - 1);
      assert at[t := at[t] + 1][1..] == at[1..][t - 1 := at[1..][t - 1] + 1];
    } else {
      assert at[t := at[t] + 1][1..] == at[1..];
    }
  }

  /** From every state all threads can be scheduled to the end of their programs. */
  lemma {:induction false} AllFinish(s: System) returns (threads: seq<nat>, end: System)
    requires Formed(s)
    ensures Schedule(s, threads, end)
    ensures Formed(end) && forall t :: 0 <= t < |end.at| ==> !Running(end, t)
    decreases Left(s.programs, s.at)
  {
    if t: nat :| t < |s.at| && Running(s, t) {
      var u := NoDeadlock(s, t);
      HeldAfterStep(s, u);
      LeftDrops(s.programs, s.at, u);
      var rest;
      rest, end := AllFinish(Step(s, u));
      threads := [u] + rest;
      assert threads[1..] == rest;
    } else {
      threads, end := [], s;
    }
  }
}
