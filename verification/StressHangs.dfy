/** The mutexes of the stress tester as they are, for threads that need not keep the discipline, and the calls they guard. */
module StressHangs {
  import opened Optional
  import opened StressLocks

  datatype Mutex = List(i: nat) | Connection(p: nat)

  function Lock(m: Mutex): Op {
    match m case List(i) => LockList(i) case Connection(p) => LockConnection(p)
  }

  function Unlock(m: Mutex): Op {
    match m case List(i) => UnlockList(i) case Connection(p) => UnlockConnection(p)
  }

  /** The first n operations lock the mutex and have not unlocked it since. */
  predicate Owns(ops: seq<Op>, n: nat, m: Mutex)
    requires n <= |ops|
  {
    exists j :: 0 <= j < n && ops[j] == Lock(m) && forall i :: j < i < n ==> ops[i] != Unlock(m)
  }

  predicate Placed(s: System) {
    |s.at| == |s.programs| && forall t :: 0 <= t < |s.at| ==> s.at[t] <= |s.programs[t]|
  }

  /** A lock waits while anyone owns the mutex, the thread itself included. */
  ghost predicate MayStep(s: System, t: nat)
    requires Placed(s)
  {
    && t < |s.at| && s.at[t] < |s.programs[t]|
    && forall m, u :: 0 <= u < |s.at| && s.programs[t][s.at[t]] == Lock(m) ==> !Owns(s.programs[u], s.at[u], m)
  }

  function Advanced(s: System, t: nat): System
    requires Placed(s) && t < |s.at|
  {
    s.(at := s.at[t := s.at[t] + 1])
  }

  /** Any schedule: each entry names the thread that takes the next step. */
  ghost predicate Goes(s: System, threads: seq<nat>, end: System)
    requires Placed(s)
    decreases |threads|
  {
    if threads == [] then end == s
    else MayStep(s, threads[0]) && Goes(Advanced(s, threads[0]), threads[1..], end)
  }

  // ---------- Threads that keep the discipline ----------

  lemma OwnsMore(ops: seq<Op>, n: nat, m: Mutex)
    requires n < |ops|
    ensures Owns(ops, n + 1, m) <==> ops[n] == Lock(m) || (Owns(ops, n, m) && ops[n] != Unlock(m))
  {
    if Owns(ops, n, m) && ops[n] != Unlock(m) {
      var j :| 0 <= j < n && ops[j] == Lock(m) && forall i :: j < i < n ==> ops[i] != Unlock(m);
      assert forall i :: j < i < n + 1 ==> ops[i] != Unlock(m);
    }
  }

  /** While the discipline is kept, a thread owns exactly what it is said to hold. */
  lemma {:induction false} OwnsIsHeld(ops: seq<Op>, n: nat, h: Held, m: Mutex)
    requires n <= |ops| && After(NOTHING, ops[..n]) == Some(h)
    ensures Owns(ops, n, m) <==> match m case List(i) => h.list == Some(i) case Connection(p) => h.connection == Some(p)
  {
    if n > 0 {
      assert ops[..n][..n - 1] == ops[..n - 1];
      OwnsIsHeld(ops, n - 1, After(NOTHING, ops[..n - 1]).value, m);
      OwnsMore(ops, n - 1, m);
    }
  }

  /** So for balanced programs the threads that may step are the same. */
  lemma SameSteps(s: System, t: nat)
    requires Formed(s)
    ensures MayStep(s, t) <==> CanStep(s, t)
  {
    forall u, m | 0 <= u < |s.at|
      ensures Owns(s.programs[u], s.at[u], m) <==>
              match m case List(i) => HeldBy(s, u).list == Some(i) case Connection(p) => HeldBy(s, u).connection == Some(p)
    {
      PrefixDisciplined(s.programs[u], s.at[u]);
      OwnsIsHeld(s.programs[u], s.at[u], HeldBy(s, u), m);
    }
    hide Owns, HeldBy;
    if Running(s, t) && MayStep(s, t) {
      var op := NextOp(s, t);
      if op.LockList? { assert op == Lock(List(op.i)); }
      if op.LockConnection? { assert op == Lock(Connection(op.p)); }
    }
    if CanStep(s, t) {
      forall m, u | 0 <= u < |s.at| && s.programs[t][s.at[t]] == Lock(m) ensures !Owns(s.programs[u], s.at[u], m) {
        assert !WaitsFor(s, t, u);
      }
    }
  }

  // ---------- Threads that came back early ----------

  /** Every unlock of list k has a lock of it before it. */
  predicate LocksFirst(ops: seq<Op>, k: nat) {
    forall j :: 0 <= j < |ops| && ops[j] == UnlockList(k) ==> LockList(k) in ops[..j]
  }

  lemma LocksFirstAppend(a: seq<Op>, b: seq<Op>, k: nat)
    requires LocksFirst(a, k) && LocksFirst(b, k)
    ensures LocksFirst(a + b, k)
  {
    var ops := a + b;
    forall j | 0 <= j < |ops| && ops[j] == UnlockList(k) ensures LockList(k) in ops[..j] {
      if j < |a| {
        assert ops[..j] == a[..j];
      } else {
        assert ops[..j] == a + b[..j - |a|];
      }
    }
  }

  lemma {:induction false} RepeatLocksFirst(parallel: bool, p: nat, n: nat, k: nat)
    ensures LocksFirst(Repeat(ConnectionOps(parallel, p), n), k)
  {
    if n > 0 {
      RepeatLocksFirst(parallel, p, n - 1, k);
      LocksFirstAppend(Repeat(ConnectionOps(parallel, p), n - 1), ConnectionOps(parallel, p), k);
    }
  }

  lemma UnderLocksFirst(i: nat, inner: seq<Op>, k: nat)
    requires LocksFirst(inner, k)
    ensures LocksFirst([LockList(i)] + inner + [UnlockList(i)], k)
  {
    LocksFirstAppend([LockList(i)], inner, k);
    var ops := [LockList(i)] + inner + [UnlockList(i)];
    forall j | 0 <= j < |ops| && ops[j] == UnlockList(k) ensures LockList(k) in ops[..j] {
      if j < |inner| + 1 {
        assert ops[..j] == ([LockList(i)] + inner)[..j];
      } else {
        assert ops[..j][0] == LockList(i);
      }
    }
  }

  lemma {:induction false} HandlerLocksFirst(parallel: bool, p: nat, lookups: seq<Lookup>, i: nat, k: nat)
    requires i <= |lookups|
    ensures LocksFirst(WriteHandler(parallel, p, lookups, i), k)
    decreases |lookups| - i
  {
    if i < |lookups| && !ReturnsEarly(lookups[i]) {
      var inner := if lookups[i].Executed? then ConnectionOps(parallel, p) else [];
      HandlerLocksFirst(parallel, p, lookups, i + 1, k);
      UnderLocksFirst(i, inner, k);
      LocksFirstAppend([LockList(i)] + inner + [UnlockList(i)], WriteHandler(parallel, p, lookups, i + 1), k);
    }
  }

  /** Whatever routines a thread runs, with or without early returns, it unlocks no list it has not locked. */
  lemma {:induction false} ProgramLocksFirst(rs: seq<Routine>, parallel: bool, p: nat, k: nat)
    ensures LocksFirst(Program(rs, parallel, p), k)
  {
    if rs != [] {
      ProgramLocksFirst(rs[1..], parallel, p, k);
      match rs[0] {
        case ListWork(i, n) =>
          RepeatLocksFirst(parallel, p, n, k);
          UnderLocksFirst(i, Repeat(ConnectionOps(parallel, p), n), k);
        case ConnectionCall(q) =>
        case HandleWrite(lookups) => HandlerLocksFirst(parallel, p, lookups, 0, k);
      }
      LocksFirstAppend(OpsOf(rs[0], parallel, p), Program(rs[1..], parallel, p), k);
    }
  }

  /** An owner that would have to lock the mutex before unlocking it keeps it, and nobody passes a lock of it. */
  lemma {:induction false} NobodyPasses(s: System, threads: seq<nat>, end: System, t: nat, k: nat)
    requires Placed(s) && Goes(s, threads, end) && t < |s.at|
    requires Owns(s.programs[t], s.at[t], List(k)) && LocksFirst(s.programs[t][s.at[t]..], k)
    ensures Placed(end) && end.programs == s.programs && |end.at| == |s.at|
    ensures Owns(end.programs[t], end.at[t], List(k))
    ensures forall u, j :: 0 <= u < |s.at| && s.at[u] <= j < |s.programs[u]| && s.programs[u][j] == LockList(k) ==>
      end.at[u] <= j
    decreases |threads|
  {
    if threads != [] {
      var v := threads[0];
      assert Lock(List(k)) == LockList(k);
      assert s.programs[v][s.at[v]] != LockList(k);
      if v == t {
        OwnerSteps(s.programs[t], s.at[t], k);
      }
      NobodyPasses(Advanced(s, v), threads[1..], end, t, k);
    }
  }

  lemma OwnerSteps(ops: seq<Op>, n: nat, k: nat)
    requires n < |ops| && Owns(ops, n, List(k)) && LocksFirst(ops[n..], k) && ops[n] != LockList(k)
    ensures Owns(ops, n + 1, List(k)) && LocksFirst(ops[n + 1..], k)
  {
    OwnsMore(ops, n, List(k));
    var rest, later := ops[n..], ops[n + 1..];
    assert rest[0] == ops[n];
    assert rest[..0] == [];
    forall j | 0 <= j < |later| && later[j] == UnlockList(k) ensures LockList(k) in later[..j] {
      assert rest[j + 1] == later[j];
      assert rest[..j + 1] == [ops[n]] + later[..j];
    }
  }

  lemma {:induction false} ProgramParts(a: seq<Routine>, b: seq<Routine>, parallel: bool, p: nat)
    ensures Program(a + b, parallel, p) == Program(a, parallel, p) + Program(b, parallel, p)
  {
    if a == [] {
      assert a + b == b;
    } else {
      assert (a + b)[0] == a[0] && (a + b)[1..] == a[1..] + b;
      ProgramParts(a[1..], b, parallel, p);
    }
  }

  /** The position in a thread's program right after a routine. */
  function AfterRoutine(before: seq<Routine>, r: Routine, parallel: bool, p: nat): nat {
    |Program(before, parallel, p)| + |OpsOf(r, parallel, p)|
  }

  /** A write handler that comes back early leaves its thread with the mutex of the list it stopped at. */
  lemma EarlyReturnOwns(before: seq<Routine>, lookups: seq<Lookup>, after: seq<Routine>, parallel: bool, p: nat, k: nat)
    requires k < |lookups| && ReturnsEarly(lookups[k]) && forall j :: 0 <= j < k ==> !ReturnsEarly(lookups[j])
    ensures var ops := Program(before + [HandleWrite(lookups)] + after, parallel, p);
            var e := AfterRoutine(before, HandleWrite(lookups), parallel, p);
            e <= |ops| && Owns(ops, e, List(k)) && ops[e..] == Program(after, parallel, p)
  {
    var r := HandleWrite(lookups);
    var first, handler, rest := Program(before, parallel, p), OpsOf(r, parallel, p), Program(after, parallel, p);
    ProgramParts(before + [r], after, parallel, p);
    ProgramParts(before, [r], parallel, p);
    assert Program([r], parallel, p) == handler by { assert [r][1..] == []; }
    EndsLocking(parallel, p, lookups, 0, k);
    var ops, e := first + handler + rest, |first| + |handler|;
    assert ops[e - 1] == handler[|handler| - 1];
    assert Lock(List(k)) == LockList(k);
  }

  lemma {:induction false} EndsLocking(parallel: bool, p: nat, lookups: seq<Lookup>, i: nat, k: nat)
    requires i <= k < |lookups| && ReturnsEarly(lookups[k]) && forall j :: i <= j < k ==> !ReturnsEarly(lookups[j])
    ensures var ops := WriteHandler(parallel, p, lookups, i); ops != [] && ops[|ops| - 1] == LockList(k)
    decreases k - i
  {
    if i < k {
      EndsLocking(parallel, p, lookups, i + 1, k);
    }
  }

  /**
   * From the moment a write handler has come back early with list k, under every schedule and whatever the thread runs
   * afterwards: the thread keeps the mutex, and no thread gets past a lock of list k that is still ahead of it.
   */
  lemma NeverReleased(s: System, threads: seq<nat>, end: System, t: nat, k: nat,
      before: seq<Routine>, lookups: seq<Lookup>, after: seq<Routine>, parallel: bool, p: nat)
    requires Placed(s) && Goes(s, threads, end) && t < |s.at|
    requires k < |lookups| && ReturnsEarly(lookups[k]) && forall j :: 0 <= j < k ==> !ReturnsEarly(lookups[j])
    requires s.programs[t] == Program(before + [HandleWrite(lookups)] + after, parallel, p)
    requires s.at[t] == AfterRoutine(before, HandleWrite(lookups), parallel, p)
    ensures Placed(end) && end.programs == s.programs && |end.at| == |s.at|
    ensures Owns(end.programs[t], end.at[t], List(k))
    ensures forall u, j :: 0 <= u < |s.at| && s.at[u] <= j < |s.programs[u]| && s.programs[u][j] == LockList(k) ==>
      end.at[u] <= j
  {
    EarlyReturnOwns(before, lookups, after, parallel, p, k);
    ProgramLocksFirst(after, parallel, p, k);
    hide Goes, AfterRoutine, Program, Owns, LocksFirst;
    NobodyPasses(s, threads, end, t, k);
  }

  // ---------- Calls into the connections ----------

  /** Every call into a connection comes right after its lock. */
  predicate UsesLocked(ops: seq<Op>) {
    forall j :: 0 <= j < |ops| && ops[j].UseConnection? ==> j > 0 && ops[j - 1] == LockConnection(ops[j].p)
  }

  lemma UsesAppend(a: seq<Op>, b: seq<Op>)
    requires UsesLocked(a) && UsesLocked(b)
    ensures UsesLocked(a + b)
  {
    var ops := a + b;
    forall j | 0 <= j < |ops| && ops[j].UseConnection? ensures j > 0 && ops[j - 1] == LockConnection(ops[j].p) {
      if j >= |a| { assert ops[j] == b[j - |a|]; }
    }
  }

  lemma {:induction false} RepeatUses(p: nat, n: nat)
    ensures UsesLocked(Repeat(ConnectionOps(true, p), n))
  {
    if n > 0 {
      RepeatUses(p, n - 1);
      UsesAppend(Repeat(ConnectionOps(true, p), n - 1), ConnectionOps(true, p));
    }
  }

  lemma UnderUses(i: nat, inner: seq<Op>)
    requires UsesLocked(inner)
    ensures UsesLocked([LockList(i)] + inner + [UnlockList(i)])
  {
    UsesAppend([LockList(i)], inner);
    UsesAppend([LockList(i)] + inner, [UnlockList(i)]);
  }

  lemma {:induction false} HandlerUses(p: nat, lookups: seq<Lookup>, i: nat)
    requires i <= |lookups|
    ensures UsesLocked(WriteHandler(true, p, lookups, i))
    decreases |lookups| - i
  {
    if i < |lookups| && !ReturnsEarly(lookups[i]) {
      var inner := if lookups[i].Executed? then ConnectionOps(true, p) else [];
      HandlerUses(p, lookups, i + 1);
      UnderUses(i, inner);
      UsesAppend([LockList(i)] + inner + [UnlockList(i)], WriteHandler(true, p, lookups, i + 1));
    }
  }

  /** With the lock asked for, whatever routines a thread runs, it owns the connection it calls into. */
  lemma {:induction false} CallsAreLocked(rs: seq<Routine>, p: nat)
    ensures UsesLocked(Program(rs, true, p))
    ensures var ops := Program(rs, true, p);
            forall j :: 0 <= j < |ops| && ops[j].UseConnection? ==> Owns(ops, j, Connection(ops[j].p))
  {
    if rs != [] {
      CallsAreLocked(rs[1..], p);
      match rs[0] {
        case ListWork(i, n) =>
          RepeatUses(p, n);
          UnderUses(i, Repeat(ConnectionOps(true, p), n));
        case ConnectionCall(q) =>
        case HandleWrite(lookups) => HandlerUses(p, lookups, 0);
      }
      UsesAppend(OpsOf(rs[0], true, p), Program(rs[1..], true, p));
    }
    var ops := Program(rs, true, p);
    hide Program;
    forall j | 0 <= j < |ops| && ops[j].UseConnection? ensures Owns(ops, j, Connection(ops[j].p)) {
      assert ops[j - 1] == Lock(Connection(ops[j].p));
    }
  }

  /** No mutex has two owners. */
  ghost predicate Apart(s: System)
    requires Placed(s)
  {
    forall t, u, m :: 0 <= t < |s.at| && 0 <= u < |s.at| && t != u && Owns(s.programs[t], s.at[t], m) ==>
      !Owns(s.programs[u], s.at[u], m)
  }

  lemma StepApart(s: System, v: nat)
    requires Placed(s) && Apart(s) && MayStep(s, v)
    ensures Placed(Advanced(s, v)) && Apart(Advanced(s, v))
  {
    var e := Advanced(s, v);
    forall m ensures Owns(e.programs[v], e.at[v], m) <==>
      s.programs[v][s.at[v]] == Lock(m) || (Owns(s.programs[v], s.at[v], m) && s.programs[v][s.at[v]] != Unlock(m))
    {
      OwnsMore(s.programs[v], s.at[v], m);
    }
    hide Owns;
  }

  lemma {:induction false} GoesApart(s: System, threads: seq<nat>, end: System)
    requires Placed(s) && Apart(s) && Goes(s, threads, end)
    ensures Placed(end) && Apart(end)
    ensures end.programs == s.programs && |end.at| == |s.at|
    decreases |threads|
  {
    if threads != [] {
      StepApart(s, threads[0]);
      hide Apart, MayStep;
      GoesApart(Advanced(s, threads[0]), threads[1..], end);
    }
  }

  /**
   * Any number of threads that run any routines, early returns included, with the lock asked for: from their start, under
   * every schedule, no two of them are calling into one connection.
   */
  lemma OneCallAtATime(s: System, threads: seq<nat>, end: System, t: nat, u: nat, routines: seq<seq<Routine>>, ps: seq<nat>)
    requires Placed(s) && Goes(s, threads, end) && (forall v :: 0 <= v < |s.at| ==> s.at[v] == 0)
    requires |routines| == |ps| == |s.at| && forall v :: 0 <= v < |s.at| ==> s.programs[v] == Program(routines[v], true, ps[v])
    requires t < |s.at| && u < |s.at| && t != u
    ensures Placed(end) && |end.at| == |s.at| && end.programs == s.programs
    ensures end.at[t] < |end.programs[t]| && end.at[u] < |end.programs[u]| && end.programs[t][end.at[t]].UseConnection? ==>
      end.programs[u][end.at[u]] != end.programs[t][end.at[t]]
  {
    assert Apart(s);
    GoesApart(s, threads, end);
    CallsAreLocked(routines[t], ps[t]);
    CallsAreLocked(routines[u], ps[u]);
    hide Goes, Program, Owns, UsesLocked;
  }

  /** The calls into connections among the operations. */
  function Uses(ops: seq<Op>): nat {
    if ops == [] then 0 else Uses(ops[..|ops| - 1]) + if ops[|ops| - 1].UseConnection? then 1 else 0
  }

  lemma {:induction false} UsesSum(a: seq<Op>, b: seq<Op>)
    ensures Uses(a + b) == Uses(a) + Uses(b)
  {
    if b == [] {
      assert a + b == a;
    } else {
      assert (a + b)[..|a + b| - 1] == a + b[..|b| - 1];
      UsesSum(a, b[..|b| - 1]);
    }
  }

  lemma OneUse(parallel: bool, p: nat)
    ensures Uses(ConnectionOps(parallel, p)) == 1
  {
    var ops := ConnectionOps(parallel, p);
    if parallel {
      assert ops[..2] == [LockConnection(p), UseConnection(p)] && ops[..2][..1] == [LockConnection(p)];
      assert ops[..2][..1][..0] == [];
      assert Uses(ops[..2][..1]) == 0;
    } else {
      assert ops[..0] == [];
    }
  }

  lemma {:induction false} RepeatUsesCount(parallel: bool, p: nat, n: nat)
    ensures Uses(Repeat(ConnectionOps(parallel, p), n)) == n
  {
    if n > 0 {
      RepeatUsesCount(parallel, p, n - 1);
      OneUse(parallel, p);
      UsesSum(Repeat(ConnectionOps(parallel, p), n - 1), ConnectionOps(parallel, p));
    }
  }

  lemma SingleUses(i: nat)
    ensures Uses([LockList(i)]) == 0 && Uses([UnlockList(i)]) == 0
  {
    assert [LockList(i)][..0] == [] && [UnlockList(i)][..0] == [];
  }

  lemma UnderUsesCount(i: nat, inner: seq<Op>)
    ensures Uses([LockList(i)] + inner + [UnlockList(i)]) == Uses(inner)
  {
    SingleUses(i);
    UsesSum([LockList(i)], inner);
    UsesSum([LockList(i)] + inner, [UnlockList(i)]);
  }

  /** The executed resources before the first early return. */
  function ExecutedFrom(lookups: seq<Lookup>, i: nat): nat
    requires i <= |lookups|
    decreases |lookups| - i
  {
    if i == |lookups| || ReturnsEarly(lookups[i]) then 0
    else (if lookups[i].Executed? then 1 else 0) + ExecutedFrom(lookups, i + 1)
  }

  /** The write handler writes back exactly for the executed resources before its first early return, lock or no lock. */
  lemma {:induction false} HandlerCalls(parallel: bool, p: nat, lookups: seq<Lookup>, i: nat)
    requires i <= |lookups|
    ensures Uses(WriteHandler(parallel, p, lookups, i)) == ExecutedFrom(lookups, i)
    decreases |lookups| - i
  {
    if i < |lookups| {
      SingleUses(i);
      if !ReturnsEarly(lookups[i]) {
        var inner := if lookups[i].Executed? then ConnectionOps(parallel, p) else [];
        HandlerCalls(parallel, p, lookups, i + 1);
        OneUse(parallel, p);
        UnderUsesCount(i, inner);
        UsesSum([LockList(i)] + inner + [UnlockList(i)], WriteHandler(parallel, p, lookups, i + 1));
      }
    }
  }
}
