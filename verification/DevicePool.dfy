/** The device lists of the test threads. */
module DevicePool {
  import Search
  import opened Optional
  import opened Decimals
  import opened StressLocks

  const INT_MAX := 0x7FFF_FFFF

  /** A device with the number of its allocation, which is never used again. */
  datatype Entry = Entry(id: string, number: nat, registered: bool)

  type List = seq<Entry>

  /** get_random_device_id */
  function DeviceId(thread: nat, num: nat): string {
    "rand-" + Decimal(thread) + "-" + Decimal(num)
  }

  lemma DeviceIdInjective(t: nat, n: nat, t': nat, n': nat)
    requires DeviceId(t, n) == DeviceId(t', n')
    ensures t == t' && n == n'
  {
    LastSeparator("rand-" + Decimal(t), Decimal(n), "rand-" + Decimal(t'), Decimal(n'), '-');
    assert ("rand-" + Decimal(t))[5..] == Decimal(t);
    assert ("rand-" + Decimal(t'))[5..] == Decimal(t');
    DecimalInjective(n, n');
    DecimalInjective(t, t');
  }

  // ---------- The scaled random choice ----------

  /** C division truncates toward zero. */
  function Quotient(a: int, b: int): int
    requires b != 0
  {
    if (a >= 0) == (b > 0) then (if a >= 0 then a else -a) / (if b > 0 then b else -b)
    else -((if a >= 0 then a else -a) / (if b > 0 then b else -b))
  }

  /** A sum of two ints that may exceed the range by one wraps to 32 bits. */
  function Wrap(a: int): (b: int)
    requires 0 < a <= INT_MAX + 1
    ensures b != 0 && (a <= INT_MAX ==> b == a) && (a > INT_MAX ==> b == -INT_MAX - 1)
  {
    if a > INT_MAX then a - 0x1_0000_0000 else a
  }

  lemma DivisorBounds(m: nat, n: nat)
    requires n > 0
    ensures m / n <= m && (n > 1 && m > 0 ==> m / n < m)
    ensures m < (m / n + 1) * n
  {
    var q := m / n;
    assert m == q * n + m % n;
    if n > 1 { Monotone(2, n, q); } else { Monotone(1, n, q); }
  }

  lemma Monotone(k: nat, n: nat, q: nat)
    requires k <= n
    ensures q * k <= q * n
  {
  }

  function Share(m: nat, n: nat): (q: nat)
    requires n > 0
    ensures q <= m < (q + 1) * n
  {
    DivisorBounds(m, n);
    m / n
  }

  /** rand() / (RAND_MAX / n + 1); for n = 1 and the largest RAND_MAX the divisor wraps. */
  function Choice(r: nat, randMax: nat, n: nat): int
    requires n > 0 && randMax <= INT_MAX
  {
    Quotient(r, Wrap(Share(randMax, n) + 1))
  }

  lemma QuotientBelow(r: nat, k: nat, n: nat)
    requires k > 0 && r < k * n
    ensures 0 <= r / k < n
  {
    var q := r / k;
    assert r == q * k + r % k;
    if q >= n {
      Monotone(n, q, k);
    }
  }

  /** The choice is an index of the list for every random number, also where the divisor wraps. */
  lemma ChoiceInRange(r: nat, randMax: nat, n: nat)
    requires 0 < n && r <= randMax <= INT_MAX
    ensures 0 <= Choice(r, randMax, n) < n
  {
    hide Share, Quotient, Wrap;
    Scaled(r, Share(randMax, n), n);
  }

  lemma Scaled(r: nat, q: nat, n: nat)
    requires q <= INT_MAX && r <= INT_MAX && n > 0 && r < (q + 1) * n
    ensures 0 <= Quotient(r, Wrap(q + 1)) < n
  {
    hide Quotient;
    var k := Wrap(q + 1);
    QuotientOf(r, k);
    if q < INT_MAX {
      QuotientBelow(r, k, n);
    } else {
      Small(r, -k);
    }
  }

  /** Every index of a longer list gets its share of the random numbers, one after the other; one entry gets them all. */
  lemma ChoiceShares(r: nat, randMax: nat, n: nat)
    requires 0 < n && r <= randMax <= INT_MAX
    ensures var k, share := Choice(r, randMax, n), randMax / n + 1;
            if n == 1 then k == 0 else k * share <= r < (k + 1) * share
  {
    ChoiceInRange(r, randMax, n);
    if n > 1 {
      DivisorBounds(randMax, n);
      var share := randMax / n + 1;
      assert Choice(r, randMax, n) == r / share;
      assert r == (r / share) * share + r % share;
    }
  }

  lemma QuotientOf(r: nat, k: int)
    requires k != 0
    ensures Quotient(r, k) == if k > 0 then r / k else -(r / -k)
  {
  }

  lemma Small(r: nat, k: nat)
    requires r < k
    ensures r / k == 0
  {
  }

  // ---------- One list ----------

  function Find(list: List, id: string): (k: nat)
    ensures k <= |list|
    ensures k < |list| ==> list[k].id == id
    ensures forall j :: 0 <= j < k ==> list[j].id != id
  {
    Search.First(list, (e: Entry) => e.id == id)
  }

  predicate Listed(list: List, id: string) { Find(list, id) < |list| }

  /** The first of the drawn numbers whose id is not listed; all of them drawn when there is none. */
  function FirstFresh(list: List, thread: nat, draws: seq<nat>): (k: nat)
    ensures k <= |draws|
    ensures k < |draws| ==> !Listed(list, DeviceId(thread, draws[k]))
    ensures forall j :: 0 <= j < k ==> Listed(list, DeviceId(thread, draws[j]))
  {
    Search.First(draws, (n: nat) => !Listed(list, DeviceId(thread, n)))
  }

  predicate Drawn(list: List, thread: nat, draws: seq<nat>) { FirstFresh(list, thread, draws) < |draws| }

  /** register_random_device */
  function Registered(list: List, thread: nat, draws: seq<nat>, number: nat, max: int): List
    requires |list| < max ==> Drawn(list, thread, draws)
  {
    if |list| >= max then list
    else list + [Entry(DeviceId(thread, draws[FirstFresh(list, thread, draws)]), number, false)]
  }

  function Removed(list: List, k: nat): List
    requires k < |list|
  {
    list[..k] + list[k + 1..]
  }

  /** unregister_random_device: the entry goes at once when the request fails, otherwise with its answer. */
  function Unregistered(list: List, r: nat, randMax: nat, accepted: bool, min: int): List
    requires r <= randMax <= INT_MAX
  {
    if |list| <= min || |list| == 0 || accepted then list
    else
      ChoiceInRange(r, randMax, |list|);
      Removed(list, Choice(r, randMax, |list|))
  }

  /** unregister_devices: the entries whose request was accepted stay until their answer. */
  function Flushed(list: List, accepted: seq<bool>): List
    requires |accepted| == |list|
  {
    if list == [] then []
    else (if accepted[0] then [list[0]] else []) + Flushed(list[1..], accepted[1..])
  }

  /** The registration of a listed device is confirmed. */
  function Confirmed(list: List, id: string): List
    requires Listed(list, id)
  {
    var k := Find(list, id);
    list[k := list[k].(registered := true)]
  }

  /** The unregistration of a listed device is confirmed. */
  function Dropped(list: List, id: string): List
    requires Listed(list, id)
  {
    Removed(list, Find(list, id))
  }

  /** Unregistering one device takes at most the chosen entry, and none at the minimum or when the request is accepted. */
  lemma UnregisteredExactly(list: List, r: nat, randMax: nat, accepted: bool, min: int)
    requires r <= randMax <= INT_MAX
    ensures var after := Unregistered(list, r, randMax, accepted, min);
            && (|list| >= min ==> |after| >= min)
            && (after != list <==> !accepted && |list| > min && list != [])
            && (after != list ==>
                  var k := Choice(r, randMax, |list|);
                  0 <= k < |list| && after == list[..k] + list[k + 1..])
  {
    if list != [] { ChoiceInRange(r, randMax, |list|); }
    hide Choice;
  }

  // ---------- All lists ----------

  ghost predicate Generated(id: string, thread: nat) {
    exists n: nat :: id == DeviceId(thread, n)
  }

  ghost predicate Owned(list: List, thread: nat, max: int) {
    && (list == [] || |list| <= max)
    && (forall k :: 0 <= k < |list| ==> Generated(list[k].id, thread))
    && forall j, k :: 0 <= j < k < |list| ==> list[j].id != list[k].id
  }

  datatype Event =
    | Register(thread: nat, draws: seq<nat>)
    | Unregister(thread: nat, r: nat, accepted: bool)
    | UnregisterAll(thread: nat, answers: seq<bool>)
    | RegistrationSucceeded(thread: nat, id: string)
    | UnregistrationSucceeded(thread: nat, id: string)

  /** The lists of all threads, and the number of the next entry. */
  datatype Pool = Pool(lists: seq<List>, next: nat)

  datatype Limits = Limits(min: int, max: int, randMax: nat)

  /**
   * What the routines rely on: random numbers in range, a fresh one among those drawn when one is drawn for, and
   * answers for listed devices, since the callbacks use what they find without a check.
   */
  predicate Legal(p: Pool, e: Event, l: Limits) {
    && e.thread < |p.lists| && l.randMax <= INT_MAX
    && var list := p.lists[e.thread];
    match e
    case Register(t, draws) => |list| < l.max ==> Drawn(list, t, draws)
    case Unregister(_, r, _) => r <= l.randMax
    case UnregisterAll(_, answers) => |answers| == |list|
    case RegistrationSucceeded(_, id) => Listed(list, id)
    case UnregistrationSucceeded(_, id) => Listed(list, id)
  }

  function Changed(p: Pool, e: Event, l: Limits): List
    requires Legal(p, e, l)
  {
    var list := p.lists[e.thread];
    match e
    case Register(t, draws) => Registered(list, t, draws, p.next, l.max)
    case Unregister(_, r, accepted) => Unregistered(list, r, l.randMax, accepted, l.min)
    case UnregisterAll(_, answers) => Flushed(list, answers)
    case RegistrationSucceeded(_, id) => Confirmed(list, id)
    case UnregistrationSucceeded(_, id) => Dropped(list, id)
  }

  /** Each routine works on one list, under its mutex, so the threads interleave routine by routine. */
  function Step(p: Pool, e: Event, l: Limits): Pool
    requires Legal(p, e, l)
  {
    Pool(p.lists[e.thread := Changed(p, e, l)], if e.Register? then p.next + 1 else p.next)
  }

  predicate Run(p: Pool, es: seq<Event>, l: Limits, end: Pool)
    decreases |es|
  {
    if es == [] then p == end
    else Legal(p, es[0], l) && Run(Step(p, es[0], l), es[1..], l, end)
  }

  ghost predicate Older(list: List, next: nat) {
    forall k :: 0 <= k < |list| ==> list[k].number < next
  }

  ghost predicate PoolOk(p: Pool, max: int) {
    forall t :: 0 <= t < |p.lists| ==> Owned(p.lists[t], t, max) && Older(p.lists[t], p.next)
  }

  lemma RemovedOwned(list: List, k: nat, thread: nat, max: int)
    requires Owned(list, thread, max) && k < |list|
    ensures Owned(Removed(list, k), thread, max)
  {
    hide Generated;
    var r := Removed(list, k);
    assert forall j :: 0 <= j < |r| ==> r[j] == list[if j < k then j else j + 1];
  }

  lemma {:induction false} FlushedFrom(list: List, answers: seq<bool>)
    requires |answers| == |list|
    requires forall j, k :: 0 <= j < k < |list| ==> list[j].id != list[k].id
    ensures |Flushed(list, answers)| <= |list|
    ensures forall e :: e in Flushed(list, answers) ==> e in list
    ensures var r := Flushed(list, answers); forall j, k :: 0 <= j < k < |r| ==> r[j].id != r[k].id
  {
    if list != [] {
      FlushedFrom(list[1..], answers[1..]);
      var r, rest := Flushed(list, answers), Flushed(list[1..], answers[1..]);
      assert forall e :: e in list[1..] ==> e in list;
      forall j, k | 0 <= j < k < |r| ensures r[j].id != r[k].id {
        if answers[0] {
          assert r[k] == rest[k - 1] && rest[k - 1] in list[1..];
          if j > 0 { assert r[j] == rest[j - 1]; }
        } else {
          assert r == rest;
        }
      }
    }
  }

  lemma FlushedOwned(list: List, answers: seq<bool>, thread: nat, max: int)
    requires Owned(list, thread, max) && |answers| == |list|
    ensures Owned(Flushed(list, answers), thread, max)
  {
    hide Flushed, Generated;
    FlushedFrom(list, answers);
    var r := Flushed(list, answers);
    forall k | 0 <= k < |r| ensures Generated(r[k].id, thread) {
      assert r[k] in list;
      var j :| 0 <= j < |list| && list[j] == r[k];
    }
  }

  lemma RegisteredOwned(list: List, draws: seq<nat>, number: nat, thread: nat, max: int)
    requires Owned(list, thread, max) && (|list| < max ==> Drawn(list, thread, draws))
    ensures Owned(Registered(list, thread, draws, number, max), thread, max)
  {
    hide DeviceId;
    if |list| < max {
      var id := DeviceId(thread, draws[FirstFresh(list, thread, draws)]);
      assert !Listed(list, id);
    }
  }

  /** Every entry of a list after a routine was there before, with its flag set or not, or is a new one. */
  ghost predicate From(e: Entry, list: List) {
    exists k :: 0 <= k < |list| && list[k].id == e.id && list[k].number == e.number
  }

  lemma ChangedFrom(p: Pool, e: Event, l: Limits, x: Entry)
    requires PoolOk(p, l.max) && Legal(p, e, l) && x in Changed(p, e, l)
    ensures From(x, p.lists[e.thread]) || (e.Register? && x.number == p.next)
  {
    var list := p.lists[e.thread];
    hide DeviceId, Choice, Flushed, FirstFresh;
    if e.UnregisterAll? {
      assert Owned(list, e.thread, l.max);
      FlushedFrom(list, e.answers);
    }
  }

  lemma StepOk(p: Pool, e: Event, l: Limits)
    requires PoolOk(p, l.max) && Legal(p, e, l)
    ensures PoolOk(Step(p, e, l), l.max)
  {
    ChangedOwned(p, e, l);
    var changed := Changed(p, e, l);
    forall k | 0 <= k < |changed| ensures changed[k].number < Step(p, e, l).next {
      ChangedFrom(p, e, l, changed[k]);
      hide Changed, Owned;
    }
    hide Changed, Owned;
  }

  lemma ChangedOwned(p: Pool, e: Event, l: Limits)
    requires PoolOk(p, l.max) && Legal(p, e, l)
    ensures Owned(Changed(p, e, l), e.thread, l.max)
  {
    hide Owned, Registered, Removed, Flushed, Choice;
    var list, t := p.lists[e.thread], e.thread;
    match e
    case Register(_, draws) => RegisteredOwned(list, draws, p.next, t, l.max);
    case Unregister(_, r, accepted) =>
      if |list| > 0 {
        ChoiceInRange(r, l.randMax, |list|);
        RemovedOwned(list, Choice(r, l.randMax, |list|), t, l.max);
      }
    case UnregisterAll(_, answers) => FlushedOwned(list, answers, t, l.max);
    case RegistrationSucceeded(_, id) => ConfirmedOwned(list, id, t, l.max);
    case UnregistrationSucceeded(_, id) => RemovedOwned(list, Find(list, id), t, l.max);
  }

  lemma ConfirmedOwned(list: List, id: string, thread: nat, max: int)
    requires Owned(list, thread, max) && Listed(list, id)
    ensures Owned(Confirmed(list, id), thread, max)
  {
    hide DeviceId;
  }

  lemma {:induction false} RunOk(p: Pool, es: seq<Event>, l: Limits, end: Pool)
    requires PoolOk(p, l.max) && Run(p, es, l, end)
    ensures PoolOk(end, l.max) && |end.lists| == |p.lists|
    decreases |es|
  {
    hide PoolOk;
    if es != [] {
      StepOk(p, es[0], l);
      RunOk(Step(p, es[0], l), es[1..], l, end);
    }
  }

  /**
   * In every interleaving of any number of threads that start with empty lists: no list exceeds the maximum, and all
   * device ids are distinct, within a list and across the lists of different threads.
   */
  lemma IdsDistinctEverywhere(p: Pool, es: seq<Event>, l: Limits, end: Pool)
    requires (forall t :: 0 <= t < |p.lists| ==> p.lists[t] == []) && Run(p, es, l, end)
    ensures forall t :: 0 <= t < |end.lists| ==> end.lists[t] == [] || |end.lists[t]| <= l.max
    ensures forall t, k, t', k' ::
      0 <= t < |end.lists| && 0 <= k < |end.lists[t]| && 0 <= t' < |end.lists| && 0 <= k' < |end.lists[t']| ==>
      (end.lists[t][k].id == end.lists[t'][k'].id <==> t == t' && k == k')
  {
    RunOk(p, es, l, end);
    hide Run, DeviceId;
    var lists: seq<List> := end.lists;
    forall t, k, t', k' | 0 <= t < |lists| && 0 <= k < |lists[t]| && 0 <= t' < |lists| && 0 <= k' < |lists[t']|
      ensures lists[t][k].id == lists[t'][k'].id <==> t == t' && k == k'
    {
      assert Owned(lists[t], t, l.max) && Owned(lists[t'], t', l.max);
      var n: nat :| lists[t][k].id == DeviceId(t, n);
      var n': nat :| lists[t'][k'].id == DeviceId(t', n');
      if lists[t][k].id == lists[t'][k'].id {
        DeviceIdInjective(t, n, t', n');
      }
    }
  }

  // ---------- Callbacks that look their device up ----------

  /** The routine removes the device from the list. */
  predicate Drops(list: List, e: Event, l: Limits, id: string)
    requires l.randMax <= INT_MAX && (e.Unregister? ==> e.r <= l.randMax)
    requires e.UnregisterAll? ==> |e.answers| == |list|
  {
    match e
    case Unregister(_, r, accepted) =>
      |list| > l.min && |list| > 0 && !accepted
      && (ChoiceInRange(r, l.randMax, |list|); list[Choice(r, l.randMax, |list|)].id == id)
    case UnregisterAll(_, answers) => exists k :: 0 <= k < |list| && list[k].id == id && !answers[k]
    case UnregistrationSucceeded(_, other) => other == id
    case _ => false
  }

  ghost predicate DistinctIds(list: List) {
    forall j, k :: 0 <= j < k < |list| ==> list[j].id != list[k].id
  }

  lemma RemovedListed(list: List, k: nat, id: string)
    requires DistinctIds(list) && k < |list| && Listed(list, id)
    ensures Listed(Removed(list, k), id) <==> list[k].id != id
  {
    var r, i := Removed(list, k), Find(list, id);
    assert forall j :: 0 <= j < |r| ==> r[j] == list[if j < k then j else j + 1];
    if i != k {
      assert r[if i < k then i else i - 1] == list[i];
    }
  }

  lemma {:induction false} FlushedListed(list: List, answers: seq<bool>, i: nat)
    requires DistinctIds(list) && |answers| == |list| && i < |list|
    ensures Listed(Flushed(list, answers), list[i].id) <==> answers[i]
  {
    var id, rest := list[i].id, Flushed(list[1..], answers[1..]);
    FlushedFrom(list[1..], answers[1..]);
    ListedCons(list[0], rest, id);
    assert Flushed(list, answers) == if answers[0] then [list[0]] + rest else rest;
    if i == 0 {
      if k :| 0 <= k < |rest| && rest[k].id == id { assert rest[k] in list[1..]; }
    } else {
      assert list[0].id != id;
      FlushedListed(list[1..], answers[1..], i - 1);
    }
  }

  lemma ListedCons(e: Entry, rest: List, id: string)
    ensures Listed([e] + rest, id) <==> e.id == id || Listed(rest, id)
  {
    var k, j := Find([e] + rest, id), Find(rest, id);
    assert ([e] + rest)[0] == e;
    if j < |rest| { assert ([e] + rest)[j + 1] == rest[j]; }
    if 0 < k <= |rest| { assert rest[k - 1] == ([e] + rest)[k]; }
  }

  /** A listed device leaves its list exactly in the routines that remove it. */
  lemma ListedExactly(p: Pool, e: Event, l: Limits, t: nat, id: string)
    requires PoolOk(p, l.max) && Legal(p, e, l) && t < |p.lists| && Listed(p.lists[t], id)
    ensures Listed(Step(p, e, l).lists[t], id) <==> !(e.thread == t && Drops(p.lists[t], e, l, id))
  {
    var list := p.lists[t];
    assert Owned(list, t, l.max);
    if e.thread == t {
      hide DeviceId, Generated, Choice, Removed, Flushed;
      match e
      case Register(_, draws) => StillListed(list, Registered(list, t, draws, p.next, l.max), id);
      case Unregister(_, r, accepted) =>
        if |list| > 0 {
          ChoiceInRange(r, l.randMax, |list|);
          RemovedListed(list, Choice(r, l.randMax, |list|), id);
        }
      case UnregisterAll(_, answers) =>
        FlushedListed(list, answers, Find(list, id));
        assert forall k :: 0 <= k < |list| && list[k].id == id ==> k == Find(list, id);
      case RegistrationSucceeded(_, other) => ConfirmedListed(list, other, id);
      case UnregistrationSucceeded(_, other) => RemovedListed(list, Find(list, other), id);
    }
  }

  lemma StillListed(list: List, longer: List, id: string)
    requires Listed(list, id) && |list| <= |longer| && longer[..|list|] == list
    ensures Find(longer, id) == Find(list, id)
  {
    assert forall k :: 0 <= k < |list| ==> longer[k] == list[k];
  }

  lemma ConfirmedListed(list: List, other: string, id: string)
    requires Listed(list, other) && Listed(list, id)
    ensures Listed(Confirmed(list, other), id)
  {
    assert Confirmed(list, other)[Find(list, id)].id == id;
  }

  /** What the unchecked lookup of a callback returns: the entry with that number. */
  predicate Finds(list: List, id: string, number: nat) {
    Listed(list, id) && list[Find(list, id)].number == number
  }

  /** A listed entry that a routine does not remove is still the one the lookup returns. */
  lemma FindsExactly(p: Pool, e: Event, l: Limits, t: nat, id: string, number: nat)
    requires PoolOk(p, l.max) && Legal(p, e, l) && t < |p.lists| && Finds(p.lists[t], id, number)
    ensures Finds(Step(p, e, l).lists[t], id, number) <==> !(e.thread == t && Drops(p.lists[t], e, l, id))
  {
    ListedExactly(p, e, l, t, id);
    if e.thread == t && !Drops(p.lists[t], e, l, id) {
      var list, changed := p.lists[t], Changed(p, e, l);
      assert Owned(list, t, l.max);
      if e.Register? {
        StillListed(list, changed, id);
      } else {
        ChangedFrom(p, e, l, changed[Find(changed, id)]);
      }
    }
  }

  /** The flag of an entry that stays is set exactly by the confirmation of its registration. */
  lemma FlagExactly(p: Pool, e: Event, l: Limits, t: nat, id: string)
    requires PoolOk(p, l.max) && Legal(p, e, l) && t < |p.lists|
    requires Listed(p.lists[t], id) && Listed(Step(p, e, l).lists[t], id)
    ensures var list, after := p.lists[t], Step(p, e, l).lists[t];
            after[Find(after, id)].registered <==>
              list[Find(list, id)].registered || e == RegistrationSucceeded(t, id)
  {
    var list, after := p.lists[t], Step(p, e, l).lists[t];
    assert Owned(list, t, l.max);
    if e.thread == t {
      hide DeviceId, Generated, Choice, Flushed, Removed, FirstFresh, PoolOk;
      if e.Register? {
        StillListed(list, after, id);
      } else if e.RegistrationSucceeded? {
        ConfirmedFlag(list, e.id, id);
      } else {
        ChangedIn(p, e, l, after[Find(after, id)]);
        SameEntry(list, after, id);
      }
    }
  }

  lemma ChangedIn(p: Pool, e: Event, l: Limits, x: Entry)
    requires Legal(p, e, l) && !e.Register? && !e.RegistrationSucceeded? && x in Changed(p, e, l)
    requires DistinctIds(p.lists[e.thread])
    ensures x in p.lists[e.thread]
  {
    hide DeviceId, Choice, Flushed;
    if e.UnregisterAll? { FlushedFrom(p.lists[e.thread], e.answers); }
  }

  lemma SameEntry(list: List, after: List, id: string)
    requires DistinctIds(list) && Listed(list, id) && Listed(after, id) && after[Find(after, id)] in list
    ensures after[Find(after, id)] == list[Find(list, id)]
  {
    var j :| 0 <= j < |list| && list[j] == after[Find(after, id)];
    var k := Find(list, id);
    if j < k {} else if k < j {} else {}
  }

  lemma ConfirmedFlag(list: List, other: string, id: string)
    requires DistinctIds(list) && Listed(list, other) && Listed(list, id)
    ensures var after := Confirmed(list, other);
            Listed(after, id) && (after[Find(after, id)].registered <==> list[Find(list, id)].registered || other == id)
  {
    var after := Confirmed(list, other);
    assert forall k :: 0 <= k < |list| ==> after[k].id == list[k].id;
    assert Find(after, id) == Find(list, id);
  }

  ghost predicate DroppedDuring(p: Pool, es: seq<Event>, l: Limits, end: Pool, t: nat, id: string)
    requires Run(p, es, l, end) && t < |p.lists|
    decreases |es|
  {
    es != [] && ((es[0].thread == t && Drops(p.lists[t], es[0], l, id))
                 || DroppedDuring(Step(p, es[0], l), es[1..], l, end, t, id))
  }

  /** An entry that is gone stays gone: whatever is registered later, under the same id or not, has another number. */
  lemma {:induction false} GoneForGood(p: Pool, es: seq<Event>, l: Limits, end: Pool, t: nat, id: string, number: nat)
    requires PoolOk(p, l.max) && Run(p, es, l, end) && t < |p.lists| && number < p.next
    requires !Finds(p.lists[t], id, number)
    ensures |end.lists| == |p.lists| && !Finds(end.lists[t], id, number)
    decreases |es|
  {
    if es != [] {
      StepOk(p, es[0], l);
      StaysGone(p, es[0], l, t, id, number);
      GoneForGood(Step(p, es[0], l), es[1..], l, end, t, id, number);
    }
  }

  lemma StaysGone(p: Pool, e: Event, l: Limits, t: nat, id: string, number: nat)
    requires PoolOk(p, l.max) && Legal(p, e, l) && t < |p.lists| && number < p.next
    requires !Finds(p.lists[t], id, number)
    ensures !Finds(Step(p, e, l).lists[t], id, number)
  {
    if e.thread == t && Finds(Changed(p, e, l), id, number) {
      var changed := Changed(p, e, l);
      ChangedFrom(p, e, l, changed[Find(changed, id)]);
    }
  }

  /**
   * A request for a listed device is answered after some run: the unchecked lookup of the callback returns the very
   * entry of the request exactly when no routine of the run removed a device with its id.
   */
  lemma {:induction false} CallbackFindsDevice(p: Pool, es: seq<Event>, l: Limits, end: Pool, t: nat, id: string, number: nat)
    requires PoolOk(p, l.max) && Run(p, es, l, end) && t < |p.lists| && Finds(p.lists[t], id, number)
    ensures |end.lists| == |p.lists|
    ensures Finds(end.lists[t], id, number) <==> !DroppedDuring(p, es, l, end, t, id)
    decreases |es|
  {
    if es != [] {
      var next := Step(p, es[0], l);
      FindsExactly(p, es[0], l, t, id, number);
      StepOk(p, es[0], l);
      assert number < p.next;
      hide PoolOk, Changed, Finds, Drops;
      if Finds(next.lists[t], id, number) {
        CallbackFindsDevice(next, es[1..], l, end, t, id, number);
      } else {
        GoneForGood(next, es[1..], l, end, t, id, number);
      }
    }
  }

  /** It fails when an entry is chosen again before its first request is answered: the second answer finds nothing. */
  lemma SecondAnswerFindsNothing(e: Entry, next: nat, l: Limits, r: nat, r': nat)
    requires r <= l.randMax <= INT_MAX && r' <= l.randMax && l.min < 1
    ensures var es := [Unregister(0, r, true), Unregister(0, r', true), UnregistrationSucceeded(0, e.id)];
            && Run(Pool([[e]], next), es, l, Pool([[]], next))
            && Choice(r, l.randMax, 1) == Choice(r', l.randMax, 1) == 0
            && !Legal(Pool([[]], next), UnregistrationSucceeded(0, e.id), l)
  {
    ChoiceInRange(r, l.randMax, 1);
    ChoiceInRange(r', l.randMax, 1);
    hide Choice;
    var p, a, b, c := Pool([[e]], next), Unregister(0, r, true), Unregister(0, r', true), UnregistrationSucceeded(0, e.id);
    assert Step(p, a, l) == p && Step(p, b, l) == p;
    assert Removed([e], 0) == [];
    assert Step(p, c, l) == Pool([[]], next);
    assert [a, b, c][1..] == [b, c] && [b, c][1..] == [c] && [c][1..] == [];
    assert Run(Pool([[]], next), [], l, Pool([[]], next)) && Run(p, [c], l, Pool([[]], next)) && Run(p, [b, c], l, Pool([[]], next));
  }

  lemma FirstRegistered(n: nat, next: nat, l: Limits)
    requires l.randMax <= INT_MAX && l.max >= 1
    ensures Legal(Pool([[]], next), Register(0, [n]), l)
    ensures Step(Pool([[]], next), Register(0, [n]), l) == Pool([[Entry(DeviceId(0, n), next, false)]], next + 1)
  {
    hide DeviceId;
    var k := FirstFresh([], 0, [n]);
    assert k == 1 ==> Listed([], DeviceId(0, [n][0]));
    assert Registered([], 0, [n], next, l.max) == [Entry(DeviceId(0, n), next, false)];
  }

  lemma OnlyDropped(e: Entry, next: nat, l: Limits)
    requires l.randMax <= INT_MAX
    ensures Legal(Pool([[e]], next), UnregistrationSucceeded(0, e.id), l)
    ensures Step(Pool([[e]], next), UnregistrationSucceeded(0, e.id), l) == Pool([[]], next)
  {
    assert Find([e], e.id) == 0;
    assert Removed([e], 0) == [];
  }

  /** And when the same number is drawn in between, the second answer takes the new entry out of the list. */
  lemma SecondAnswerFindsAnother(n: nat, next: nat, l: Limits)
    requires l.randMax <= INT_MAX && l.min < 1 && l.max >= 1
    ensures var id := DeviceId(0, n);
            var e, f := Entry(id, next, false), Entry(id, next + 1, false);
            var es := [Unregister(0, 0, true), Unregister(0, 0, true), UnregistrationSucceeded(0, id), Register(0, [n])];
            && Run(Pool([[]], next), [Register(0, [n])], l, Pool([[e]], next + 1))
            && Run(Pool([[e]], next + 1), es, l, Pool([[f]], next + 2))
            && Legal(Pool([[f]], next + 2), UnregistrationSucceeded(0, id), l)
            && Step(Pool([[f]], next + 2), UnregistrationSucceeded(0, id), l) == Pool([[]], next + 2)
  {
    hide DeviceId, Choice;
    ChoiceInRange(0, l.randMax, 1);
    var id := DeviceId(0, n);
    var e, f := Entry(id, next, false), Entry(id, next + 1, false);
    var a, b, c := Unregister(0, 0, true), UnregistrationSucceeded(0, id), Register(0, [n]);
    var p, gone, end := Pool([[e]], next + 1), Pool([[]], next + 1), Pool([[f]], next + 2);
    FirstRegistered(n, next, l);
    FirstRegistered(n, next + 1, l);
    OnlyDropped(e, next + 1, l);
    OnlyDropped(f, next + 2, l);
    assert Legal(p, a, l) && Step(p, a, l) == p;
    hide Step, Legal;
    assert [a, a, b, c][1..] == [a, b, c] && [a, b, c][1..] == [b, c] && [b, c][1..] == [c] && [c][1..] == [];
    assert Run(end, [], l, end) && Run(p, [], l, p);
    assert Run(gone, [c], l, end) && Run(p, [b, c], l, end) && Run(p, [a, b, c], l, end);
  }
}
