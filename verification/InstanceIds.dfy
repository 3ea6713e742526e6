/** Object instances created under the next free id. */
module InstanceIds {
  const UINT16_MAX := 65535

  /** The search from `id` on; -1 when it reaches the end. */
  function Search(used: set<nat>, id: nat): int
    requires id <= UINT16_MAX
    decreases UINT16_MAX - id
  {
    if id == UINT16_MAX then -1 else if id !in used then id else Search(used, id + 1)
  }

  function NextFree(used: set<nat>): int { Search(used, 0) }

  lemma {:induction false} SearchExact(used: set<nat>, id: nat)
    requires id <= UINT16_MAX
    ensures var r := Search(used, id);
            && (r == -1 || id <= r < UINT16_MAX)
            && (r == -1 ==> forall k :: id <= k < UINT16_MAX ==> k in used)
            && (r >= 0 ==> r !in used && forall k :: id <= k < r ==> k in used)
    decreases UINT16_MAX - id
  {
    if id < UINT16_MAX && id in used {
      SearchExact(used, id + 1);
    }
  }

  /** The least unused id below 65535, or -1 exactly when every one of them is used. */
  lemma NextFreeExact(used: set<nat>)
    ensures var r := NextFree(used);
            && (r == -1 <==> forall k: nat :: k < 65535 ==> k in used)
            && (r != -1 ==> 0 <= r < 65535 && r !in used && forall k: nat :: k < r ==> k in used)
  {
    SearchExact(used, 0);
  }

  /** The ids after n attempts to create an instance, each of which succeeds while there is a free id. */
  function AfterCreations(used: set<nat>, n: nat): set<nat> {
    if n == 0 then used
    else
      var before := AfterCreations(used, n - 1);
      var r := NextFree(before);
      if r < 0 then before else before + {r}
  }

  ghost predicate ExactlyBelow(used: set<nat>, n: nat) {
    forall k: nat :: k in used <==> k < n
  }

  /** On an empty object, n creations leave exactly the ids 0 to n-1, up to the 65535 there are. */
  lemma {:induction false} CreationsFillUp(n: nat)
    ensures ExactlyBelow(AfterCreations({}, n), if n <= UINT16_MAX then n else UINT16_MAX)
  {
    if n > 0 {
      CreationsFillUp(n - 1);
      var before := AfterCreations({}, n - 1);
      NextFreeExact(before);
      if n <= UINT16_MAX { assert n - 1 !in before; }
    }
  }

  class IpsoObject {
    var instances: set<nat>

    constructor ()
      ensures instances == {}
    {
      instances := {};
    }

    /** ipso_get_next_free_object_instance_id */
    method GetNextFreeInstanceId() returns (r: int)
      ensures r == NextFree(instances)
    {
      NextFreeExact(instances);
      for id := 0 to UINT16_MAX
        invariant forall k: nat :: k < id ==> k in instances
      {
        if id !in instances { return id; }
      }
      r := -1;
    }

    /** ipso_create_next_free_object_instance; `added` is the answer of the library to the addition. */
    method CreateNextFreeInstance(added: bool) returns (created: int)
      modifies this
      ensures created == if added then NextFree(old(instances)) else -1
      ensures instances == if created >= 0 then old(instances) + {created} else old(instances)
      ensures created >= 0 ==> created !in old(instances) && created < UINT16_MAX
    {
      var id := GetNextFreeInstanceId();
      NextFreeExact(instances);
      if id < 0 || id > UINT16_MAX { return -1; }
      if !added { return -1; }
      instances := instances + {id};
      created := id;
    }

    /** Repeated creation on a new object. */
    method CreateMany(n: nat)
      requires instances == {}
      modifies this
      ensures ExactlyBelow(instances, if n <= UINT16_MAX then n else UINT16_MAX)
    {
      for i := 0 to n
        invariant instances == AfterCreations({}, i)
      {
        var id := CreateNextFreeInstance(true);
      }
      CreationsFillUp(n);
    }
  }
}
