/** Discovered GATT services and characteristics, grouped as they arrive. */
module Gatt {
  import Search
  import opened Optional

  const FORMATTED_UUID_LEN := 36
  const TWO_16 := 0x1_0000

  /** A UUID as it fits the fields of the structures. */
  type Uuid = s: string | |s| <= FORMATTED_UUID_LEN witness ""

  datatype Kind = Integer | String | Struct

  datatype Characteristic = Characteristic(
    uuid: Uuid,
    path: string,
    properties: int,
    kind: Kind,
    valueSize: nat,
    resourceId: nat)

  datatype Service = Service(uuid: Uuid, path: Option<string>, chars: seq<Characteristic>)

  /** The arguments of one call of device_add_gatt_characteristic. */
  datatype Call = Call(service: Uuid, servicePath: string, uuid: Uuid, path: string, properties: int)

  // ---------- What one call does ----------

  /** map_uuid_to_datatype */
  function Datatype(uuid: Uuid): (Kind, nat) {
    if uuid == "0000ed01-0000-1000-8000-00805f9b34fb" then (Integer, 4)
    else if uuid == "0000ed02-0000-1000-8000-00805f9b34fb" then (String, 32)
    else (Struct, 512)
  }

  /** A characteristic in position `position` of its service; the resource id is that position, cut to 16 bits. */
  function Placed(c: Call, position: nat): Characteristic {
    Characteristic(c.uuid, c.path, c.properties, Datatype(c.uuid).0, Datatype(c.uuid).1, position % TWO_16)
  }

  function FindService(services: seq<Service>, uuid: Uuid): (k: nat)
    ensures k <= |services|
    ensures k < |services| ==> services[k].uuid == uuid
    ensures forall j :: 0 <= j < k ==> services[j].uuid != uuid
  {
    Search.First(services, (s: Service) => s.uuid == uuid)
  }

  /** Find the service or append it, name its path if it has none, and append the characteristic to it. */
  function Add(services: seq<Service>, c: Call): seq<Service> {
    var k := FindService(services, c.service);
    var all := if k == |services| then services + [Service(c.service, None, [])] else services;
    var s := all[k];
    all[k := s.(path := if s.path == None then Some(c.servicePath) else s.path, chars := s.chars + [Placed(c, |s.chars|)])]
  }

  /** The table a sequence of calls builds on a new device. */
  function Build(calls: seq<Call>): seq<Service> {
    if calls == [] then [] else Add(Build(calls[..|calls| - 1]), calls[|calls| - 1])
  }

  // ---------- The grouping it is meant to be ----------

  /** The service UUIDs of the calls, each once, in the order of their first call. */
  function FirstSeen(calls: seq<Call>): seq<Uuid> {
    if calls == [] then []
    else
      var seen := FirstSeen(calls[..|calls| - 1]);
      var u := calls[|calls| - 1].service;
      if u in seen then seen else seen + [u]
  }

  /** The calls for one service, in order. */
  function CallsOf(calls: seq<Call>, u: Uuid): seq<Call> {
    if calls == [] then []
    else
      var before := CallsOf(calls[..|calls| - 1], u);
      if calls[|calls| - 1].service == u then before + [calls[|calls| - 1]] else before
  }

  function Group(calls: seq<Call>, u: Uuid): Service {
    var own := CallsOf(calls, u);
    Service(u, if own == [] then None else Some(own[0].servicePath), seq(|own|, j requires 0 <= j < |own| => Placed(own[j], j)))
  }

  function Groups(calls: seq<Call>): seq<Service> {
    var uuids := FirstSeen(calls);
    seq(|uuids|, i requires 0 <= i < |uuids| => Group(calls, uuids[i]))
  }

  // ---------- The table is the grouping ----------

  lemma {:induction false} FirstSeenFacts(calls: seq<Call>)
    ensures forall i, j :: 0 <= i < j < |FirstSeen(calls)| ==> FirstSeen(calls)[i] != FirstSeen(calls)[j]
    ensures forall u: Uuid :: u in FirstSeen(calls) <==> exists i :: 0 <= i < |calls| && calls[i].service == u
    ensures forall u: Uuid :: u in FirstSeen(calls) <==> CallsOf(calls, u) != []
  {
    if calls != [] {
      var n := |calls| - 1;
      FirstSeenFacts(calls[..n]);
      var seen, u := FirstSeen(calls[..n]), calls[n].service;
      forall v: Uuid
        ensures v in FirstSeen(calls) <==> v in seen || v == u
      {
        if u !in seen { assert v in seen + [u] <==> v in seen || v == u; }
      }
      forall v: Uuid | v in seen || v == u
        ensures exists i :: 0 <= i < |calls| && calls[i].service == v
      {
        if v in seen {
          var i :| 0 <= i < |calls[..n]| && calls[..n][i].service == v;
          assert calls[i].service == v;
        } else {
          assert calls[n].service == v;
        }
      }
      forall v: Uuid | exists i :: 0 <= i < |calls| && calls[i].service == v
        ensures v in seen || v == u
      {
        var i :| 0 <= i < |calls| && calls[i].service == v;
        if i < n { assert calls[..n][i].service == v; }
      }
    }
  }

  /** A call leaves the groups of the other services alone. */
  lemma GroupKept(calls: seq<Call>, u: Uuid)
    requires calls != [] && u != calls[|calls| - 1].service
    ensures Group(calls, u) == Group(calls[..|calls| - 1], u)
  {
    assert CallsOf(calls, u) == CallsOf(calls[..|calls| - 1], u);
  }

  /** The group of the last call is its earlier group with the new characteristic at the end. */
  lemma GroupExtends(calls: seq<Call>)
    requires calls != []
    ensures var n := |calls| - 1;
            var g := Group(calls[..n], calls[n].service);
            Group(calls, calls[n].service) ==
              g.(path := if g.path == None then Some(calls[n].servicePath) else g.path,
                 chars := g.chars + [Placed(calls[n], |g.chars|)])
  {
  }

  lemma GroupsAfterKnown(calls: seq<Call>, i: nat)
    requires calls != []
    requires i < |FirstSeen(calls[..|calls| - 1])| && FirstSeen(calls[..|calls| - 1])[i] == calls[|calls| - 1].service
    ensures Groups(calls) == Groups(calls[..|calls| - 1])[i := Group(calls, calls[|calls| - 1].service)]
  {
    hide Group, CallsOf;
    var n := |calls| - 1;
    FirstSeenFacts(calls[..n]);
    assert FirstSeen(calls) == FirstSeen(calls[..n]);
    forall j | 0 <= j < |FirstSeen(calls)| && j != i
      ensures Groups(calls)[j] == Groups(calls[..n])[j]
    {
      GroupKept(calls, FirstSeen(calls)[j]);
    }
  }

  lemma GroupsAfterNew(calls: seq<Call>)
    requires calls != [] && calls[|calls| - 1].service !in FirstSeen(calls[..|calls| - 1])
    ensures Groups(calls) == Groups(calls[..|calls| - 1]) + [Group(calls, calls[|calls| - 1].service)]
    ensures Group(calls[..|calls| - 1], calls[|calls| - 1].service) == Service(calls[|calls| - 1].service, None, [])
  {
    var n := |calls| - 1;
    FirstSeenFacts(calls[..n]);
    assert CallsOf(calls[..n], calls[n].service) == [];
    hide Group, CallsOf;
    forall j | 0 <= j < |FirstSeen(calls[..n])|
      ensures Groups(calls)[j] == Groups(calls[..n])[j]
    {
      GroupKept(calls, FirstSeen(calls)[j]);
    }
  }

  /** One more call turns the groups of the calls before it into the groups of all of them. */
  lemma AddToKnown(calls: seq<Call>, i: nat)
    requires calls != []
    requires i < |FirstSeen(calls[..|calls| - 1])| && FirstSeen(calls[..|calls| - 1])[i] == calls[|calls| - 1].service
    ensures Add(Groups(calls[..|calls| - 1]), calls[|calls| - 1]) == Groups(calls)
  {
    hide Group, FirstSeen, Placed, CallsOf, Groups;
    var n := |calls| - 1;
    FirstSeenFacts(calls[..n]);
    GroupIsNamed(calls[..n]);
    GroupExtends(calls);
    GroupsAfterKnown(calls, i);
    assert FindService(Groups(calls[..n]), calls[n].service) == i;
  }

  lemma AddToNew(calls: seq<Call>)
    requires calls != [] && calls[|calls| - 1].service !in FirstSeen(calls[..|calls| - 1])
    ensures Add(Groups(calls[..|calls| - 1]), calls[|calls| - 1]) == Groups(calls)
  {
    hide Group, FirstSeen, Placed, CallsOf, Groups;
    var n := |calls| - 1;
    GroupIsNamed(calls[..n]);
    GroupExtends(calls);
    GroupsAfterNew(calls);
    assert FindService(Groups(calls[..n]), calls[n].service) == |FirstSeen(calls[..n])|;
  }

  /** Grouping as the calls arrive yields the first-appearance grouping of all of them. */
  lemma {:induction false} BuildGroups(calls: seq<Call>)
    ensures Build(calls) == Groups(calls)
  {
    hide Groups, FirstSeen, Add;
    if calls != [] {
      var n := |calls| - 1;
      BuildGroups(calls[..n]);
      if calls[n].service in FirstSeen(calls[..n]) {
        var i :| 0 <= i < |FirstSeen(calls[..n])| && FirstSeen(calls[..n])[i] == calls[n].service;
        AddToKnown(calls, i);
      } else {
        AddToNew(calls);
      }
    } else {
      NoGroups();
    }
  }

  lemma NoGroups()
    ensures Groups([]) == []
  {
  }

  lemma GroupIsNamed(calls: seq<Call>)
    ensures |Groups(calls)| == |FirstSeen(calls)|
    ensures forall i :: 0 <= i < |FirstSeen(calls)| ==> Groups(calls)[i] == Group(calls, FirstSeen(calls)[i])
    ensures forall i :: 0 <= i < |FirstSeen(calls)| ==> Groups(calls)[i].uuid == FirstSeen(calls)[i]
  {
  }

  function Total(services: seq<Service>): nat {
    if services == [] then 0 else |services[0].chars| + Total(services[1..])
  }

  lemma {:induction false} TotalUpdate(services: seq<Service>, k: nat, s: Service)
    requires k < |services|
    ensures Total(services[k := s]) == Total(services) - |services[k].chars| + |s.chars|
  {
    if k > 0 {
      assert services[k := s][1..] == services[1..][k - 1 := s];
      TotalUpdate(services[1..], k - 1, s);
    }
  }

  lemma {:induction false} TotalAppend(services: seq<Service>, s: Service)
    ensures Total(services + [s]) == Total(services) + |s.chars|
  {
    if services == [] {
      assert services + [s] == [s];
    } else {
      assert (services + [s])[1..] == services[1..] + [s];
      TotalAppend(services[1..], s);
    }
  }

  /** Every call adds exactly one characteristic. */
  lemma {:induction false} CountConserved(calls: seq<Call>)
    ensures Total(Build(calls)) == |calls|
  {
    if calls != [] {
      var n := |calls| - 1;
      CountConserved(calls[..n]);
      var services, c := Build(calls[..n]), calls[n];
      var k := FindService(services, c.service);
      var all := if k == |services| then services + [Service(c.service, None, [])] else services;
      TotalAppend(services, Service(c.service, None, []));
      TotalUpdate(all, k, Add(services, c)[k]);
    }
  }

  // ---------- Resource ids ----------

  /** The search of device_write_characteristic. */
  function FindResource(chars: seq<Characteristic>, resourceId: nat): (k: nat)
    ensures k <= |chars|
    ensures k < |chars| ==> chars[k].resourceId == resourceId
    ensures forall j :: 0 <= j < k ==> chars[j].resourceId != resourceId
  {
    Search.First(chars, (c: Characteristic) => c.resourceId == resourceId)
  }

  /** Ids that are positions cut to 16 bits: the search finds the position that has the id, or nothing. */
  lemma SearchPositions(chars: seq<Characteristic>, resourceId: nat)
    requires resourceId < TWO_16
    requires forall j :: 0 <= j < |chars| ==> chars[j].resourceId == j % TWO_16
    ensures FindResource(chars, resourceId) == if resourceId < |chars| then resourceId else |chars|
    ensures |chars| <= TWO_16 <==> forall j :: 0 <= j < |chars| ==> chars[j].resourceId == j
  {
    var k := FindResource(chars, resourceId);
    assert forall j :: 0 <= j < |chars| && j < TWO_16 ==> chars[j].resourceId == j;
    if |chars| > TWO_16 {
      assert chars[TWO_16].resourceId == 0;
    }
    if resourceId < |chars| {
      assert chars[resourceId].resourceId == resourceId;
    }
  }

  /**
   * In a built table the search for a 16-bit resource id is direct indexing, for services of any size;
   * resource ids equal positions in a service exactly when it has at most 65536 characteristics.
   */
  lemma SearchIsIndexing(calls: seq<Call>, k: nat, resourceId: nat)
    requires k < |Build(calls)| && resourceId < TWO_16
    ensures var chars := Build(calls)[k].chars;
            && FindResource(chars, resourceId) == (if resourceId < |chars| then resourceId else |chars|)
            && (|chars| <= TWO_16 <==> forall j :: 0 <= j < |chars| ==> chars[j].resourceId == j)
  {
    BuildGroups(calls);
    GroupIsNamed(calls);
    SearchPositions(Build(calls)[k].chars, resourceId);
  }

  // ---------- The table a device keeps ----------

  class Attributes {
    var services: seq<Service>

    constructor ()
      ensures services == Build([])
    {
      services := [];
    }

    /** get_service */
    method GetService(uuid: Uuid) returns (k: nat)
      modifies this
      ensures k == FindService(old(services), uuid) < |services|
      ensures services == if k < |old(services)| then old(services) else old(services) + [Service(uuid, None, [])]
    {
      k := 0;
      while k < |services|
        invariant 0 <= k <= |services|
        invariant forall j :: 0 <= j < k ==> services[j].uuid != uuid
      {
        if services[k].uuid == uuid { return; }
        k := k + 1;
      }
      services := services + [Service(uuid, None, [])];
    }

    /** device_add_gatt_characteristic */
    method AddGattCharacteristic(c: Call)
      modifies this
      ensures services == Add(old(services), c)
    {
      var k := GetService(c.service);
      if services[k].path == None {
        services := services[k := services[k].(path := Some(c.servicePath))];
      }
      var (kind, size) := Datatype(c.uuid);
      var position := |services[k].chars|;
      var resourceId := position % TWO_16;
      services := services[k := services[k].(
        chars := services[k].chars + [Characteristic(c.uuid, c.path, c.properties, kind, size, resourceId)])];
    }

    /** Discovery: one call for every characteristic BlueZ reports. */
    method Discover(calls: seq<Call>)
      requires services == []
      modifies this
      ensures services == Groups(calls)
      ensures Total(services) == |calls|
    {
      for i := 0 to |calls|
        invariant services == Build(calls[..i])
      {
        AddGattCharacteristic(calls[i]);
        assert calls[..i + 1][..i] == calls[..i];
      }
      assert calls[..|calls|] == calls;
      BuildGroups(calls);
      CountConserved(calls);
    }
  }

  /** The search loop of device_write_characteristic. */
  method FindCharacteristic(chars: seq<Characteristic>, resourceId: nat) returns (k: nat)
    ensures k == FindResource(chars, resourceId)
  {
    k := 0;
    while k < |chars|
      invariant 0 <= k <= |chars|
      invariant forall j :: 0 <= j < k ==> chars[j].resourceId != resourceId
    {
      if chars[k].resourceId == resourceId { return; }
      k := k + 1;
    }
  }
}
