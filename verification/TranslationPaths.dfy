/** When the contexts of a whole table have paths of their own, although the resources of sensors may be refused. */
module TranslationPaths {
  import opened Optional
  import opened Gatt
  import opened Translations
  import InstanceIds

  // ---------- The table in the order of construction ----------

  datatype Position = Position(sv: nat, ch: nat)

  predicate InTable(services: seq<Service>, p: Position) {
    p.sv < |services| && p.ch < |services[p.sv].chars|
  }

  predicate AllInTable(services: seq<Service>, ps: seq<Position>) {
    forall i :: 0 <= i < |ps| ==> InTable(services, ps[i])
  }

  function CharPositions(sv: nat, n: nat): (ps: seq<Position>)
    ensures |ps| == n && forall i :: 0 <= i < n ==> ps[i] == Position(sv, i)
  {
    seq(n, i requires 0 <= i < n => Position(sv, i))
  }

  /** The characteristics of the first n services, service by service. */
  function Positions(services: seq<Service>, n: nat): (ps: seq<Position>)
    requires n <= |services|
    ensures AllInTable(services, ps)
  {
    if n == 0 then [] else Positions(services, n - 1) + CharPositions(n - 1, |services[n - 1].chars|)
  }

  function ConstructAll(o: Objects, services: seq<Service>, ps: seq<Position>, creates: Path -> bool): Objects
    requires AllInTable(services, ps)
  {
    if ps == [] then o
    else
      var p := ps[|ps| - 1];
      ConstructChar(ConstructAll(o, services, ps[..|ps| - 1], creates), services, p.sv, p.ch, creates)
  }

  lemma {:induction false} CharsAreAll(o: Objects, services: seq<Service>, before: seq<Position>, sv: nat, n: nat,
      creates: Path -> bool)
    requires AllInTable(services, before) && sv < |services| && n <= |services[sv].chars|
    ensures AllInTable(services, before + CharPositions(sv, n))
    ensures ConstructAll(o, services, before + CharPositions(sv, n), creates) ==
            ConstructChars(ConstructAll(o, services, before, creates), services, sv, n, creates)
  {
    hide ConstructChar;
    var ps := before + CharPositions(sv, n);
    if n == 0 {
      assert ps == before;
    } else {
      CharsAreAll(o, services, before, sv, n - 1, creates);
      assert ps[..|ps| - 1] == before + CharPositions(sv, n - 1);
    }
  }

  lemma {:induction false} ServicesAreAll(o: Objects, services: seq<Service>, n: nat, creates: Path -> bool)
    requires n <= |services|
    ensures ConstructServices(o, services, n, creates) == ConstructAll(o, services, Positions(services, n), creates)
  {
    hide ConstructChars, ConstructChar;
    if n > 0 {
      ServicesAreAll(o, services, n - 1, creates);
      CharsAreAll(o, services, Positions(services, n - 1), n - 1, |services[n - 1].chars|, creates);
    }
  }

  // ---------- Refused sensors ----------

  /** The object of the sensor at this place of the table, if there is one. */
  function SensorAt(services: seq<Service>, p: Position): Option<nat>
    requires InTable(services, p)
  {
    match FormOf(services, p.sv, p.ch)
    case Some(Sensor(objectId)) => Some(objectId)
    case _ => None
  }

  /** The path the next sensor of an object gets. */
  function NextPath(o: Objects, objectId: nat): Path {
    var id := InstanceIds.NextFree(Used(o, objectId));
    Path(objectId, if id < 0 then 0 else id, SENSOR_VALUE)
  }

  predicate HasNext(o: Objects, objectId: nat) { InstanceIds.NextFree(Used(o, objectId)) >= 0 }

  /** None of the resources of the next sensor of an object is created. */
  predicate NextRefused(o: Objects, objectId: nat, creates: Path -> bool) {
    HasNext(o, objectId) && !Accepted(objectId, NextPath(o, objectId).instanceId, creates)
  }

  /** All the resources of the i-th sensor are refused when its turn comes. */
  predicate Refused(o: Objects, services: seq<Service>, ps: seq<Position>, i: nat, creates: Path -> bool)
    requires AllInTable(services, ps) && i < |ps|
  {
    SensorAt(services, ps[i]) != None &&
    var before, objectId := ConstructAll(o, services, ps[..i], creates), SensorAt(services, ps[i]).value;
    NextRefused(before, objectId, creates)
  }

  /** A sensor all of whose resources are refused is followed by another sensor of the same object. */
  predicate RefusedAndFollowed(o: Objects, services: seq<Service>, ps: seq<Position>, creates: Path -> bool)
    requires AllInTable(services, ps)
  {
    exists i, j :: 0 <= i < j < |ps| && Refused(o, services, ps, i, creates)
                   && SensorAt(services, ps[j]) == SensorAt(services, ps[i])
  }

  /** The objects of the sensors refused so far. */
  function RefusedObjects(o: Objects, services: seq<Service>, ps: seq<Position>, creates: Path -> bool): set<nat>
    requires AllInTable(services, ps)
  {
    if ps == [] then {}
    else
      var n := |ps| - 1;
      RefusedObjects(o, services, ps[..n], creates)
      + if Refused(o, services, ps, n, creates) then {SensorAt(services, ps[n]).value} else {}
  }

  lemma SamePrefix(o: Objects, services: seq<Service>, ps: seq<Position>, n: nat, i: nat, creates: Path -> bool)
    requires AllInTable(services, ps) && i < n <= |ps|
    ensures Refused(o, services, ps[..n], i, creates) == Refused(o, services, ps, i, creates)
  {
    hide ConstructAll, SensorAt;
    assert ps[..n][..i] == ps[..i];
  }

  lemma {:induction false} RefusedIncluded(o: Objects, services: seq<Service>, ps: seq<Position>, creates: Path -> bool,
      i: nat)
    requires AllInTable(services, ps) && i < |ps| && Refused(o, services, ps, i, creates)
    ensures SensorAt(services, ps[i]) != None
    ensures SensorAt(services, ps[i]).value in RefusedObjects(o, services, ps, creates)
  {
    RefusedIsSensor(o, services, ps, creates);
    hide Refused, SensorAt;
    var n := |ps| - 1;
    if i < n {
      SamePrefix(o, services, ps, n, i, creates);
      RefusedIncluded(o, services, ps[..n], creates, i);
    }
  }

  lemma {:induction false} RefusedWitness(o: Objects, services: seq<Service>, ps: seq<Position>, creates: Path -> bool,
      objectId: nat) returns (i: nat)
    requires AllInTable(services, ps) && objectId in RefusedObjects(o, services, ps, creates)
    ensures i < |ps| && Refused(o, services, ps, i, creates) && SensorAt(services, ps[i]) == Some(objectId)
  {
    RefusedIsSensor(o, services, ps, creates);
    hide Refused, SensorAt;
    var n := |ps| - 1;
    if objectId in RefusedObjects(o, services, ps[..n], creates) {
      i := RefusedWitness(o, services, ps[..n], creates, objectId);
      SamePrefix(o, services, ps, n, i, creates);
    } else {
      i := n;
    }
  }

  lemma RefusedObjectsExact(o: Objects, services: seq<Service>, ps: seq<Position>, creates: Path -> bool, objectId: nat)
    requires AllInTable(services, ps)
    ensures objectId in RefusedObjects(o, services, ps, creates) <==>
      exists i :: 0 <= i < |ps| && Refused(o, services, ps, i, creates) && SensorAt(services, ps[i]) == Some(objectId)
  {
    hide Refused, SensorAt, RefusedObjects;
    if i :| 0 <= i < |ps| && Refused(o, services, ps, i, creates) && SensorAt(services, ps[i]) == Some(objectId) {
      RefusedIncluded(o, services, ps, creates, i);
    }
    if objectId in RefusedObjects(o, services, ps, creates) {
      var i := RefusedWitness(o, services, ps, creates, objectId);
    }
  }

  lemma FollowedStep(o: Objects, services: seq<Service>, ps: seq<Position>, creates: Path -> bool)
    requires AllInTable(services, ps) && ps != []
    ensures var n := |ps| - 1;
            RefusedAndFollowed(o, services, ps, creates) <==>
              || RefusedAndFollowed(o, services, ps[..n], creates)
              || (SensorAt(services, ps[n]) != None
                  && SensorAt(services, ps[n]).value in RefusedObjects(o, services, ps[..n], creates))
  {
    hide Refused, SensorAt, RefusedObjects;
    var n := |ps| - 1;
    var before := ps[..n];
    forall i | 0 <= i < n ensures Refused(o, services, before, i, creates) == Refused(o, services, ps, i, creates) {
      SamePrefix(o, services, ps, n, i, creates);
    }
    if SensorAt(services, ps[n]) != None {
      RefusedObjectsExact(o, services, before, creates, SensorAt(services, ps[n]).value);
    }
    RefusedIsSensor(o, services, ps, creates);
    if i, j :| 0 <= i < j < |ps| && Refused(o, services, ps, i, creates)
               && SensorAt(services, ps[j]) == SensorAt(services, ps[i]) {
      assert before[i] == ps[i];
      if j < n { assert before[j] == ps[j]; }
    }
    if i, j :| 0 <= i < j < n && Refused(o, services, before, i, creates)
               && SensorAt(services, before[j]) == SensorAt(services, before[i]) {
      assert before[i] == ps[i] && before[j] == ps[j];
    }
    if i :| 0 <= i < n && Refused(o, services, before, i, creates) && SensorAt(services, before[i]) == SensorAt(services, ps[n]) {
      assert before[i] == ps[i];
    }
  }

  lemma RefusedIsSensor(o: Objects, services: seq<Service>, ps: seq<Position>, creates: Path -> bool)
    requires AllInTable(services, ps)
    ensures forall i :: 0 <= i < |ps| && Refused(o, services, ps, i, creates) ==> SensorAt(services, ps[i]) != None
  {
  }

  // ---------- What construction keeps, whatever is refused ----------

  predicate InUse(o: Objects, c: Context) { c.path.instanceId in Used(o, c.path.objectId) }

  predicate IsSensorObject(objectId: nat) {
    objectId == TEMPERATURE_SENSOR || objectId == HUMIDITY_SENSOR || objectId == BAROMETER_SENSOR
  }

  predicate Taken(contexts: seq<Context>, path: Path) {
    exists k :: 0 <= k < |contexts| && contexts[k].path == path
  }

  /** A context is in use, or waits under the next path of an object with a refused sensor; there such a path waits. */
  predicate Kept(o: Objects, refused: set<nat>, creates: Path -> bool) {
    && (forall k :: 0 <= k < |o.contexts| ==>
          || InUse(o, o.contexts[k])
          || (o.contexts[k].path.objectId in refused && o.contexts[k].path == NextPath(o, o.contexts[k].path.objectId)))
    && forall objectId :: objectId in refused ==>
         IsSensorObject(objectId) && NextRefused(o, objectId, creates) && Taken(o.contexts, NextPath(o, objectId))
  }

  lemma NextIsFree(o: Objects, objectId: nat)
    requires HasNext(o, objectId)
    ensures NextPath(o, objectId).instanceId !in Used(o, objectId)
  {
    InstanceIds.NextFreeExact(Used(o, objectId));
  }

  lemma DistinctAppend(contexts: seq<Context>, c: Context)
    ensures Distinct(contexts + [c]) <==> Distinct(contexts) && !Taken(contexts, c.path)
  {
    var all := contexts + [c];
    assert forall i :: 0 <= i < |contexts| ==> all[i] == contexts[i];
    if Distinct(all) {
      assert forall k :: 0 <= k < |contexts| ==> all[k].path != all[|contexts|].path;
      assert forall i, j :: 0 <= i < j < |contexts| ==> all[i].path != all[j].path;
    }
    if Distinct(contexts) && !Taken(contexts, c.path) {
      assert forall i :: 0 <= i < |contexts| ==> contexts[i].path != c.path;
    }
  }

  /** Is the next path of an object taken already? Exactly when a sensor of the object was refused. */
  lemma TakenExactly(o: Objects, refused: set<nat>, objectId: nat, creates: Path -> bool)
    requires Kept(o, refused, creates) && HasNext(o, objectId)
    ensures Taken(o.contexts, NextPath(o, objectId)) <==> objectId in refused
  {
    NextIsFree(o, objectId);
    hide NextPath, HasNext;
    if k :| 0 <= k < |o.contexts| && o.contexts[k].path == NextPath(o, objectId) {
      assert NextPath(o, objectId).objectId == objectId by { NextObject(o, objectId); }
    }
  }

  lemma NextObject(o: Objects, objectId: nat)
    ensures NextPath(o, objectId).objectId == objectId && NextPath(o, objectId).resourceId == SENSOR_VALUE
  {
  }

  /** One sensor: its path is new exactly when no sensor of its object was refused before. */
  lemma SensorStep(o: Objects, refused: set<nat>, sv: nat, ch: nat, objectId: nat, creates: Path -> bool)
    requires Kept(o, refused, creates) && IsSensorObject(objectId)
    ensures var t := ConstructSensor(o, sv, ch, objectId, creates);
            && Kept(t, if NextRefused(o, objectId, creates) then refused + {objectId} else refused, creates)
            && (Distinct(t.contexts) <==> Distinct(o.contexts) && objectId !in refused)
  {
    hide AddSensor, Accepted;
    if HasNext(o, objectId) {
      var path := NextPath(o, objectId);
      var c := Context(path, 0, sv, ch);
      NextObject(o, objectId);
      TakenExactly(o, refused, objectId, creates);
      DistinctAppend(o.contexts, c);
      AddSensorEffect(o, objectId, path.instanceId, creates);
      var t := AddSensor(o, objectId, path.instanceId, creates);
      if NextRefused(o, objectId, creates) {
        SensorRefused(o, t, refused, c, creates);
      } else {
        assert objectId !in refused;
        Grown(o, t, refused, c, creates);
      }
    }
  }

  /** A context of an object without refused sensors is added together with its instance. */
  lemma Grown(o: Objects, t: Objects, refused: set<nat>, c: Context, creates: Path -> bool)
    requires Kept(o, refused, creates) && t.contexts == o.contexts && c.path.objectId !in refused
    requires forall objectId :: Used(o, objectId) <= Used(t, objectId)
    requires forall objectId :: objectId != c.path.objectId ==> Used(t, objectId) == Used(o, objectId)
    requires c.path.instanceId in Used(t, c.path.objectId)
    ensures Kept(Configure(t, c), refused, creates)
  {
    var u := Configure(t, c);
    assert forall objectId :: Used(u, objectId) == Used(t, objectId);
    SameNext(o, u, c.path.objectId);
    hide NextPath, HasNext, Accepted;
    forall k | 0 <= k < |u.contexts|
      ensures InUse(u, u.contexts[k])
              || (u.contexts[k].path.objectId in refused && u.contexts[k].path == NextPath(u, u.contexts[k].path.objectId))
    {
      if k < |o.contexts| { assert u.contexts[k] == o.contexts[k]; }
    }
    forall objectId | objectId in refused
      ensures NextRefused(u, objectId, creates) && Taken(u.contexts, NextPath(u, objectId))
    {
      TakenStays(o.contexts, c, NextPath(o, objectId));
    }
  }

  lemma TakenStays(contexts: seq<Context>, c: Context, path: Path)
    requires Taken(contexts, path)
    ensures Taken(contexts + [c], path)
  {
    var k :| 0 <= k < |contexts| && contexts[k].path == path;
    assert (contexts + [c])[k].path == path;
  }

  /** Objects other than the changed one have the same next path. */
  lemma SameNext(o: Objects, t: Objects, changed: nat)
    requires forall objectId :: objectId != changed ==> Used(t, objectId) == Used(o, objectId)
    ensures forall objectId :: objectId != changed ==>
      NextPath(t, objectId) == NextPath(o, objectId) && HasNext(t, objectId) == HasNext(o, objectId)
  {
  }

  /** A refused sensor leaves the instances alone, and its context waits under the path that is still the next. */
  lemma SensorRefused(o: Objects, t: Objects, refused: set<nat>, c: Context, creates: Path -> bool)
    requires Kept(o, refused, creates) && t.contexts == o.contexts
    requires forall objectId :: Used(t, objectId) == Used(o, objectId)
    requires c.path == NextPath(o, c.path.objectId)
    requires NextRefused(o, c.path.objectId, creates) && IsSensorObject(c.path.objectId)
    ensures Kept(Configure(t, c), refused + {c.path.objectId}, creates)
  {
    var u := Configure(t, c);
    assert forall objectId :: Used(u, objectId) == Used(o, objectId);
    SameNextAll(o, u);
    hide NextPath, HasNext, Accepted;
    assert u.contexts[|o.contexts|].path == NextPath(u, c.path.objectId);
    forall objectId | objectId in refused
      ensures NextRefused(u, objectId, creates) && Taken(u.contexts, NextPath(u, objectId))
    {
      TakenStays(o.contexts, c, NextPath(o, objectId));
    }
    forall k | 0 <= k < |o.contexts| ensures u.contexts[k] == o.contexts[k] {
    }
  }

  lemma SameNextAll(o: Objects, t: Objects)
    requires forall objectId :: Used(t, objectId) == Used(o, objectId)
    ensures forall objectId :: NextPath(t, objectId) == NextPath(o, objectId) && HasNext(t, objectId) == HasNext(o, objectId)
  {
  }

  lemma {:induction false} FieldsStep(o: Objects, refused: set<nat>, sv: nat, ch: nat, objectId: nat, resourceId: nat,
      offset: nat, creates: Path -> bool)
    requires offset <= 2 && Kept(o, refused, creates) && !IsSensorObject(objectId)
    ensures var t := ConstructFields(o, sv, ch, objectId, resourceId, offset, creates);
            Kept(t, refused, creates) && (Distinct(t.contexts) <==> Distinct(o.contexts))
    decreases 2 - offset
  {
    hide Configure, AddResource;
    if offset < 2 {
      var id := InstanceIds.NextFree(Used(o, objectId));
      if id >= 0 {
        var path := Path(objectId, id, resourceId);
        if creates(path) {
          FieldStep(o, refused, Context(path, offset, sv, ch), creates);
          hide Kept;
          FieldsStep(Configure(AddResource(o, path, [0], creates), Context(path, offset, sv, ch)),
                     refused, sv, ch, objectId, resourceId, offset + 1, creates);
        }
      }
    }
  }

  lemma FieldStep(o: Objects, refused: set<nat>, c: Context, creates: Path -> bool)
    requires Kept(o, refused, creates) && creates(c.path) && !IsSensorObject(c.path.objectId)
    requires InstanceIds.NextFree(Used(o, c.path.objectId)) == c.path.instanceId
    ensures var t := Configure(AddResource(o, c.path, [0], creates), c);
            Kept(t, refused, creates) && (Distinct(t.contexts) <==> Distinct(o.contexts))
  {
    InstanceIds.NextFreeExact(Used(o, c.path.objectId));
    assert c.path.objectId !in refused;
    AddEffect(o, c.path, [0], creates);
    Grown(o, AddResource(o, c.path, [0], creates), refused, c, creates);
    DistinctAppend(o.contexts, c);
    if k :| 0 <= k < |o.contexts| && o.contexts[k].path == c.path {
      assert InUse(o, o.contexts[k]);
    }
  }

  /** The refused objects after one more sensor. */
  function WithSensor(o: Objects, refused: set<nat>, sensor: Option<nat>, creates: Path -> bool): set<nat> {
    if sensor != None && NextRefused(o, sensor.value, creates) then refused + {sensor.value} else refused
  }

  lemma DigitalStep(o: Objects, refused: set<nat>, services: seq<Service>, p: Position, creates: Path -> bool)
    requires Kept(o, refused, creates) && InTable(services, p) && FormOf(services, p.sv, p.ch) == Some(Digital)
    ensures var t := ConstructChar(o, services, p.sv, p.ch, creates);
            Kept(t, refused, creates) && (Distinct(t.contexts) <==> Distinct(o.contexts))
  {
    hide FormOf, Kept, ConstructFields, Distinct;
    FieldsStep(o, refused, p.sv, p.ch, LIGHT_CONTROL, ON_OFF_VALUE, 0, creates);
    FieldsStep(o, refused, p.sv, p.ch, PUSH_BUTTON, DIGITAL_INPUT_STATE, 0, creates);
  }

  lemma CharStep(o: Objects, refused: set<nat>, services: seq<Service>, p: Position, creates: Path -> bool)
    requires Kept(o, refused, creates) && InTable(services, p)
    ensures var t, sensor := ConstructChar(o, services, p.sv, p.ch, creates), SensorAt(services, p);
            && Kept(t, WithSensor(o, refused, sensor, creates), creates)
            && (Distinct(t.contexts) <==> Distinct(o.contexts) && (sensor == None || sensor.value !in refused))
  {
    FormObject(services, p.sv, p.ch);
    hide FormOf, Kept, ConstructSensor, ConstructFields, NextRefused, Distinct;
    match FormOf(services, p.sv, p.ch)
    case None =>
    case Some(Sensor(objectId)) => SensorStep(o, refused, p.sv, p.ch, objectId, creates);
    case Some(Digital) => DigitalStep(o, refused, services, p, creates);
  }

  lemma RefusedStep(o: Objects, services: seq<Service>, ps: seq<Position>, creates: Path -> bool)
    requires AllInTable(services, ps) && ps != []
    ensures var before := ps[..|ps| - 1];
            RefusedObjects(o, services, ps, creates) ==
              WithSensor(ConstructAll(o, services, before, creates), RefusedObjects(o, services, before, creates),
                         SensorAt(services, ps[|ps| - 1]), creates)
  {
    hide ConstructAll, SensorAt, NextRefused;
  }

  lemma {:induction false} AllKept(o: Objects, services: seq<Service>, ps: seq<Position>, creates: Path -> bool)
    requires AllInTable(services, ps) && Kept(o, {}, creates) && Distinct(o.contexts)
    ensures var t := ConstructAll(o, services, ps, creates);
            && Kept(t, RefusedObjects(o, services, ps, creates), creates)
            && (Distinct(t.contexts) <==> !RefusedAndFollowed(o, services, ps, creates))
  {
    if ps != [] {
      hide Kept, Distinct, ConstructChar, SensorAt, NextRefused, WithSensor, RefusedAndFollowed, RefusedObjects;
      var n := |ps| - 1;
      var before := ps[..n];
      AllKept(o, services, before, creates);
      FollowedStep(o, services, ps, creates);
      RefusedStep(o, services, ps, creates);
      CharStep(ConstructAll(o, services, before, creates), RefusedObjects(o, services, before, creates), services, ps[n], creates);
    }
  }

  lemma LookupsNeedDistinct(contexts: seq<Context>)
    ensures Distinct(contexts) <==> forall k :: 0 <= k < |contexts| ==> FindContext(contexts, contexts[k].path) == k
  {
    if Distinct(contexts) {
      forall k | 0 <= k < |contexts| ensures FindContext(contexts, contexts[k].path) == k {
        LookupAt(contexts, k);
      }
    }
  }

  /**
   * Construction over any table, with any resources refused: the lookup of every context returns that very context
   * exactly when no sensor all of whose resources are refused is followed by another sensor of the same object.
   */
  lemma LookupsExact(o: Objects, services: seq<Service>, creates: Path -> bool)
    requires Distinct(o.contexts) && forall k :: 0 <= k < |o.contexts| ==> InUse(o, o.contexts[k])
    ensures var t := ConstructServices(o, services, |services|, creates);
            (forall k :: 0 <= k < |t.contexts| ==> FindContext(t.contexts, t.contexts[k].path) == k) <==>
              !RefusedAndFollowed(o, services, Positions(services, |services|), creates)
  {
    hide ConstructServices, RefusedAndFollowed, Positions;
    ServicesAreAll(o, services, |services|, creates);
    AllKept(o, services, Positions(services, |services|), creates);
    LookupsNeedDistinct(ConstructServices(o, services, |services|, creates).contexts);
  }
}
