/** What each supported characteristic becomes: the objects, resources and texts, by the numbers of the standard. */
module ConstructedObjects {
  import opened Optional
  import opened RawValues
  import opened Gatt
  import opened Translations
  import InstanceIds

  // ---------- UUIDs in any letter case ----------

  predicate SameLetter(a: char, b: char) {
    || a == b
    || ('a' <= a <= 'z' && a as int == b as int + 32)
    || ('a' <= b <= 'z' && b as int == a as int + 32)
  }

  predicate InAnyCase(s: string, uuid: string) {
    |s| == |uuid| && forall i :: 0 <= i < |s| ==> SameLetter(s[i], uuid[i])
  }

  lemma LetterExact(a: char, b: char)
    ensures LowerChar(a) == LowerChar(b) <==> SameLetter(a, b)
  {
  }

  lemma CaseExact(s: string, uuid: string)
    ensures SameUuid(s, uuid) <==> InAnyCase(s, uuid)
  {
    hide LowerChar, SameLetter;
    forall i | 0 <= i < |s| && i < |uuid| ensures LowerChar(s[i]) == LowerChar(uuid[i]) <==> SameLetter(s[i], uuid[i]) {
      LetterExact(s[i], uuid[i]);
    }
    if SameUuid(s, uuid) {
      assert |Lower(s)| == |Lower(uuid)|;
      assert forall i :: 0 <= i < |s| ==> Lower(s)[i] == Lower(uuid)[i];
    }
  }

  predicate Sensing(service: string) { InAnyCase(service, "0000181A-0000-1000-8000-00805F9B34FB") }

  predicate Automation(service: string) { InAnyCase(service, "00001815-0000-1000-8000-00805F9B34FB") }

  /** Temperature, humidity and pressure are the objects 3303, 3304 and 3315. */
  predicate NamesSensor(service: string, char_: string, objectId: nat) {
    Sensing(service) &&
    (|| (objectId == 3303 && InAnyCase(char_, "00002A6E-0000-1000-8000-00805F9B34FB"))
     || (objectId == 3304 && InAnyCase(char_, "00002A6F-0000-1000-8000-00805F9B34FB"))
     || (objectId == 3315 && InAnyCase(char_, "00002A6D-0000-1000-8000-00805F9B34FB")))
  }

  predicate NamesDigital(service: string, char_: string) {
    Automation(service) && InAnyCase(char_, "00002A56-0000-1000-8000-00805F9B34FB")
  }

  /** The eighth characters of these UUIDs differ in every letter case. */
  lemma EighthDiffers(s: string, a: string, b: string)
    requires |a| > 7 && |b| > 7 && InAnyCase(s, a) && !SameLetter(a[7], b[7]) && LowerChar(a[7]) != LowerChar(b[7])
    ensures !InAnyCase(s, b)
  {
    LetterExact(s[7], a[7]);
    LetterExact(s[7], b[7]);
  }

  lemma FormSensor(services: seq<Service>, sv: nat, ch: nat, objectId: nat)
    requires sv < |services| && ch < |services[sv].chars|
    requires NamesSensor(services[sv].uuid, services[sv].chars[ch].uuid, objectId)
    ensures FormOf(services, sv, ch) == Some(Sensor(objectId))
  {
    hide SameUuid, InAnyCase;
    var service, char_ := services[sv].uuid, services[sv].chars[ch].uuid;
    var e, f, d := "00002A6E-0000-1000-8000-00805F9B34FB", "00002A6F-0000-1000-8000-00805F9B34FB",
                   "00002A6D-0000-1000-8000-00805F9B34FB";
    CaseExact(service, "0000181A-0000-1000-8000-00805F9B34FB");
    CaseExact(char_, e);
    CaseExact(char_, f);
    CaseExact(char_, d);
    assert e[7] == 'E' && f[7] == 'F' && d[7] == 'D';
    if objectId == 3304 { EighthDiffers(char_, f, e); }
    if objectId == 3315 { EighthDiffers(char_, d, e); EighthDiffers(char_, d, f); }
  }

  lemma FormDigital(services: seq<Service>, sv: nat, ch: nat)
    requires sv < |services| && ch < |services[sv].chars|
    requires NamesDigital(services[sv].uuid, services[sv].chars[ch].uuid)
    ensures FormOf(services, sv, ch) == Some(Digital)
  {
    hide SameUuid, InAnyCase;
    var service := services[sv].uuid;
    var sensing, automation := "0000181A-0000-1000-8000-00805F9B34FB", "00001815-0000-1000-8000-00805F9B34FB";
    CaseExact(service, sensing);
    CaseExact(service, automation);
    CaseExact(services[sv].chars[ch].uuid, "00002A56-0000-1000-8000-00805F9B34FB");
    assert sensing[7] == 'A' && automation[7] == '5';
    EighthDiffers(service, automation, sensing);
  }

  lemma FormNone(services: seq<Service>, sv: nat, ch: nat)
    requires sv < |services| && ch < |services[sv].chars|
    requires forall objectId: nat :: !NamesSensor(services[sv].uuid, services[sv].chars[ch].uuid, objectId)
    requires !NamesDigital(services[sv].uuid, services[sv].chars[ch].uuid)
    ensures FormOf(services, sv, ch) == None
  {
    hide SameUuid, InAnyCase;
    var service, char_ := services[sv].uuid, services[sv].chars[ch].uuid;
    CaseExact(service, "0000181A-0000-1000-8000-00805F9B34FB");
    CaseExact(service, "00001815-0000-1000-8000-00805F9B34FB");
    CaseExact(char_, "00002A6E-0000-1000-8000-00805F9B34FB");
    CaseExact(char_, "00002A6F-0000-1000-8000-00805F9B34FB");
    CaseExact(char_, "00002A6D-0000-1000-8000-00805F9B34FB");
    CaseExact(char_, "00002A56-0000-1000-8000-00805F9B34FB");
    assert !NamesSensor(service, char_, 3303) && !NamesSensor(service, char_, 3304) && !NamesSensor(service, char_, 3315);
  }

  // ---------- Instances ----------

  /** The least id that no instance of the object has. */
  ghost predicate Least(used: set<nat>, id: nat) {
    id !in used && id < 65535 && forall k: nat :: k < id ==> k in used
  }

  lemma LeastIsNext(used: set<nat>, id: nat)
    requires Least(used, id)
    ensures InstanceIds.NextFree(used) == id
  {
    InstanceIds.NextFreeExact(used);
  }

  // ---------- Sensors ----------

  /** The bytes are the characters of the text. */
  predicate Spells(bytes: Bytes, text: string) {
    |bytes| == |text| && forall i :: 0 <= i < |text| ==> text[i] as int < 256 && bytes[i] == text[i] as int as bv8
  }

  predicate Units(objectId: nat, bytes: Bytes) {
    || (objectId == 3303 && Spells(bytes, "Cel"))
    || (objectId == 3304 && Spells(bytes, "RH%"))
    || (objectId == 3315 && Spells(bytes, "Pa"))
  }

  predicate Describes(objectId: nat, bytes: Bytes) {
    || (objectId == 3303 && Spells(bytes, "Ambient temperature"))
    || (objectId == 3304 && Spells(bytes, "Relative humidity"))
    || (objectId == 3315 && Spells(bytes, "Atmospheric pressure"))
  }

  lemma AsciiSpells(text: string)
    requires forall i :: 0 <= i < |text| ==> text[i] as int < 256
    ensures Spells(Ascii(text), text)
  {
    forall i | 0 <= i < |text| ensures Ascii(text)[i] == text[i] as int as bv8 {
      assert text[i] as int % 256 == text[i] as int;
    }
  }

  lemma Texts(objectId: nat)
    requires objectId in {3303, 3304, 3315}
    ensures Units(objectId, Ascii(UnitsOf(objectId))) && Describes(objectId, Ascii(TypeOf(objectId)))
  {
    hide Ascii, Spells;
    AsciiSpells(UnitsOf(objectId));
    AsciiSpells(TypeOf(objectId));
  }

  /** The value, unit, type, minimum, maximum and reset that the library accepts. */
  predicate SensorValues(t: map<Path, Bytes>, objectId: nat, id: nat, creates: Path -> bool) {
    && (creates(Path(objectId, id, 5700)) ==>
          Path(objectId, id, 5700) in t && t[Path(objectId, id, 5700)] == [0, 0, 0, 0])
    && (creates(Path(objectId, id, 5701)) ==>
          Path(objectId, id, 5701) in t && Units(objectId, t[Path(objectId, id, 5701)]))
    && (creates(Path(objectId, id, 5751)) ==>
          Path(objectId, id, 5751) in t && Describes(objectId, t[Path(objectId, id, 5751)]))
    && (creates(Path(objectId, id, 5601)) ==>
          Path(objectId, id, 5601) in t && t[Path(objectId, id, 5601)] == [127, 127, 255, 255])
    && (creates(Path(objectId, id, 5602)) ==>
          Path(objectId, id, 5602) in t && t[Path(objectId, id, 5602)] == [255, 127, 255, 255])
    && (creates(Path(objectId, id, 5605)) ==>
          Path(objectId, id, 5605) in t && t[Path(objectId, id, 5605)] == [])
  }

  predicate OfSensor(p: Path, objectId: nat, id: nat) {
    p.objectId == objectId && p.instanceId == id && p.resourceId in {5700, 5701, 5751, 5601, 5602, 5605}
  }

  /** All other resources, and those that are refused, are as they were. */
  ghost predicate OthersKept(o: map<Path, Bytes>, t: map<Path, Bytes>, objectId: nat, id: nat, creates: Path -> bool) {
    forall p: Path {:trigger p in t} :: !(OfSensor(p, objectId, id) && creates(p)) ==>
      (p in t <==> p in o) && (p in o ==> t[p] == o[p])
  }

  lemma AddedKept(o: map<Path, Bytes>, t: Objects, objectId: nat, id: nat, path: Path, value: Bytes, creates: Path -> bool)
    requires OthersKept(o, t.resources, objectId, id, creates) && OfSensor(path, objectId, id)
    ensures OthersKept(o, AddResource(t, path, value, creates).resources, objectId, id, creates)
  {
  }

  lemma SensorOthers(o: Objects, objectId: nat, id: nat, creates: Path -> bool)
    ensures OthersKept(o.resources, AddSensor(o, objectId, id, creates).resources, objectId, id, creates)
  {
    hide AddResource, Ascii, UnitsOf, TypeOf, OthersKept;
    var units, type_ := Ascii(UnitsOf(objectId)), Ascii(TypeOf(objectId));
    var o1 := AddResource(o, Path(objectId, id, 5700), [0, 0, 0, 0], creates);
    var o2 := AddResource(o1, Path(objectId, id, 5701), units, creates);
    var o3 := AddResource(o2, Path(objectId, id, 5751), type_, creates);
    var o4 := AddResource(o3, Path(objectId, id, 5601), [127, 127, 255, 255], creates);
    var o5 := AddResource(o4, Path(objectId, id, 5602), [255, 127, 255, 255], creates);
    AllKept(o.resources, objectId, id, creates);
    AddedKept(o.resources, o, objectId, id, Path(objectId, id, 5700), [0, 0, 0, 0], creates);
    AddedKept(o.resources, o1, objectId, id, Path(objectId, id, 5701), units, creates);
    AddedKept(o.resources, o2, objectId, id, Path(objectId, id, 5751), type_, creates);
    AddedKept(o.resources, o3, objectId, id, Path(objectId, id, 5601), [127, 127, 255, 255], creates);
    AddedKept(o.resources, o4, objectId, id, Path(objectId, id, 5602), [255, 127, 255, 255], creates);
    AddedKept(o.resources, o5, objectId, id, Path(objectId, id, 5605), [], creates);
  }

  lemma AllKept(o: map<Path, Bytes>, objectId: nat, id: nat, creates: Path -> bool)
    ensures OthersKept(o, o, objectId, id, creates)
  {
  }

  function Put(r: map<Path, Bytes>, p: Path, value: Bytes, creates: Path -> bool): map<Path, Bytes> {
    if creates(p) then r[p := value] else r
  }

  /** The resource of this path, if the library accepts it, has this value. */
  predicate Holds(r: map<Path, Bytes>, p: Path, value: Bytes, creates: Path -> bool) {
    creates(p) ==> p in r && r[p] == value
  }

  lemma PutHas(r: map<Path, Bytes>, p: Path, value: Bytes, creates: Path -> bool)
    ensures Holds(Put(r, p, value, creates), p, value, creates)
    ensures forall q, v :: q != p && Holds(r, q, v, creates) ==> Holds(Put(r, p, value, creates), q, v, creates)
  {
  }

  lemma AddIsPut(o: Objects, p: Path, value: Bytes, creates: Path -> bool)
    ensures AddResource(o, p, value, creates).resources == Put(o.resources, p, value, creates)
  {
  }

  lemma SensorIsPuts(o: Objects, objectId: nat, id: nat, creates: Path -> bool)
    ensures AddSensor(o, objectId, id, creates).resources ==
            SixPuts(o.resources, objectId, id, Ascii(UnitsOf(objectId)), Ascii(TypeOf(objectId)), creates)
  {
    hide AddResource, Ascii, UnitsOf, TypeOf, Put;
    var units, type_ := Ascii(UnitsOf(objectId)), Ascii(TypeOf(objectId));
    var o1 := AddResource(o, Path(objectId, id, 5700), [0, 0, 0, 0], creates);
    var o2 := AddResource(o1, Path(objectId, id, 5701), units, creates);
    var o3 := AddResource(o2, Path(objectId, id, 5751), type_, creates);
    var o4 := AddResource(o3, Path(objectId, id, 5601), [127, 127, 255, 255], creates);
    var o5 := AddResource(o4, Path(objectId, id, 5602), [255, 127, 255, 255], creates);
    AddIsPut(o, Path(objectId, id, 5700), [0, 0, 0, 0], creates);
    AddIsPut(o1, Path(objectId, id, 5701), units, creates);
    AddIsPut(o2, Path(objectId, id, 5751), type_, creates);
    AddIsPut(o3, Path(objectId, id, 5601), [127, 127, 255, 255], creates);
    AddIsPut(o4, Path(objectId, id, 5602), [255, 127, 255, 255], creates);
    AddIsPut(o5, Path(objectId, id, 5605), [], creates);
  }

  function SixPuts(r: map<Path, Bytes>, objectId: nat, id: nat, units: Bytes, type_: Bytes, creates: Path -> bool): map<Path, Bytes> {
    var sensor := Put(Put(Put(r, Path(objectId, id, 5700), [0, 0, 0, 0], creates),
                          Path(objectId, id, 5701), units, creates), Path(objectId, id, 5751), type_, creates);
    Put(Put(Put(sensor, Path(objectId, id, 5601), [127, 127, 255, 255], creates),
            Path(objectId, id, 5602), [255, 127, 255, 255], creates), Path(objectId, id, 5605), [], creates)
  }

  lemma SensorAdded(o: Objects, objectId: nat, id: nat, creates: Path -> bool)
    requires objectId in {3303, 3304, 3315}
    ensures SensorValues(AddSensor(o, objectId, id, creates).resources, objectId, id, creates)
  {
    Texts(objectId);
    SensorIsPuts(o, objectId, id, creates);
    hide AddSensor, Ascii, UnitsOf, TypeOf, Units, Describes, Put, Holds, SensorValues;
    var units, type_ := Ascii(UnitsOf(objectId)), Ascii(TypeOf(objectId));
    var r1 := Put(o.resources, Path(objectId, id, 5700), [0, 0, 0, 0], creates);
    var r2 := Put(r1, Path(objectId, id, 5701), units, creates);
    var r3 := Put(r2, Path(objectId, id, 5751), type_, creates);
    var r4 := Put(r3, Path(objectId, id, 5601), [127, 127, 255, 255], creates);
    var r5 := Put(r4, Path(objectId, id, 5602), [255, 127, 255, 255], creates);
    PutHas(o.resources, Path(objectId, id, 5700), [0, 0, 0, 0], creates);
    PutHas(r1, Path(objectId, id, 5701), units, creates);
    PutHas(r2, Path(objectId, id, 5751), type_, creates);
    PutHas(r3, Path(objectId, id, 5601), [127, 127, 255, 255], creates);
    PutHas(r4, Path(objectId, id, 5602), [255, 127, 255, 255], creates);
    PutHas(r5, Path(objectId, id, 5605), [], creates);
    AllHave(Put(r5, Path(objectId, id, 5605), [], creates), objectId, id, units, type_, creates);
  }

  lemma AllHave(r: map<Path, Bytes>, objectId: nat, id: nat, units: Bytes, type_: Bytes, creates: Path -> bool)
    requires Holds(r, Path(objectId, id, 5700), [0, 0, 0, 0], creates) && Holds(r, Path(objectId, id, 5701), units, creates)
    requires Holds(r, Path(objectId, id, 5751), type_, creates) && Units(objectId, units) && Describes(objectId, type_)
    requires Holds(r, Path(objectId, id, 5601), [127, 127, 255, 255], creates)
    requires Holds(r, Path(objectId, id, 5602), [255, 127, 255, 255], creates)
    requires Holds(r, Path(objectId, id, 5605), [], creates)
    ensures SensorValues(r, objectId, id, creates)
  {
    hide Units, Describes;
  }

  /**
   * A temperature, humidity or pressure characteristic, its UUIDs in any letter case: one context for the value of a new
   * instance of its object, whatever the library refuses, and the six resources with their values and texts.
   */
  lemma ConstructsSensor(o: Objects, services: seq<Service>, sv: nat, ch: nat, objectId: nat, id: nat, creates: Path -> bool)
    requires sv < |services| && ch < |services[sv].chars|
    requires NamesSensor(services[sv].uuid, services[sv].chars[ch].uuid, objectId) && Least(Used(o, objectId), id)
    ensures var t := ConstructChar(o, services, sv, ch, creates);
            && t.contexts == o.contexts + [Context(Path(objectId, id, 5700), 0, sv, ch)]
            && SensorValues(t.resources, objectId, id, creates) && OthersKept(o.resources, t.resources, objectId, id, creates)
  {
    FormSensor(services, sv, ch, objectId);
    LeastIsNext(Used(o, objectId), id);
    SensorAdded(o, objectId, id, creates);
    SensorOthers(o, objectId, id, creates);
    AddSensorEffect(o, objectId, id, creates);
    hide FormOf, AddSensor, Used, InstanceIds.NextFree, SensorValues, OthersKept;
    var c := Context(Path(objectId, id, 5700), 0, sv, ch);
    assert ConstructChar(o, services, sv, ch, creates) == Configure(AddSensor(o, objectId, id, creates), c);
  }

  // ---------- Digital outputs and inputs ----------

  /** The fields that could be created of two: the first failure ends it. */
  function Created(p: Path, q: Path, creates: Path -> bool): nat {
    if !creates(p) then 0 else if !creates(q) then 1 else 2
  }

  /**
   * A digital characteristic: two instances of object 3311 with on/off values when it is writable, else of 3347 with
   * input states when it is readable, else nothing. Their contexts are the fields 0 and 1.
   */
  lemma ConstructsDigital(o: Objects, services: seq<Service>, sv: nat, ch: nat, id: nat, id': nat, creates: Path -> bool)
    requires sv < |services| && ch < |services[sv].chars|
    requires NamesDigital(services[sv].uuid, services[sv].chars[ch].uuid)
    requires var objectId := if services[sv].chars[ch].properties / 2 % 2 == 1 then 3311 else 3347;
             Least(Used(o, objectId), id) && Least(Used(o, objectId) + {id}, id')
    ensures var properties := services[sv].chars[ch].properties;
            var objectId, resourceId := if properties / 2 % 2 == 1 then 3311 else 3347, if properties / 2 % 2 == 1 then 5850 else 5500;
            var p, q := Path(objectId, id, resourceId), Path(objectId, id', resourceId);
            var t := ConstructChar(o, services, sv, ch, creates);
            if properties / 2 % 2 == 1 || properties % 2 == 1 then
              && t.contexts == o.contexts + [Context(p, 0, sv, ch), Context(q, 1, sv, ch)][..Created(p, q, creates)]
              && t.resources == match Created(p, q, creates)
                                case 0 => o.resources
                                case 1 => o.resources[p := [0]]
                                case _ => o.resources[p := [0]][q := [0]]
            else t == o
  {
    FormDigital(services, sv, ch);
    hide FormOf, InstanceIds.NextFree;
    var properties := services[sv].chars[ch].properties;
    if properties / 2 % 2 == 1 {
      ConstructsFields(o, sv, ch, 3311, 5850, id, id', creates);
    } else if properties % 2 == 1 {
      ConstructsFields(o, sv, ch, 3347, 5500, id, id', creates);
    }
  }

  lemma ConstructsFields(o: Objects, sv: nat, ch: nat, objectId: nat, resourceId: nat, id: nat, id': nat, creates: Path -> bool)
    requires Least(Used(o, objectId), id) && Least(Used(o, objectId) + {id}, id')
    ensures var p, q := Path(objectId, id, resourceId), Path(objectId, id', resourceId);
            var t := ConstructFields(o, sv, ch, objectId, resourceId, 0, creates);
            && t.contexts == o.contexts + [Context(p, 0, sv, ch), Context(q, 1, sv, ch)][..Created(p, q, creates)]
            && t.resources == match Created(p, q, creates)
                              case 0 => o.resources
                              case 1 => o.resources[p := [0]]
                              case _ => o.resources[p := [0]][q := [0]]
  {
    var p, q := Path(objectId, id, resourceId), Path(objectId, id', resourceId);
    LeastIsNext(Used(o, objectId), id);
    LeastIsNext(Used(o, objectId) + {id}, id');
    hide InstanceIds.NextFree, Least;
    if creates(p) {
      var c, d := Context(p, 0, sv, ch), Context(q, 1, sv, ch);
      var one := Configure(AddResource(o, p, [0], creates), c);
      assert Used(one, objectId) == Used(o, objectId) + {id};
      assert ConstructFields(o, sv, ch, objectId, resourceId, 0, creates) ==
             ConstructFields(one, sv, ch, objectId, resourceId, 1, creates);
      assert [c, d][..1] == [c] && [c, d][..2] == [c, d];
      if creates(q) {
        var two := Configure(AddResource(one, q, [0], creates), d);
        assert ConstructFields(one, sv, ch, objectId, resourceId, 1, creates) ==
               ConstructFields(two, sv, ch, objectId, resourceId, 2, creates) == two;
      }
    }
  }

  /** No other pair of UUIDs constructs anything. */
  lemma ConstructsNothingElse(o: Objects, services: seq<Service>, sv: nat, ch: nat, creates: Path -> bool)
    requires sv < |services| && ch < |services[sv].chars|
    requires forall objectId: nat :: !NamesSensor(services[sv].uuid, services[sv].chars[ch].uuid, objectId)
    requires !NamesDigital(services[sv].uuid, services[sv].chars[ch].uuid)
    ensures ConstructChar(o, services, sv, ch, creates) == o
  {
    FormNone(services, sv, ch);
    hide FormOf;
  }
}
