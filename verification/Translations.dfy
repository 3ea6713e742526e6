/** Translation contexts: which LwM2M resource stands for which characteristic. */
module Translations {
  import Search
  import opened Optional
  import opened RawValues
  import opened Gatt
  import InstanceIds

  const BLE_SERVICE := 18135
  const TEMPERATURE_SENSOR := 3303
  const HUMIDITY_SENSOR := 3304
  const BAROMETER_SENSOR := 3315
  const LIGHT_CONTROL := 3311
  const PUSH_BUTTON := 3347
  const DIGITAL_INPUT_STATE := 5500
  const MIN_MEASURED_VALUE := 5601
  const MAX_MEASURED_VALUE := 5602
  const RESET_MIN_MAX_MEASURED_VALUES := 5605
  const SENSOR_VALUE := 5700
  const SENSOR_UNITS := 5701
  const SENSOR_TYPE := 5751
  const ON_OFF_VALUE := 5850

  datatype Path = Path(objectId: nat, instanceId: nat, resourceId: nat)

  datatype Context = Context(path: Path, flags: nat, sv: nat, ch: nat)

  /** What the table of supported characteristics says: a sensor object, or two-bit digital fields. */
  datatype Form = Sensor(objectId: nat) | Digital

  // ---------- The table ----------

  function LowerChar(c: char): char {
    if 'A' <= c <= 'Z' then (c as int - 'A' as int + 'a' as int) as char else c
  }

  function Lower(s: string): (t: string)
    ensures |t| == |s| && forall i :: 0 <= i < |s| ==> t[i] == LowerChar(s[i])
  {
    seq(|s|, i requires 0 <= i < |s| => LowerChar(s[i]))
  }

  /** strncasecmp over at most 36 characters. */
  predicate SameUuid(a: string, b: string) { Lower(a) == Lower(b) }

  predicate IsEnvironmentalSensing(service: Uuid) { SameUuid(service, "0000181A-0000-1000-8000-00805F9B34FB") }

  predicate IsAutomationIo(service: Uuid) { SameUuid(service, "00001815-0000-1000-8000-00805F9B34FB") }

  /** ble_services_get_characteristic_descriptor_by_uuids */
  function Descriptor(service: Uuid, char_: Uuid): Option<Form> {
    if IsEnvironmentalSensing(service) then
      if SameUuid(char_, "00002A6E-0000-1000-8000-00805F9B34FB") then Some(Sensor(TEMPERATURE_SENSOR))
      else if SameUuid(char_, "00002A6F-0000-1000-8000-00805F9B34FB") then Some(Sensor(HUMIDITY_SENSOR))
      else if SameUuid(char_, "00002A6D-0000-1000-8000-00805F9B34FB") then Some(Sensor(BAROMETER_SENSOR))
      else None
    else if IsAutomationIo(service) then
      if SameUuid(char_, "00002A56-0000-1000-8000-00805F9B34FB") then Some(Digital) else None
    else None
  }

  function FormOf(services: seq<Service>, sv: nat, ch: nat): Option<Form>
    requires sv < |services| && ch < |services[sv].chars|
  {
    Descriptor(services[sv].uuid, services[sv].chars[ch].uuid)
  }

  predicate Readable(properties: int) { properties % 2 == 1 }
  predicate Writable(properties: int) { (properties / 2) % 2 == 1 }

  // ---------- The object table of the device and its contexts ----------

  /** The instances of each object, the resource values, and the context list. */
  datatype Objects = Objects(used: map<nat, set<nat>>, resources: map<Path, Bytes>, contexts: seq<Context>)

  function Used(o: Objects, objectId: nat): set<nat> {
    if objectId in o.used then o.used[objectId] else {}
  }

  /** Add a resource, if the library accepts it. */
  function AddResource(o: Objects, path: Path, value: Bytes, creates: Path -> bool): Objects {
    if !creates(path) then o
    else o.(used := o.used[path.objectId := Used(o, path.objectId) + {path.instanceId}],
            resources := o.resources[path := value])
  }

  /** The library refuses to set a resource that does not exist. */
  function SetResource(resources: map<Path, Bytes>, path: Path, value: Bytes): map<Path, Bytes> {
    if path in resources then resources[path := value] else resources
  }

  function Configure(o: Objects, c: Context): Objects { o.(contexts := o.contexts + [c]) }

  function FindContext(contexts: seq<Context>, path: Path): (k: nat)
    ensures k <= |contexts|
    ensures k < |contexts| ==> contexts[k].path == path
    ensures forall j :: 0 <= j < k ==> contexts[j].path != path
  {
    Search.First(contexts, (c: Context) => c.path == path)
  }

  // ---------- Construction ----------

  function Ascii(s: string): Bytes {
    seq(|s|, i requires 0 <= i < |s| => (s[i] as int % 256) as bv8)
  }

  function UnitsOf(objectId: nat): string {
    if objectId == TEMPERATURE_SENSOR then "Cel" else if objectId == HUMIDITY_SENSOR then "RH%" else "Pa"
  }

  function TypeOf(objectId: nat): string {
    if objectId == TEMPERATURE_SENSOR then "Ambient temperature"
    else if objectId == HUMIDITY_SENSOR then "Relative humidity"
    else "Atmospheric pressure"
  }

  /**
   * The six resources of a sensor instance, each accepted or refused by itself: value, units and type, then the largest
   * float as minimum, the smallest as maximum, and the reset.
   */
  function AddSensor(o: Objects, objectId: nat, id: nat, creates: Path -> bool): Objects {
    var value := AddResource(o, Path(objectId, id, SENSOR_VALUE), [0, 0, 0, 0], creates);
    var units := AddResource(value, Path(objectId, id, SENSOR_UNITS), Ascii(UnitsOf(objectId)), creates);
    var type_ := AddResource(units, Path(objectId, id, SENSOR_TYPE), Ascii(TypeOf(objectId)), creates);
    var min := AddResource(type_, Path(objectId, id, MIN_MEASURED_VALUE), [0x7F, 0x7F, 0xFF, 0xFF], creates);
    var max := AddResource(min, Path(objectId, id, MAX_MEASURED_VALUE), [0xFF, 0x7F, 0xFF, 0xFF], creates);
    AddResource(max, Path(objectId, id, RESET_MIN_MAX_MEASURED_VALUES), [], creates)
  }

  /** One of the six is accepted, and with it the instance comes into use. */
  predicate Accepted(objectId: nat, id: nat, creates: Path -> bool) {
    || creates(Path(objectId, id, SENSOR_VALUE))
    || creates(Path(objectId, id, SENSOR_UNITS))
    || creates(Path(objectId, id, SENSOR_TYPE))
    || creates(Path(objectId, id, MIN_MEASURED_VALUE))
    || creates(Path(objectId, id, MAX_MEASURED_VALUE))
    || creates(Path(objectId, id, RESET_MIN_MAX_MEASURED_VALUES))
  }

  /** A sensor: its context is configured whatever resources could be created. */
  function ConstructSensor(o: Objects, sv: nat, ch: nat, objectId: nat, creates: Path -> bool): Objects {
    var id := InstanceIds.NextFree(Used(o, objectId));
    if id < 0 then o
    else
      Configure(AddSensor(o, objectId, id, creates), Context(Path(objectId, id, SENSOR_VALUE), 0, sv, ch))
  }

  /** Two digital fields, each an instance of its own; the first failure ends it. */
  function ConstructFields(o: Objects, sv: nat, ch: nat, objectId: nat, resourceId: nat, offset: nat, creates: Path -> bool): Objects
    requires offset <= 2
    decreases 2 - offset
  {
    if offset == 2 then o
    else
      var id := InstanceIds.NextFree(Used(o, objectId));
      if id < 0 then o
      else
        var path := Path(objectId, id, resourceId);
        if !creates(path) then o
        else
          ConstructFields(Configure(AddResource(o, path, [0], creates), Context(path, offset, sv, ch)),
            sv, ch, objectId, resourceId, offset + 1, creates)
  }

  function ConstructChar(o: Objects, services: seq<Service>, sv: nat, ch: nat, creates: Path -> bool): Objects
    requires sv < |services| && ch < |services[sv].chars|
  {
    match FormOf(services, sv, ch)
    case None => o
    case Some(Sensor(objectId)) => ConstructSensor(o, sv, ch, objectId, creates)
    case Some(Digital) =>
      var properties := services[sv].chars[ch].properties;
      if Writable(properties) then ConstructFields(o, sv, ch, LIGHT_CONTROL, ON_OFF_VALUE, 0, creates)
      else if Readable(properties) then ConstructFields(o, sv, ch, PUSH_BUTTON, DIGITAL_INPUT_STATE, 0, creates)
      else o
  }

  function ConstructChars(o: Objects, services: seq<Service>, sv: nat, n: nat, creates: Path -> bool): Objects
    requires sv < |services| && n <= |services[sv].chars|
  {
    if n == 0 then o else ConstructChar(ConstructChars(o, services, sv, n - 1, creates), services, sv, n - 1, creates)
  }

  /** The first n services. */
  function ConstructServices(o: Objects, services: seq<Service>, n: nat, creates: Path -> bool): Objects
    requires n <= |services|
  {
    if n == 0 then o
    else
      var before := ConstructServices(o, services, n - 1, creates);
      ConstructChars(before, services, n - 1, |services[n - 1].chars|, creates)
  }

  // ---------- What construction keeps ----------

  predicate Distinct(contexts: seq<Context>) {
    forall i, j :: 0 <= i < j < |contexts| ==> contexts[i].path != contexts[j].path
  }

  /** A context refers to a supported characteristic. */
  predicate Supported(services: seq<Service>, c: Context) {
    && c.sv < |services|
    && c.ch < |services[c.sv].chars|
    && FormOf(services, c.sv, c.ch) != None
    && c.flags < 2
    && c.path.objectId != BLE_SERVICE
  }

  predicate AllSupported(contexts: seq<Context>, services: seq<Service>) {
    forall i :: 0 <= i < |contexts| ==> Supported(services, contexts[i])
  }

  /** No other context has the path of context k. */
  predicate Own(contexts: seq<Context>, k: nat)
    requires k < |contexts|
  {
    forall j :: 0 <= j < |contexts| && contexts[j].path == contexts[k].path ==> j == k
  }

  /** And its resource exists in an instance in use. */
  predicate Sound(o: Objects, services: seq<Service>, c: Context) {
    && Supported(services, c)
    && c.path.instanceId in Used(o, c.path.objectId)
    && c.path in o.resources
  }

  predicate AllSound(o: Objects, services: seq<Service>) {
    && Distinct(o.contexts)
    && forall i :: 0 <= i < |o.contexts| ==> Sound(o, services, o.contexts[i])
  }

  /** The value resource of every sensor can be created. */
  ghost predicate SensorsCreated(creates: Path -> bool) {
    forall p: Path {:trigger creates(p)} :: p.resourceId == SENSOR_VALUE ==> creates(p)
  }

  lemma AddEffect(o: Objects, path: Path, value: Bytes, creates: Path -> bool)
    ensures var t := AddResource(o, path, value, creates);
            && t.contexts == o.contexts && o.resources.Keys <= t.resources.Keys
            && (creates(path) ==> path in t.resources)
            && forall objectId :: Used(t, objectId) ==
                 if creates(path) && objectId == path.objectId then Used(o, objectId) + {path.instanceId}
                 else Used(o, objectId)
  {
  }

  lemma AddSensorEffect(o: Objects, objectId: nat, id: nat, creates: Path -> bool)
    ensures var t := AddSensor(o, objectId, id, creates);
            && t.contexts == o.contexts && o.resources.Keys <= t.resources.Keys
            && (creates(Path(objectId, id, SENSOR_VALUE)) ==> Path(objectId, id, SENSOR_VALUE) in t.resources)
            && forall other :: Used(t, other) ==
                 if Accepted(objectId, id, creates) && other == objectId then Used(o, other) + {id} else Used(o, other)
  {
    hide AddResource, Used, Ascii, UnitsOf, TypeOf;
    var value := AddResource(o, Path(objectId, id, SENSOR_VALUE), [0, 0, 0, 0], creates);
    var units := AddResource(value, Path(objectId, id, SENSOR_UNITS), Ascii(UnitsOf(objectId)), creates);
    var type_ := AddResource(units, Path(objectId, id, SENSOR_TYPE), Ascii(TypeOf(objectId)), creates);
    var min := AddResource(type_, Path(objectId, id, MIN_MEASURED_VALUE), [0x7F, 0x7F, 0xFF, 0xFF], creates);
    var max := AddResource(min, Path(objectId, id, MAX_MEASURED_VALUE), [0xFF, 0x7F, 0xFF, 0xFF], creates);
    AddEffect(o, Path(objectId, id, SENSOR_VALUE), [0, 0, 0, 0], creates);
    AddEffect(value, Path(objectId, id, SENSOR_UNITS), Ascii(UnitsOf(objectId)), creates);
    AddEffect(units, Path(objectId, id, SENSOR_TYPE), Ascii(TypeOf(objectId)), creates);
    AddEffect(type_, Path(objectId, id, MIN_MEASURED_VALUE), [0x7F, 0x7F, 0xFF, 0xFF], creates);
    AddEffect(min, Path(objectId, id, MAX_MEASURED_VALUE), [0xFF, 0x7F, 0xFF, 0xFF], creates);
    AddEffect(max, Path(objectId, id, RESET_MIN_MAX_MEASURED_VALUES), [], creates);
  }

  /** A context is configured for a new instance; what was there before stays. */
  lemma ContextAdded(o: Objects, t: Objects, services: seq<Service>, c: Context)
    requires AllSound(o, services) && t.contexts == o.contexts && o.resources.Keys <= t.resources.Keys
    requires forall objectId :: Used(o, objectId) <= Used(t, objectId)
    requires c.path in t.resources && c.path.instanceId in Used(t, c.path.objectId)
    requires c.path.instanceId !in Used(o, c.path.objectId)
    requires c.sv < |services| && c.ch < |services[c.sv].chars| && FormOf(services, c.sv, c.ch) != None
    requires c.flags < 2 && c.path.objectId != BLE_SERVICE
    ensures AllSound(Configure(t, c), services)
  {
    hide FormOf;
    var u := Configure(t, c);
    forall i | 0 <= i < |o.contexts|
      ensures Sound(u, services, o.contexts[i]) && o.contexts[i].path != c.path
    {
      assert Sound(o, services, o.contexts[i]);
      assert Used(u, o.contexts[i].path.objectId) == Used(t, o.contexts[i].path.objectId);
    }
    assert Used(u, c.path.objectId) == Used(t, c.path.objectId);
  }

  lemma {:induction false} FieldsSound(o: Objects, services: seq<Service>, sv: nat, ch: nat,
      objectId: nat, resourceId: nat, offset: nat, creates: Path -> bool)
    requires offset <= 2 && objectId != BLE_SERVICE && AllSound(o, services)
    requires sv < |services| && ch < |services[sv].chars| && FormOf(services, sv, ch) != None
    ensures AllSound(ConstructFields(o, sv, ch, objectId, resourceId, offset, creates), services)
    decreases 2 - offset
  {
    hide FormOf, AllSound, Configure, AddResource;
    if offset < 2 {
      var id := InstanceIds.NextFree(Used(o, objectId));
      InstanceIds.NextFreeExact(Used(o, objectId));
      if id >= 0 {
        var path := Path(objectId, id, resourceId);
        if creates(path) {
          var c := Context(path, offset, sv, ch);
          AddEffect(o, path, [0], creates);
          ContextAdded(o, AddResource(o, path, [0], creates), services, c);
          FieldsSound(Configure(AddResource(o, path, [0], creates), c), services, sv, ch, objectId, resourceId, offset + 1, creates);
        }
      }
    }
  }

  lemma SensorSound(o: Objects, services: seq<Service>, sv: nat, ch: nat, objectId: nat, creates: Path -> bool)
    requires objectId != BLE_SERVICE && AllSound(o, services) && SensorsCreated(creates)
    requires sv < |services| && ch < |services[sv].chars| && FormOf(services, sv, ch) != None
    ensures AllSound(ConstructSensor(o, sv, ch, objectId, creates), services)
  {
    hide FormOf, AllSound, Configure, AddSensor;
    var id := InstanceIds.NextFree(Used(o, objectId));
    InstanceIds.NextFreeExact(Used(o, objectId));
    if id >= 0 {
      var path := Path(objectId, id, SENSOR_VALUE);
      assert creates(path);
      AddSensorEffect(o, objectId, id, creates);
      ContextAdded(o, AddSensor(o, objectId, id, creates), services, Context(path, 0, sv, ch));
    }
  }

  lemma FormObject(services: seq<Service>, sv: nat, ch: nat)
    requires sv < |services| && ch < |services[sv].chars|
    ensures var f := FormOf(services, sv, ch);
            f != None && f.value.Sensor? ==> f.value.objectId in {TEMPERATURE_SENSOR, HUMIDITY_SENSOR, BAROMETER_SENSOR}
  {
    hide SameUuid, IsEnvironmentalSensing, IsAutomationIo;
  }

  lemma CharSound(o: Objects, services: seq<Service>, sv: nat, ch: nat, creates: Path -> bool)
    requires sv < |services| && ch < |services[sv].chars| && AllSound(o, services) && SensorsCreated(creates)
    ensures AllSound(ConstructChar(o, services, sv, ch, creates), services)
  {
    hide FormOf, AllSound, ConstructSensor, ConstructFields, SensorsCreated;
    FormObject(services, sv, ch);
    match FormOf(services, sv, ch)
    case None =>
    case Some(Sensor(objectId)) => SensorSound(o, services, sv, ch, objectId, creates);
    case Some(Digital) =>
      FieldsSound(o, services, sv, ch, LIGHT_CONTROL, ON_OFF_VALUE, 0, creates);
      FieldsSound(o, services, sv, ch, PUSH_BUTTON, DIGITAL_INPUT_STATE, 0, creates);
  }

  lemma {:induction false} CharsSound(o: Objects, services: seq<Service>, sv: nat, n: nat, creates: Path -> bool)
    requires sv < |services| && n <= |services[sv].chars| && AllSound(o, services) && SensorsCreated(creates)
    ensures AllSound(ConstructChars(o, services, sv, n, creates), services)
  {
    hide AllSound, ConstructChar, SensorsCreated;
    if n > 0 {
      CharsSound(o, services, sv, n - 1, creates);
      CharSound(ConstructChars(o, services, sv, n - 1, creates), services, sv, n - 1, creates);
    }
  }

  /** Every configured context keeps in-range indices and a path of its own, whatever objects existed before. */
  lemma {:induction false} ServicesSound(o: Objects, services: seq<Service>, n: nat, creates: Path -> bool)
    requires n <= |services| && AllSound(o, services) && SensorsCreated(creates)
    ensures AllSound(ConstructServices(o, services, n, creates), services)
  {
    hide AllSound, ConstructChars, SensorsCreated;
    if n > 0 {
      ServicesSound(o, services, n - 1, creates);
      CharsSound(ConstructServices(o, services, n - 1, creates), services, n - 1, |services[n - 1].chars|, creates);
    }
  }

  lemma {:induction false} FieldsSupported(o: Objects, services: seq<Service>, sv: nat, ch: nat,
      objectId: nat, resourceId: nat, offset: nat, creates: Path -> bool)
    requires offset <= 2 && objectId != BLE_SERVICE && AllSupported(o.contexts, services)
    requires sv < |services| && ch < |services[sv].chars| && FormOf(services, sv, ch) != None
    ensures AllSupported(ConstructFields(o, sv, ch, objectId, resourceId, offset, creates).contexts, services)
    decreases 2 - offset
  {
    hide FormOf, InstanceIds.NextFree;
    if offset < 2 {
      var id := InstanceIds.NextFree(Used(o, objectId));
      if id >= 0 && creates(Path(objectId, id, resourceId)) {
        var path := Path(objectId, id, resourceId);
        var t := Configure(AddResource(o, path, [0], creates), Context(path, offset, sv, ch));
        FieldsSupported(t, services, sv, ch, objectId, resourceId, offset + 1, creates);
      }
    }
  }

  lemma CharSupported(o: Objects, services: seq<Service>, sv: nat, ch: nat, creates: Path -> bool)
    requires sv < |services| && ch < |services[sv].chars| && AllSupported(o.contexts, services)
    ensures AllSupported(ConstructChar(o, services, sv, ch, creates).contexts, services)
  {
    hide FormOf, ConstructFields, AddSensor, InstanceIds.NextFree;
    FormObject(services, sv, ch);
    match FormOf(services, sv, ch)
    case None =>
    case Some(Sensor(objectId)) =>
      var id := InstanceIds.NextFree(Used(o, objectId));
      if id >= 0 { AddSensorEffect(o, objectId, id, creates); }
    case Some(Digital) =>
      FieldsSupported(o, services, sv, ch, LIGHT_CONTROL, ON_OFF_VALUE, 0, creates);
      FieldsSupported(o, services, sv, ch, PUSH_BUTTON, DIGITAL_INPUT_STATE, 0, creates);
  }

  lemma {:induction false} CharsSupported(o: Objects, services: seq<Service>, sv: nat, n: nat, creates: Path -> bool)
    requires sv < |services| && n <= |services[sv].chars| && AllSupported(o.contexts, services)
    ensures AllSupported(ConstructChars(o, services, sv, n, creates).contexts, services)
  {
    hide AllSupported, ConstructChar;
    if n > 0 {
      CharsSupported(o, services, sv, n - 1, creates);
      CharSupported(ConstructChars(o, services, sv, n - 1, creates), services, sv, n - 1, creates);
    }
  }

  /** Every configured context has in-range indices of a supported characteristic, whatever resources are refused. */
  lemma {:induction false} ServicesSupported(o: Objects, services: seq<Service>, n: nat, creates: Path -> bool)
    requires n <= |services| && AllSupported(o.contexts, services)
    ensures AllSupported(ConstructServices(o, services, n, creates).contexts, services)
  {
    hide AllSupported, ConstructChars;
    if n > 0 {
      ServicesSupported(o, services, n - 1, creates);
      CharsSupported(ConstructServices(o, services, n - 1, creates), services, n - 1, |services[n - 1].chars|, creates);
    }
  }

  lemma LookupOwn(contexts: seq<Context>, k: nat)
    requires k < |contexts| && Own(contexts, k)
    ensures FindContext(contexts, contexts[k].path) == k
  {
    var j := FindContext(contexts, contexts[k].path);
    assert j <= k && contexts[j].path == contexts[k].path;
  }

  lemma LookupAt(contexts: seq<Context>, k: nat)
    requires Distinct(contexts) && k < |contexts|
    ensures FindContext(contexts, contexts[k].path) == k
  {
    var j := FindContext(contexts, contexts[k].path);
    assert j <= k && contexts[j].path == contexts[k].path;
  }

  /** Looking up the path of a configured context returns that very context, and any other path nothing. */
  lemma LookupExact(o: Objects, services: seq<Service>, path: Path)
    requires AllSound(o, services)
    ensures forall k :: 0 <= k < |o.contexts| ==> FindContext(o.contexts, o.contexts[k].path) == k
    ensures FindContext(o.contexts, path) < |o.contexts| <==> exists c :: c in o.contexts && c.path == path
  {
    hide Sound;
    forall k | 0 <= k < |o.contexts| ensures FindContext(o.contexts, o.contexts[k].path) == k {
      LookupAt(o.contexts, k);
    }
    var j := FindContext(o.contexts, path);
    if j < |o.contexts| { assert o.contexts[j] in o.contexts; }
  }

  /** Two sensors of one object get paths of their own exactly when one of the first one's resources was created. */
  lemma SecondSensorExact(o: Objects, sv: nat, ch: nat, ch': nat, objectId: nat, creates: Path -> bool)
    requires InstanceIds.NextFree(Used(o, objectId)) >= 0
    requires InstanceIds.NextFree(Used(ConstructSensor(o, sv, ch, objectId, creates), objectId)) >= 0
    ensures var both := ConstructSensor(ConstructSensor(o, sv, ch, objectId, creates), sv, ch', objectId, creates);
            var n := |o.contexts|;
            && both.contexts == o.contexts + both.contexts[n..] && |both.contexts| == n + 2
            && both.contexts[n].ch == ch && both.contexts[n + 1].ch == ch'
            && (both.contexts[n].path != both.contexts[n + 1].path <==>
                Accepted(objectId, InstanceIds.NextFree(Used(o, objectId)), creates))
  {
    hide AddSensor, Accepted;
    var id := InstanceIds.NextFree(Used(o, objectId));
    var first := ConstructSensor(o, sv, ch, objectId, creates);
    InstanceIds.NextFreeExact(Used(first, objectId));
    AddSensorEffect(o, objectId, id, creates);
    assert Used(first, objectId) == Used(AddSensor(o, objectId, id, creates), objectId);
    AddSensorEffect(first, objectId, InstanceIds.NextFree(Used(first, objectId)), creates);
    var both := ConstructSensor(first, sv, ch', objectId, creates);
    assert both.contexts[..|o.contexts|] == o.contexts;
  }

  /** Sensors whose value resources alone are refused still get paths of their own. */
  lemma RefusedValueAlone(o: Objects, sv: nat, ch: nat, ch': nat)
    requires InstanceIds.NextFree(Used(o, TEMPERATURE_SENSOR)) >= 0
    requires var creates := (p: Path) => p.resourceId != SENSOR_VALUE;
             InstanceIds.NextFree(Used(ConstructSensor(o, sv, ch, TEMPERATURE_SENSOR, creates), TEMPERATURE_SENSOR)) >= 0
    ensures var creates := (p: Path) => p.resourceId != SENSOR_VALUE;
            var both := ConstructSensor(ConstructSensor(o, sv, ch, TEMPERATURE_SENSOR, creates),
                                        sv, ch', TEMPERATURE_SENSOR, creates);
            |both.contexts| == |o.contexts| + 2
            && both.contexts[|o.contexts|].path != both.contexts[|o.contexts| + 1].path
  {
    SecondSensorExact(o, sv, ch, ch', TEMPERATURE_SENSOR, (p: Path) => p.resourceId != SENSOR_VALUE);
  }
}
