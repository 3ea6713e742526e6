/** One device's bridge between GATT and LwM2M, updated in place by the handlers. */
module Bridge {
  import opened Optional
  import opened Gatt
  import opened Translations
  import opened TwoBit
  import opened RawValues
  import opened CharacteristicValues
  import opened DeviceReplies
  import opened ServiceValues
  import InstanceIds

  class BleBridge {
    const services: seq<Service>
    /** Which resources the library accepts, and the float decoder of the sensors. */
    const creates: Path -> bool
    const format: Format

    var cells: seq<seq<Cell>>
    var used: map<nat, set<nat>>
    var resources: map<Path, Bytes>
    var contexts: seq<Context>

    ghost function ObjectsView(): Objects
      reads this
    {
      Objects(used, resources, contexts)
    }

    ghost function View(): State
      reads this
    {
      State(cells, ObjectsView())
    }

    ghost predicate Valid()
      reads this
    {
      Good(View(), services)
    }

    constructor (services: seq<Service>, creates: Path -> bool, format: Format)
      requires forall i, j :: 0 <= i < |services| && 0 <= j < |services[i].chars| ==> services[i].chars[j].valueSize > 0
      ensures Valid() && contexts == [] && used == map[] && resources == map[]
      ensures this.services == services && this.creates == creates && this.format == format
    {
      this.services, this.creates, this.format := services, creates, format;
      cells := seq(|services|, i requires 0 <= i < |services| =>
        seq(|services[i].chars|, j requires 0 <= j < |services[i].chars| =>
          Cell(seq(services[i].chars[j].valueSize, _ => 0), 0)));
      used, resources, contexts := map[], map[], [];
    }

    // ---------- Construction ----------

    /** ble_services_configure_translation_context */
    method ConfigureTranslationContext(c: Context)
      modifies this`contexts
      ensures ObjectsView() == Configure(old(ObjectsView()), c)
    {
      contexts := contexts + [c];
    }

    /** edge_add_resource, and the object instance that comes with a first resource. */
    method AddResourceValue(path: Path, value: Bytes) returns (ok: bool)
      modifies this`used, this`resources
      ensures ok == creates(path)
      ensures ObjectsView() == AddResource(old(ObjectsView()), path, value, creates)
    {
      ok := creates(path);
      if ok {
        used := used[path.objectId := (if path.objectId in used then used[path.objectId] else {}) + {path.instanceId}];
        resources := resources[path := value];
      }
    }

    /** pt_device_get_next_free_object_instance_id */
    method NextFreeInstance(objectId: nat) returns (id: int)
      ensures id == InstanceIds.NextFree(Used(ObjectsView(), objectId))
    {
      id := InstanceIds.NextFree(if objectId in used then used[objectId] else {});
    }

    /** ble_services_construct_sensor */
    method ConstructSensorObject(sv: nat, ch: nat, objectId: nat)
      modifies this`used, this`resources, this`contexts
      ensures ObjectsView() == ConstructSensor(old(ObjectsView()), sv, ch, objectId, creates)
    {
      hide InstanceIds.NextFree, AddResource, Ascii, UnitsOf, TypeOf, Used;
      var id := NextFreeInstance(objectId);
      if id < 0 { return; }
      CreateSensorObject(objectId, id, UnitsOf(objectId), TypeOf(objectId));
      AddMinMaxFields(objectId, id);
      ConfigureTranslationContext(Context(Path(objectId, id, SENSOR_VALUE), 0, sv, ch));
    }

    /** ipso_create_sensor_object: no answer of the library is looked at. */
    method CreateSensorObject(objectId: nat, id: nat, units: string, type_: string)
      modifies this`used, this`resources
      ensures var value := AddResource(old(ObjectsView()), Path(objectId, id, SENSOR_VALUE), [0, 0, 0, 0], creates);
              ObjectsView() ==
                AddResource(AddResource(value, Path(objectId, id, SENSOR_UNITS), Ascii(units), creates),
                            Path(objectId, id, SENSOR_TYPE), Ascii(type_), creates)
    {
      hide AddResource, Ascii;
      var ok := AddResourceValue(Path(objectId, id, SENSOR_VALUE), [0, 0, 0, 0]);
      ok := AddResourceValue(Path(objectId, id, SENSOR_UNITS), Ascii(units));
      ok := AddResourceValue(Path(objectId, id, SENSOR_TYPE), Ascii(type_));
    }

    /** ipso_add_min_max_fields */
    method AddMinMaxFields(objectId: nat, id: nat)
      modifies this`used, this`resources
      ensures var min := AddResource(old(ObjectsView()), Path(objectId, id, MIN_MEASURED_VALUE), [0x7F, 0x7F, 0xFF, 0xFF], creates);
              ObjectsView() ==
                AddResource(AddResource(min, Path(objectId, id, MAX_MEASURED_VALUE), [0xFF, 0x7F, 0xFF, 0xFF], creates),
                            Path(objectId, id, RESET_MIN_MAX_MEASURED_VALUES), [], creates)
    {
      hide AddResource;
      var ok := AddResourceValue(Path(objectId, id, MIN_MEASURED_VALUE), [0x7F, 0x7F, 0xFF, 0xFF]);
      ok := AddResourceValue(Path(objectId, id, MAX_MEASURED_VALUE), [0xFF, 0x7F, 0xFF, 0xFF]);
      ok := AddResourceValue(Path(objectId, id, RESET_MIN_MAX_MEASURED_VALUES), []);
    }

    /** ble_services_construct_lightcontrol_from_characteristic and its push-button twin */
    method ConstructDigital(sv: nat, ch: nat, objectId: nat, resourceId: nat)
      modifies this`used, this`resources, this`contexts
      ensures ObjectsView() == ConstructFields(old(ObjectsView()), sv, ch, objectId, resourceId, 0, creates)
    {
      hide InstanceIds.NextFree, Configure;
      var offset := 0;
      while offset < 2
        invariant offset <= 2
        invariant ConstructFields(ObjectsView(), sv, ch, objectId, resourceId, offset, creates) ==
                  ConstructFields(old(ObjectsView()), sv, ch, objectId, resourceId, 0, creates)
      {
        var id := NextFreeInstance(objectId);
        if id < 0 { return; }
        var path := Path(objectId, id, resourceId);
        var ok := AddResourceValue(path, [0]);
        if !ok { return; }
        ConfigureTranslationContext(Context(path, offset, sv, ch));
        offset := offset + 1;
      }
    }

    /** ble_services_construct_characteristic */
    method ConstructCharacteristic(sv: nat, ch: nat)
      requires Has(services, sv, ch)
      modifies this`used, this`resources, this`contexts
      ensures ObjectsView() == ConstructChar(old(ObjectsView()), services, sv, ch, creates)
    {
      hide FormOf, ConstructFields, ConstructSensor;
      match FormOf(services, sv, ch)
      case None =>
      case Some(Sensor(objectId)) => ConstructSensorObject(sv, ch, objectId);
      case Some(Digital) =>
        var properties := services[sv].chars[ch].properties;
        if Writable(properties) {
          ConstructDigital(sv, ch, LIGHT_CONTROL, ON_OFF_VALUE);
        } else if Readable(properties) {
          ConstructDigital(sv, ch, PUSH_BUTTON, DIGITAL_INPUT_STATE);
        }
    }

    /** device_add_resources_from_gatt, but for the introspection resource; a refused resource is skipped. */
    method AddResourcesFromGatt()
      requires Valid()
      modifies this`used, this`resources
      ensures SameShape(services, cells)
      ensures ObjectsView() == AddServiceResources(old(ObjectsView()), services, cells, |services|, creates)
      ensures Valid()
    {
      hide AddResource, FormOf;
      for i := 0 to |services|
        invariant ObjectsView() == AddServiceResources(old(ObjectsView()), services, cells, i, creates)
      {
        ghost var before := ObjectsView();
        for j := 0 to |services[i].chars|
          invariant before == AddServiceResources(old(ObjectsView()), services, cells, i, creates)
          invariant ObjectsView() == AddCharResources(before, services, cells, i, j, creates)
        {
          var ok := AddResourceValue(Path(BLE_SERVICE, i, services[i].chars[j].resourceId), cells[i][j].buffer);
        }
      }
    }

    /** device_add_known_translations_from_gatt; characteristics the table lacks have no constructor. */
    method AddKnownTranslations()
      requires Valid()
      modifies this`used, this`resources, this`contexts
      ensures ObjectsView() == ConstructServices(old(ObjectsView()), services, |services|, creates)
      ensures Valid()
      ensures SensorsCreated(creates) && AllSound(old(ObjectsView()), services) ==> AllSound(ObjectsView(), services)
    {
      hide ConstructChar;
      for i := 0 to |services|
        invariant ObjectsView() == ConstructServices(old(ObjectsView()), services, i, creates)
      {
        ghost var before := ObjectsView();
        for j := 0 to |services[i].chars|
          invariant before == ConstructServices(old(ObjectsView()), services, i, creates)
          invariant ObjectsView() == ConstructChars(before, services, i, j, creates)
        {
          ConstructCharacteristic(i, j);
        }
      }
      ServicesSupported(old(ObjectsView()), services, |services|, creates);
      if SensorsCreated(creates) && AllSound(old(ObjectsView()), services) {
        ServicesSound(old(ObjectsView()), services, |services|, creates);
      }
    }

    // ---------- Bytes ----------

    /** ble_services_find_translation_context */
    method FindTranslationContext(path: Path) returns (k: nat)
      ensures k == FindContext(contexts, path)
    {
      k := 0;
      while k < |contexts|
        invariant k <= |contexts|
        invariant forall j :: 0 <= j < k ==> contexts[j].path != path
      {
        if contexts[k].path == path { return; }
        k := k + 1;
      }
    }

    /** pt_device_set_resource_value */
    method SetResourceValue(path: Path, value: Bytes)
      modifies this`resources
      ensures resources == SetResource(old(resources), path, value)
    {
      if path in resources {
        resources := resources[path := value];
      }
    }

    /** characteristic_value_decode: the two-bit decoder, or the accumulation loop and the float format. */
    method DecodeValue(form: Form, flags: nat, value: Bytes) returns (d: Option<Bytes>)
      requires value != [] && flags < 2
      ensures d == Decoded(form, flags, value, format)
    {
      match form
      case Sensor(objectId) =>
        var raw := Accumulate(value);
        d := format(objectId, raw);
      case Digital => d := Some([Decode(value, flags)]);
    }

    /** ble_services_decode_and_write_characteristic_translation */
    method DecodeAndWriteTranslation(sv: nat, ch: nat, value: Bytes)
      requires Valid() && Has(services, sv, ch) && value != []
      modifies this`resources
      ensures View() == Translate(old(View()), services, sv, ch, value, format)
      ensures Valid()
    {
      hide FormOf, Decoded, SetResource;
      TranslateFollows(View(), services, sv, ch, value, format);
      TranslateGood(View(), services, sv, ch, value, format);
      var form := FormOf(services, sv, ch);
      if form == None { return; }
      assert forall i :: 0 <= i < |contexts| ==> Supported(services, contexts[i]);
      for k := 0 to |contexts|
        invariant resources == FanOut(old(resources), contexts, k, sv, ch, form.value, value, format)
      {
        var c := contexts[k];
        if c.sv == sv && c.ch == ch {
          var d := DecodeValue(form.value, c.flags, value);
          if d != None {
            SetResourceValue(c.path, d.value);
          }
        }
      }
    }

    /** set_local_characteristic_value */
    method SetLocalCharacteristicValue(sv: nat, ch: nat, value: Bytes)
      requires Valid() && Has(services, sv, ch)
      modifies this`cells, this`resources
      ensures View() == SetLocal(old(View()), services, sv, ch, value)
      ensures Valid()
    {
      LocalFollows(View(), services, sv, ch, value);
      hide AllSupported, SetResource;
      var c := services[sv].chars[ch];
      var buffer;
      if |value| < c.valueSize {
        buffer := value + seq(c.valueSize - |value|, _ => 0);
      } else {
        buffer := value[..c.valueSize];
      }
      cells := cells[sv := cells[sv][ch := Cell(buffer, |value|)]];
      SetResourceValue(Path(BLE_SERVICE, sv, c.resourceId), value);
    }

    /** ble_read_characteristic_callback, for a device that is still listed. */
    method ReadCharacteristicCallback(sv: nat, ch: nat, bytes: Bytes, spare: bv8)
      requires Valid() && Has(services, sv, ch)
      modifies this`cells, this`resources
      ensures View() == Poll(old(View()), services, sv, ch, bytes, spare, format)
      ensures Valid()
    {
      PollFollows(View(), services, sv, ch, bytes, spare, format);
      hide AllSupported, SetResource, Translate;
      var c, cell := services[sv].chars[ch], cells[sv][ch];
      var reported := ParseResult(bytes, c.valueSize, spare);
      var buffer := reported + cell.buffer[|reported|..];
      DecodeAndWriteTranslation(sv, ch, reported);
      if c.kind == Integer {
        if |buffer| == 2 {
          buffer := [buffer[1], buffer[0]];
        } else if |buffer| == 4 {
          buffer := [buffer[3], buffer[2], buffer[1], buffer[0]];
        }
      }
      cells := cells[sv := cells[sv][ch := Cell(buffer, |reported|)]];
      SetResourceValue(Path(BLE_SERVICE, sv, c.resourceId), buffer[..|reported|]);
    }

    /** parse_result_variant: the index advances before the iterator says there is nothing left. */
    static method ParseResult(bytes: Bytes, max: nat, spare: bv8) returns (data: Bytes)
      ensures data == Reported(max, bytes, spare)
    {
      data := [];
      var more := true;
      while more && |data| < max
        invariant |data| <= max
        invariant more ==> |data| <= |bytes| && data == bytes[..|data|]
        invariant !more ==> |bytes| < max && data == bytes + [spare]
        decreases more, max - |data|
      {
        more := |data| < |bytes|;
        data := data + [if more then bytes[|data|] else spare];
      }
    }

    /** device_write_characteristic; `ok` is the outcome of the GATT write. */
    method WriteCharacteristic(path: Path, value: Bytes, ok: bool) returns (rc: int)
      requires Valid() && value != []
      modifies this`cells, this`resources
      ensures path.objectId == BLE_SERVICE ==>
        View() == ServiceWrite(old(View()), services, path.instanceId, path.resourceId, value, ok, format)
      ensures path.objectId != BLE_SERVICE ==> View() == TranslatedWrite(old(View()), services, path, value, ok)
      ensures Valid()
      ensures path.objectId == BLE_SERVICE ==>
        (rc == 0 <==> ok && Target(services, path.instanceId, path.resourceId) != None)
      ensures path.objectId != BLE_SERVICE ==> (rc == 0 <==> ok && Sent(old(View()), services, path, value) != None)
    {
      hide FormOf, Translate, SetLocal, AllSupported, Encode;
      if path.objectId != BLE_SERVICE {
        var k := FindTranslationContext(path);
        if k < |contexts| {
          var c := contexts[k];
          SupportedAt(View(), services, k);
          if FormOf(services, c.sv, c.ch) == Some(Digital) {
            var translated := Encode(cells[c.sv][c.ch].buffer, c.flags, value[0]);
            if translated != None {
              if ok {
                SetLocalCharacteristicValue(c.sv, c.ch, value);
              }
              return if ok then 0 else -1;
            }
          }
        }
      } else if path.instanceId < |services| {
        var ch := FindCharacteristic(services[path.instanceId].chars, path.resourceId);
        if ch < |services[path.instanceId].chars| {
          if ok {
            SetLocalCharacteristicValue(path.instanceId, ch, value);
            DecodeAndWriteTranslation(path.instanceId, ch, value);
          }
          return if ok then 0 else -1;
        }
      }
      rc := -1;
    }

    // ---------- Runs ----------

    method HandleEvent(e: Event)
      requires Valid() && Legal(services, e)
      modifies this`cells, this`resources
      ensures View() == Handle(old(View()), services, e, format)
      ensures Valid()
    {
      hide Poll, ServiceWrite, TranslatedWrite;
      match e
      case Polled(sv, ch, bytes, spare) => ReadCharacteristicCallback(sv, ch, bytes, spare);
      case ServiceWritten(i, r, value, ok) =>
        var rc := WriteCharacteristic(Path(BLE_SERVICE, i, r), value, ok);
      case TranslatedWritten(path, value, ok) =>
        var rc := WriteCharacteristic(path, value, ok);
    }

    /** Any run of polls and writes, with the value every translated resource ends with. */
    method RunEvents(es: seq<Event>)
      requires Valid() && forall i :: 0 <= i < |es| ==> Legal(services, es[i])
      modifies this`cells, this`resources
      ensures View() == After(old(View()), services, es, format)
      ensures Valid()
      ensures forall k :: 0 <= k < |contexts| ==>
        ContextAt(old(View()), services, k) &&
        (old(Alone(View(), k)) ==>
          contexts[k].path in resources && contexts[k].path in old(resources) &&
          resources[contexts[k].path] ==
            LatestDecoded(services, es, contexts[k], format).GetOr(old(resources)[contexts[k].path]))
      ensures Discovered(services) ==> forall k :: 0 <= k < |contexts| ==>
        ContextAt(old(View()), services, k) &&
        (old(Alone(View(), k)) && AllReadAsSent(services, es, contexts[k]) ==>
          contexts[k].path in resources && contexts[k].path in old(resources) &&
          resources[contexts[k].path] ==
            LatestSentDecoded(services, es, contexts[k], format).GetOr(old(resources)[contexts[k].path]))
    {
      hide Handle, FormOf, Delivered, News, SentNews, Fits, AllSupported, Discovered, AllReadAsSent;
      for i := 0 to |es|
        invariant Valid()
        invariant View() == After(old(View()), services, es[..i], format)
      {
        HandleEvent(es[i]);
        assert es[..i + 1][..i] == es[..i];
      }
      assert es[..|es|] == es;
      TranslationsFollow(old(View()), services, es, format);
      if Discovered(services) {
        forall k | 0 <= k < |contexts| && AllReadAsSent(services, es, contexts[k])
          ensures LatestDecoded(services, es, contexts[k], format) == LatestSentDecoded(services, es, contexts[k], format)
        {
          DecodedAsSent(services, es, contexts[k], format);
        }
      }
    }
  }
}
