/** The values of the translated resources, told from the UUIDs and the bytes. */
module StandardValues {
  import opened Optional
  import opened RawValues
  import opened Gatt
  import opened Translations
  import opened TwoBit
  import opened CharacteristicValues
  import opened ConstructedObjects

  // ---------- Discovery, call by call ----------

  /** How many of the first n calls are for this service. */
  function CallsFor(calls: seq<Call>, u: Uuid, n: nat): nat
    requires n <= |calls|
  {
    if n == 0 then 0 else CallsFor(calls, u, n - 1) + if calls[n - 1].service == u then 1 else 0
  }

  lemma {:induction false} CallsForExact(calls: seq<Call>, u: Uuid, n: nat)
    requires n <= |calls|
    ensures |CallsOf(calls[..n], u)| == CallsFor(calls, u, n)
  {
    if n > 0 {
      CallsForExact(calls, u, n - 1);
      assert calls[..n][..n - 1] == calls[..n - 1];
    }
  }

  lemma {:induction false} CallsOfAt(calls: seq<Call>, n: nat)
    requires n < |calls|
    ensures var u := calls[n].service;
            |CallsOf(calls[..n], u)| < |CallsOf(calls, u)| && CallsOf(calls, u)[|CallsOf(calls[..n], u)|] == calls[n]
  {
    var last := |calls| - 1;
    if n < last {
      CallsOfAt(calls[..last], n);
      assert calls[..last][..n] == calls[..n];
    }
  }

  lemma FirstOfAll(calls: seq<Call>, n: nat)
    requires n < |calls|
    ensures var u := calls[n].service;
            CallsOf(calls, u) != [] && (CallsOf(calls[..n], u) == [] ==> CallsOf(calls, u)[0] == calls[n])
  {
    CallsOfAt(calls, n);
  }

  /** Kind and buffer size of a characteristic: a four-byte integer, a string of 32, or anything of 512. */
  predicate Sized(c: Characteristic) {
    if c.uuid == "0000ed01-0000-1000-8000-00805f9b34fb" then c.kind == Integer && c.valueSize == 4
    else if c.uuid == "0000ed02-0000-1000-8000-00805f9b34fb" then c.kind == String && c.valueSize == 32
    else c.kind == Struct && c.valueSize == 512
  }

  /**
   * Every call of a discovery finds its place: in the service it names, after the characteristics of its earlier calls,
   * with what the call says, the position as resource id, and the size of its kind; the first names the service's path.
   */
  lemma CallPlaced(calls: seq<Call>, n: nat) returns (i: nat)
    requires n < |calls|
    ensures var services, c, j := Build(calls), calls[n], CallsFor(calls, calls[n].service, n);
            && i < |services| && services[i].uuid == c.service && j < |services[i].chars|
            && var d := services[i].chars[j];
            && d.uuid == c.uuid && d.path == c.path && d.properties == c.properties && d.resourceId == j % 65536 && Sized(d)
            && (j == 0 ==> services[i].path == Some(c.servicePath))
  {
    var u := calls[n].service;
    BuildGroups(calls);
    GroupIsNamed(calls);
    FirstSeenFacts(calls);
    hide Build, Groups, FirstSeen, CallsOf;
    assert u in FirstSeen(calls);
    i :| 0 <= i < |FirstSeen(calls)| && FirstSeen(calls)[i] == u;
    CallsOfAt(calls, n);
    CallsForExact(calls, u, n);
    FirstOfAll(calls, n);
    assert Build(calls)[i] == Group(calls, u);
  }

  // ---------- Decoded values ----------

  function ByteAt(v: Bytes, i: nat): nat { if i < |v| then v[i] as nat else 0 }

  /** The little-endian number of the first four bytes. */
  function Number(v: Bytes): nat {
    ByteAt(v, 0) + 256 * ByteAt(v, 1) + 65536 * ByteAt(v, 2) + 16777216 * ByteAt(v, 3)
  }

  lemma TailIs(w: Bytes, i: nat)
    requires i <= |w|
    ensures Little(w[i..]) == if i == |w| then 0 else ByteAt(w, i) + 256 * Little(w[i + 1..])
  {
    if i < |w| { assert w[i..][1..] == w[i + 1..]; }
  }

  lemma SameBytes(v: Bytes, i: nat)
    ensures i < 4 ==> ByteAt(Counted(v), i) == ByteAt(v, i)
    ensures i >= |v| ==> ByteAt(v, i) == 0
  {
  }

  lemma NumberExact(v: Bytes)
    ensures RawOf(v) == Number(v)
  {
    var w := Counted(v);
    SameBytes(v, 0);
    SameBytes(v, 1);
    SameBytes(v, 2);
    SameBytes(v, 3);
    assert w[0..] == w && |w| <= 4 && (|v| < 4 ==> |w| == |v|) && (|v| >= 4 ==> |w| == 4);
    hide Little, ByteAt, Counted;
    TailIs(w, 0);
    if |w| > 0 { TailIs(w, 1); }
    if |w| > 1 { TailIs(w, 2); }
    if |w| > 2 { TailIs(w, 3); }
    if |w| > 3 { TailIs(w, 4); }
  }

  /** A sensor gives its object and number to the float format; a digital field is two bits of the first byte. */
  lemma DecodedByUuid(services: seq<Service>, sv: nat, ch: nat, flags: nat, v: Bytes, format: Format)
    requires Has(services, sv, ch) && v != [] && flags < 2
    ensures var service, char_ := services[sv].uuid, services[sv].chars[ch].uuid;
            && (forall objectId: nat :: NamesSensor(service, char_, objectId) ==>
                  FormOf(services, sv, ch) != None
                  && Decoded(FormOf(services, sv, ch).value, flags, v, format) == format(objectId, Number(v)))
            && (NamesDigital(service, char_) ==>
                  FormOf(services, sv, ch) != None
                  && Decoded(FormOf(services, sv, ch).value, flags, v, format) ==
                       Some([if flags == 0 then v[0] & 3 else (v[0] >> 2) & 3]))
  {
    hide FormOf, Number, NamesSensor, NamesDigital, Decoded;
    var service, char_ := services[sv].uuid, services[sv].chars[ch].uuid;
    forall objectId: nat | NamesSensor(service, char_, objectId)
      ensures FormOf(services, sv, ch) == Some(Sensor(objectId))
    {
      FormSensor(services, sv, ch, objectId);
    }
    if NamesDigital(service, char_) {
      FormDigital(services, sv, ch);
      DigitalDecoded(flags, v, format);
    }
    SensorDecoded(flags, v, format);
  }

  lemma SensorDecoded(flags: nat, v: Bytes, format: Format)
    requires v != [] && flags < 2
    ensures forall objectId: nat :: Decoded(Sensor(objectId), flags, v, format) == format(objectId, Number(v))
  {
    NumberExact(v);
    hide RawOf, Number;
  }

  lemma DigitalDecoded(flags: nat, v: Bytes, format: Format)
    requires v != [] && flags < 2
    ensures Decoded(Digital, flags, v, format) == Some([if flags == 0 then v[0] & 3 else (v[0] >> 2) & 3])
  {
  }

  /**
   * After any run the resource of a sensor's context holds what the float format makes of its object and the number of
   * the last bytes reported, and that of a digital context the two bits of its field.
   */
  lemma ResourceByUuid(s: State, services: seq<Service>, es: seq<Event>, format: Format, k: nat)
    requires Good(s, services) && (forall i :: 0 <= i < |es| ==> Legal(services, es[i]))
    requires k < |s.objects.contexts| && Alone(s, k)
    requires forall objectId, raw :: format(objectId, raw) != None
    ensures var c := s.objects.contexts[k];
            && Has(services, c.sv, c.ch) && c.path in After(s, services, es, format).objects.resources
            && var service, char_ := services[c.sv].uuid, services[c.sv].chars[c.ch].uuid;
            && LatestBytes(services, es, c.sv, c.ch) != None ==>
                 var v, r := LatestBytes(services, es, c.sv, c.ch).value, After(s, services, es, format).objects.resources[c.path];
                 && (forall objectId: nat :: NamesSensor(service, char_, objectId) ==> Some(r) == format(objectId, Number(v)))
                 && (NamesDigital(service, char_) ==> r == [if c.flags == 0 then v[0] & 3 else (v[0] >> 2) & 3])
  {
    TranslationsFollow(s, services, es, format);
    SupportedAt(s, services, k);
    var c := s.objects.contexts[k];
    hide FormOf, After, Good, Alone, Number, NamesSensor, NamesDigital;
    forall v: Bytes | v != [] ensures Decoded(FormOf(services, c.sv, c.ch).value, c.flags, v, format) != None {
    }
    LatestIsDecoded(services, es, c, format);
    if LatestBytes(services, es, c.sv, c.ch) != None {
      DecodedByUuid(services, c.sv, c.ch, c.flags, LatestBytes(services, es, c.sv, c.ch).value, format);
    }
    hide Decoded;
  }
}
