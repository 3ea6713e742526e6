/** Characteristic values and the translated resources that follow them. */
module CharacteristicValues {
  import opened Optional
  import opened Gatt
  import opened Translations
  import opened TwoBit
  import opened RawValues

  /** The value buffer of a characteristic and the length last stored in it. */
  datatype Cell = Cell(buffer: Bytes, length: nat)

  datatype State = State(cells: seq<seq<Cell>>, objects: Objects)

  /** What the decoder of a sensor makes of the number it accumulated, with floats; it may fail. */
  type Format = (nat, nat) -> Option<Bytes>

  predicate Fits(s: State, services: seq<Service>) {
    && |s.cells| == |services|
    && forall i :: 0 <= i < |services| ==>
         && |s.cells[i]| == |services[i].chars|
         && forall j :: 0 <= j < |services[i].chars| ==>
              |s.cells[i][j].buffer| == services[i].chars[j].valueSize > 0
  }

  predicate Has(services: seq<Service>, sv: nat, ch: nat) {
    sv < |services| && ch < |services[sv].chars|
  }

  /** Everything the handlers rely on. */
  predicate Good(s: State, services: seq<Service>) {
    Fits(s, services) && AllSupported(s.objects.contexts, services)
  }

  function SetCell(s: State, sv: nat, ch: nat, cell: Cell): State
    requires sv < |s.cells| && ch < |s.cells[sv]|
  {
    s.(cells := s.cells[sv := s.cells[sv][ch := cell]])
  }

  // ---------- Decoding into the translated resources ----------

  function Decoded(form: Form, flags: nat, value: Bytes, format: Format): Option<Bytes>
    requires value != [] && flags < 2
  {
    match form
    case Sensor(objectId) => format(objectId, RawOf(value))
    case Digital => Some([Decode(value, flags)])
  }

  /** Visit the first n contexts and set the resource of each that stands for the characteristic. */
  function FanOut(resources: map<Path, Bytes>, contexts: seq<Context>, n: nat, sv: nat, ch: nat,
      form: Form, value: Bytes, format: Format): map<Path, Bytes>
    requires n <= |contexts| && value != []
    requires forall i :: 0 <= i < |contexts| ==> contexts[i].flags < 2
  {
    if n == 0 then resources
    else
      var before := FanOut(resources, contexts, n - 1, sv, ch, form, value, format);
      var c := contexts[n - 1];
      if c.sv != sv || c.ch != ch then before
      else
        match Decoded(form, c.flags, value, format)
        case None => before
        case Some(d) => SetResource(before, c.path, d)
  }

  /** ble_services_decode_and_write_characteristic_translation, for a supported characteristic. */
  function Translate(s: State, services: seq<Service>, sv: nat, ch: nat, value: Bytes, format: Format): State
    requires Good(s, services) && Has(services, sv, ch) && value != []
  {
    match FormOf(services, sv, ch)
    case None => s
    case Some(form) =>
      assert forall i :: 0 <= i < |s.objects.contexts| ==> Supported(services, s.objects.contexts[i]);
      s.(objects := s.objects.(resources :=
        FanOut(s.objects.resources, s.objects.contexts, |s.objects.contexts|, sv, ch, form, value, format)))
  }

  // ---------- A completed poll ----------

  /**
   * The bytes a poll reports. The count is incremented on the final failing step too, so a reply shorter than the
   * buffer is reported with one byte more, whatever stands there.
   */
  function Reported(max: nat, bytes: Bytes, spare: bv8): (r: Bytes)
    ensures |r| == if |bytes| < max then |bytes| + 1 else max
  {
    if |bytes| < max then bytes + [spare] else bytes[..max]
  }

  function Swapped(c: Characteristic, buffer: Bytes): Bytes {
    if c.kind != Integer then buffer
    else if |buffer| == 2 then [buffer[1], buffer[0]]
    else if |buffer| == 4 then [buffer[3], buffer[2], buffer[1], buffer[0]]
    else buffer
  }

  /** ble_read_characteristic_callback on a device still listed. */
  function Poll(s: State, services: seq<Service>, sv: nat, ch: nat, bytes: Bytes, spare: bv8, format: Format): State
    requires Good(s, services) && Has(services, sv, ch)
  {
    var c, cell := services[sv].chars[ch], s.cells[sv][ch];
    var reported := Reported(c.valueSize, bytes, spare);
    var buffer := reported + cell.buffer[|reported|..];
    var t := Translate(s, services, sv, ch, reported, format);
    var swapped := Swapped(c, buffer);
    var u := SetCell(t, sv, ch, Cell(swapped, |reported|));
    u.(objects := u.objects.(resources :=
      SetResource(u.objects.resources, Path(BLE_SERVICE, sv, c.resourceId), swapped[..|reported|])))
  }

  // ---------- Writes from LwM2M ----------

  /** set_local_characteristic_value: the stored length may exceed the buffer. */
  function SetLocal(s: State, services: seq<Service>, sv: nat, ch: nat, value: Bytes): State
    requires Fits(s, services) && Has(services, sv, ch)
  {
    var c := services[sv].chars[ch];
    var buffer := if |value| < c.valueSize then value + seq(c.valueSize - |value|, _ => 0) else value[..c.valueSize];
    var t := SetCell(s, sv, ch, Cell(buffer, |value|));
    t.(objects := t.objects.(resources :=
      SetResource(t.objects.resources, Path(BLE_SERVICE, sv, c.resourceId), value)))
  }

  /** The characteristic a write to the service object reaches. */
  function Target(services: seq<Service>, instanceId: nat, resourceId: nat): Option<nat> {
    if instanceId >= |services| then None
    else
      var k := FindResource(services[instanceId].chars, resourceId);
      if k < |services[instanceId].chars| then Some(k) else None
  }

  /** A write to /18135/instanceId/resourceId; `ok` is the outcome of the GATT write. */
  function ServiceWrite(s: State, services: seq<Service>, instanceId: nat, resourceId: nat, value: Bytes, ok: bool,
      format: Format): State
    requires Good(s, services) && value != []
  {
    match Target(services, instanceId, resourceId)
    case None => s
    case Some(ch) =>
      if !ok then s
      else
        LocalGood(s, services, instanceId, ch, value);
        Translate(SetLocal(s, services, instanceId, ch, value), services, instanceId, ch, value, format)
  }

  /** What a write to a translated resource sends to the device: the encoding into the locally stored value. */
  function Sent(s: State, services: seq<Service>, path: Path, value: Bytes): Option<Bytes>
    requires Good(s, services) && value != []
  {
    var k := FindContext(s.objects.contexts, path);
    if k == |s.objects.contexts| then None
    else
      var c := s.objects.contexts[k];
      assert Supported(services, c);
      if FormOf(services, c.sv, c.ch) != Some(Digital) then None
      else Encode(s.cells[c.sv][c.ch].buffer, c.flags, value[0])
  }

  /** A write to a translated resource. The value stored locally is the one written, not the one sent. */
  function TranslatedWrite(s: State, services: seq<Service>, path: Path, value: Bytes, ok: bool): State
    requires Good(s, services) && value != []
  {
    if Sent(s, services, path, value) == None || !ok then s
    else
      var c := s.objects.contexts[FindContext(s.objects.contexts, path)];
      assert Supported(services, c);
      SetLocal(s, services, c.sv, c.ch, value)
  }

  // ---------- Every handler keeps the state good ----------

  lemma LocalGood(s: State, services: seq<Service>, sv: nat, ch: nat, value: Bytes)
    requires Good(s, services) && Has(services, sv, ch)
    ensures Good(SetLocal(s, services, sv, ch, value), services)
  {
    hide FormOf;
    var t := SetLocal(s, services, sv, ch, value);
    assert Fits(t, services);
  }

  lemma {:induction false} FanOutKeys(resources: map<Path, Bytes>, contexts: seq<Context>, n: nat, sv: nat, ch: nat,
      form: Form, value: Bytes, format: Format)
    requires n <= |contexts| && value != []
    requires forall i :: 0 <= i < |contexts| ==> contexts[i].flags < 2
    ensures FanOut(resources, contexts, n, sv, ch, form, value, format).Keys == resources.Keys
  {
    hide Decoded;
    if n > 0 {
      FanOutKeys(resources, contexts, n - 1, sv, ch, form, value, format);
    }
  }

  lemma {:induction false} FanOutOther(resources: map<Path, Bytes>, contexts: seq<Context>, n: nat, sv: nat, ch: nat,
      form: Form, value: Bytes, format: Format, p: Path)
    requires n <= |contexts| && value != [] && p in resources
    requires forall i :: 0 <= i < |contexts| ==> contexts[i].flags < 2
    requires forall i :: 0 <= i < n ==> contexts[i].path != p
    ensures p in FanOut(resources, contexts, n, sv, ch, form, value, format)
    ensures FanOut(resources, contexts, n, sv, ch, form, value, format)[p] == resources[p]
  {
    hide Decoded;
    if n > 0 {
      FanOutOther(resources, contexts, n - 1, sv, ch, form, value, format, p);
    }
  }

  /** One context of the list: its resource follows the characteristic, whatever the other contexts. */
  lemma {:induction false} FanOutAt(resources: map<Path, Bytes>, contexts: seq<Context>, n: nat, sv: nat, ch: nat,
      form: Form, value: Bytes, format: Format, k: nat)
    requires k < n <= |contexts| && value != [] && Own(contexts, k) && contexts[k].path in resources
    requires forall i :: 0 <= i < |contexts| ==> contexts[i].flags < 2
    ensures var r, c := FanOut(resources, contexts, n, sv, ch, form, value, format), contexts[k];
            && c.path in r
            && r[c.path] ==
                 if c.sv == sv && c.ch == ch then Decoded(form, c.flags, value, format).GetOr(resources[c.path])
                 else resources[c.path]
  {
    hide Decoded;
    if k < n - 1 {
      FanOutAt(resources, contexts, n - 1, sv, ch, form, value, format, k);
    } else {
      FanOutOther(resources, contexts, n - 1, sv, ch, form, value, format, contexts[k].path);
    }
  }

  /** The decoder's result for one context, if the bytes are for its characteristic. */
  function Delivered(services: seq<Service>, c: Context, sv: nat, ch: nat, value: Bytes, format: Format): Option<Bytes>
    requires Has(services, c.sv, c.ch) && FormOf(services, c.sv, c.ch) != None && c.flags < 2 && value != []
  {
    if c.sv != sv || c.ch != ch then None
    else Decoded(FormOf(services, c.sv, c.ch).value, c.flags, value, format)
  }

  /** A state after one in which only cells and resource values changed. */
  predicate SameObjects(s: State, t: State) {
    t.objects.contexts == s.objects.contexts && t.objects.used == s.objects.used
    && t.objects.resources.Keys == s.objects.resources.Keys
  }

  /** Context k has a path of its own, and its resource exists. */
  predicate Alone(s: State, k: nat)
    requires k < |s.objects.contexts|
  {
    Own(s.objects.contexts, k) && s.objects.contexts[k].path in s.objects.resources
  }

  lemma SameAlone(s: State, t: State, k: nat)
    requires SameObjects(s, t) && k < |s.objects.contexts|
    ensures Alone(s, k) <==> Alone(t, k)
    ensures Alone(s, k) ==> s.objects.contexts[k].path in t.objects.resources
  {
    assert s.objects.contexts[k].path in s.objects.resources.Keys <==> s.objects.contexts[k].path in t.objects.resources.Keys;
  }

  /** After a construction in which every sensor's value resource was created, that holds of every context. */
  lemma SoundIsAlone(s: State, services: seq<Service>, k: nat)
    requires AllSound(s.objects, services) && k < |s.objects.contexts|
    ensures AllSupported(s.objects.contexts, services) && Alone(s, k)
  {
    hide FormOf;
    assert forall i :: 0 <= i < |s.objects.contexts| ==> Sound(s.objects, services, s.objects.contexts[i]);
  }

  /** Bytes of one characteristic change the resource of a context that stands for it, and of no other. */
  predicate Follows(s: State, t: State, services: seq<Service>, sv: nat, ch: nat, value: Bytes, format: Format)
    requires Good(s, services) && value != [] && SameObjects(s, t)
  {
    forall k :: 0 <= k < |s.objects.contexts| ==>
      ContextAt(s, services, k) &&
      (Alone(s, k) ==>
        var c := s.objects.contexts[k];
        && c.path in t.objects.resources
        && t.objects.resources[c.path] ==
             Delivered(services, c, sv, ch, value, format).GetOr(s.objects.resources[c.path]))
  }

  /** The facts of one context, kept under a name. */
  predicate ContextAt(s: State, services: seq<Service>, k: nat)
    requires k < |s.objects.contexts|
  {
    Supported(services, s.objects.contexts[k])
  }

  lemma TranslateFollows(s: State, services: seq<Service>, sv: nat, ch: nat, value: Bytes, format: Format)
    requires Good(s, services) && Has(services, sv, ch) && value != []
    ensures var t := Translate(s, services, sv, ch, value, format);
            t.cells == s.cells && SameObjects(s, t) && Follows(s, t, services, sv, ch, value, format)
  {
    hide FormOf, FanOut, Decoded;
    var contexts := s.objects.contexts;
    assert forall k :: 0 <= k < |contexts| ==> Supported(services, contexts[k]);
    match FormOf(services, sv, ch)
    case None =>
      assert forall k :: 0 <= k < |contexts| ==> contexts[k].sv != sv || contexts[k].ch != ch;
    case Some(form) =>
      FanOutKeys(s.objects.resources, contexts, |contexts|, sv, ch, form, value, format);
      forall k | 0 <= k < |contexts| && Alone(s, k)
        ensures Translate(s, services, sv, ch, value, format).objects.resources[contexts[k].path] ==
          Delivered(services, contexts[k], sv, ch, value, format).GetOr(s.objects.resources[contexts[k].path])
      {
        FanOutAt(s.objects.resources, contexts, |contexts|, sv, ch, form, value, format, k);
      }
  }

  lemma TranslateGood(s: State, services: seq<Service>, sv: nat, ch: nat, value: Bytes, format: Format)
    requires Good(s, services) && Has(services, sv, ch) && value != []
    ensures Good(Translate(s, services, sv, ch, value, format), services)
  {
    hide AllSupported, FormOf, Translate;
    var t := Translate(s, services, sv, ch, value, format);
    TranslateFollows(s, services, sv, ch, value, format);
    FitsSameCells(s, t, services);
  }

  /** No translated resource is one of the service object. */
  lemma ServiceResourceApart(s: State, services: seq<Service>, path: Path, value: Bytes)
    requires AllSupported(s.objects.contexts, services) && path.objectId == BLE_SERVICE
    ensures var r := SetResource(s.objects.resources, path, value);
            && r.Keys == s.objects.resources.Keys
            && forall k :: 0 <= k < |s.objects.contexts| && s.objects.contexts[k].path in s.objects.resources ==>
                 s.objects.contexts[k].path in r
                 && r[s.objects.contexts[k].path] == s.objects.resources[s.objects.contexts[k].path]
  {
    hide FormOf;
    assert forall k :: 0 <= k < |s.objects.contexts| ==> Supported(services, s.objects.contexts[k]);
  }

  lemma PollFollows(s: State, services: seq<Service>, sv: nat, ch: nat, bytes: Bytes, spare: bv8, format: Format)
    requires Good(s, services) && Has(services, sv, ch)
    ensures var t := Poll(s, services, sv, ch, bytes, spare, format);
            && Good(t, services) && SameObjects(s, t)
            && Follows(s, t, services, sv, ch, Reported(services[sv].chars[ch].valueSize, bytes, spare), format)
  {
    hide FormOf, Translate, Decoded, Delivered, AllSupported, SetResource;
    var c, cell := services[sv].chars[ch], s.cells[sv][ch];
    var reported := Reported(c.valueSize, bytes, spare);
    var t := Translate(s, services, sv, ch, reported, format);
    TranslateFollows(s, services, sv, ch, reported, format);
    var swapped := Swapped(c, reported + cell.buffer[|reported|..]);
    var u := SetCell(t, sv, ch, Cell(swapped, |reported|));
    ServiceResourceApart(u, services, Path(BLE_SERVICE, sv, c.resourceId), swapped[..|reported|]);
    var w := Poll(s, services, sv, ch, bytes, spare, format);
    assert Fits(w, services);
  }

  lemma LocalFollows(s: State, services: seq<Service>, sv: nat, ch: nat, value: Bytes)
    requires Good(s, services) && Has(services, sv, ch)
    ensures var t := SetLocal(s, services, sv, ch, value);
            && Good(t, services) && SameObjects(s, t)
            && forall k :: 0 <= k < |s.objects.contexts| && s.objects.contexts[k].path in s.objects.resources ==>
                 var p := s.objects.contexts[k].path;
                 p in t.objects.resources && t.objects.resources[p] == s.objects.resources[p]
  {
    LocalGood(s, services, sv, ch, value);
    hide FormOf, AllSupported, SetResource;
    ServiceResourceApart(s, services, Path(BLE_SERVICE, sv, services[sv].chars[ch].resourceId), value);
  }

  lemma WriteFollows(s: State, services: seq<Service>, sv: nat, ch: nat, value: Bytes, format: Format)
    requires Good(s, services) && Has(services, sv, ch) && value != []
    ensures Good(SetLocal(s, services, sv, ch, value), services)
    ensures var t := Translate(SetLocal(s, services, sv, ch, value), services, sv, ch, value, format);
            Good(t, services) && SameObjects(s, t) && Follows(s, t, services, sv, ch, value, format)
  {
    hide FormOf, Translate, Decoded, Delivered, AllSupported, SetLocal, Fits;
    LocalFollows(s, services, sv, ch, value);
    var local := SetLocal(s, services, sv, ch, value);
    TranslateFollows(local, services, sv, ch, value, format);
    var t := Translate(local, services, sv, ch, value, format);
    FitsSameCells(local, t, services);
    forall k | 0 <= k < |s.objects.contexts|
      ensures ContextAt(s, services, k)
      ensures Alone(s, k) ==>
              var c := s.objects.contexts[k];
              c.path in t.objects.resources && t.objects.resources[c.path] ==
                Delivered(services, c, sv, ch, value, format).GetOr(s.objects.resources[c.path])
    {
      SupportedAt(s, services, k);
      SameAlone(s, local, k);
      assert ContextAt(local, services, k);
    }
  }

  lemma SupportedAt(s: State, services: seq<Service>, k: nat)
    requires AllSupported(s.objects.contexts, services) && k < |s.objects.contexts|
    ensures ContextAt(s, services, k)
  {
  }

  lemma FitsSameCells(s: State, t: State, services: seq<Service>)
    requires Fits(s, services) && s.cells == t.cells
    ensures Fits(t, services)
  {
  }

  // ---------- Runs ----------

  datatype Event =
    | Polled(sv: nat, ch: nat, bytes: Bytes, spare: bv8)
    | ServiceWritten(instanceId: nat, resourceId: nat, value: Bytes, ok: bool)
    | TranslatedWritten(path: Path, value: Bytes, ok: bool)

  /** Polls address existing characteristics, which all have a buffer, and writes carry at least one byte. */
  predicate Legal(services: seq<Service>, e: Event) {
    match e
    case Polled(sv, ch, _, _) => Has(services, sv, ch) && services[sv].chars[ch].valueSize > 0
    case ServiceWritten(_, _, value, _) => value != []
    case TranslatedWritten(path, value, _) => value != [] && path.objectId != BLE_SERVICE
  }

  function Handle(s: State, services: seq<Service>, e: Event, format: Format): State
    requires Good(s, services) && Legal(services, e)
  {
    match e
    case Polled(sv, ch, bytes, spare) => Poll(s, services, sv, ch, bytes, spare, format)
    case ServiceWritten(i, r, value, ok) => ServiceWrite(s, services, i, r, value, ok, format)
    case TranslatedWritten(path, value, ok) => TranslatedWrite(s, services, path, value, ok)
  }

  /** The characteristic and the bytes an event is news of: a poll, or a successful write through the service object. */
  function News(services: seq<Service>, e: Event): (r: Option<(nat, nat, Bytes)>)
    requires Legal(services, e)
    ensures r != None ==> Has(services, r.value.0, r.value.1) && r.value.2 != []
  {
    match e
    case Polled(sv, ch, bytes, spare) =>
      Some((sv, ch, Reported(services[sv].chars[ch].valueSize, bytes, spare)))
    case ServiceWritten(i, r, value, ok) =>
      if Target(services, i, r) == None || !ok then None else Some((i, Target(services, i, r).value, value))
    case TranslatedWritten(_, _, _) => None
  }

  lemma HandleFollows(s: State, services: seq<Service>, e: Event, format: Format)
    requires Good(s, services) && Legal(services, e)
    ensures Good(Handle(s, services, e, format), services) && SameObjects(s, Handle(s, services, e, format))
    ensures forall k :: 0 <= k < |s.objects.contexts| ==>
      ContextAt(s, services, k) &&
      (Alone(s, k) ==>
        var c, news := s.objects.contexts[k], News(services, e);
        var r := Handle(s, services, e, format).objects.resources;
        && c.path in r
        && r[c.path] ==
             if news == None then s.objects.resources[c.path]
             else Delivered(services, c, news.value.0, news.value.1, news.value.2, format).GetOr(s.objects.resources[c.path]))
  {
    hide FormOf, Decoded, Delivered, AllSupported, Fits, Poll, Translate, SetLocal;
    forall k | 0 <= k < |s.objects.contexts| ensures ContextAt(s, services, k) {
      SupportedAt(s, services, k);
    }
    match e
    case Polled(sv, ch, bytes, spare) =>
      PollFollows(s, services, sv, ch, bytes, spare, format);
    case ServiceWritten(i, r, value, ok) =>
      if Target(services, i, r) != None && ok {
        WriteFollows(s, services, i, Target(services, i, r).value, value, format);
      }
    case TranslatedWritten(path, value, ok) =>
      if Sent(s, services, path, value) != None && ok {
        var k := FindContext(s.objects.contexts, path);
        var c := s.objects.contexts[k];
        assert ContextAt(s, services, k);
        LocalFollows(s, services, c.sv, c.ch, value);
      }
  }

  function After(s: State, services: seq<Service>, es: seq<Event>, format: Format): (t: State)
    requires Good(s, services) && forall i :: 0 <= i < |es| ==> Legal(services, es[i])
    ensures Good(t, services)
  {
    if es == [] then s
    else
      var before := After(s, services, es[..|es| - 1], format);
      HandleFollows(before, services, es[|es| - 1], format);
      Handle(before, services, es[|es| - 1], format)
  }

  /** What the decoder made of the last bytes of a context's characteristic that it could decode. */
  function LatestDecoded(services: seq<Service>, es: seq<Event>, c: Context, format: Format): Option<Bytes>
    requires forall i :: 0 <= i < |es| ==> Legal(services, es[i])
    requires Has(services, c.sv, c.ch) && FormOf(services, c.sv, c.ch) != None && c.flags < 2
  {
    if es == [] then None
    else
      var n := |es| - 1;
      var news := News(services, es[n]);
      var d := if news == None then None
               else Delivered(services, c, news.value.0, news.value.1, news.value.2, format);
      if d != None then d else LatestDecoded(services, es[..n], c, format)
  }

  /** The last bytes of a characteristic. */
  function LatestBytes(services: seq<Service>, es: seq<Event>, sv: nat, ch: nat): (r: Option<Bytes>)
    requires forall i :: 0 <= i < |es| ==> Legal(services, es[i])
    ensures r != None ==> r.value != []
  {
    if es == [] then None
    else
      var n := |es| - 1;
      var news := News(services, es[n]);
      if news != None && news.value.0 == sv && news.value.1 == ch then Some(news.value.2)
      else LatestBytes(services, es[..n], sv, ch)
  }

  /**
   * After any run of polls and writes, the contexts are the ones configured, and the resource of each that has a path of
   * its own and a resource is what the decoder last made of its own characteristic, or the value it started with,
   * whatever became of the other contexts.
   */
  lemma {:induction false} TranslationsFollow(s: State, services: seq<Service>, es: seq<Event>, format: Format)
    requires Good(s, services) && forall i :: 0 <= i < |es| ==> Legal(services, es[i])
    ensures SameObjects(s, After(s, services, es, format))
    ensures forall k :: 0 <= k < |s.objects.contexts| ==>
      ContextAt(s, services, k) &&
      (Alone(s, k) ==>
        var c := s.objects.contexts[k];
        && c.path in After(s, services, es, format).objects.resources
        && After(s, services, es, format).objects.resources[c.path] ==
             LatestDecoded(services, es, c, format).GetOr(s.objects.resources[c.path]))
  {
    hide FormOf, Decoded, Delivered, AllSupported, Fits, Handle, News;
    forall k | 0 <= k < |s.objects.contexts| ensures ContextAt(s, services, k) {
      SupportedAt(s, services, k);
    }
    if es != [] {
      var n := |es| - 1;
      var before := After(s, services, es[..n], format);
      TranslationsFollow(s, services, es[..n], format);
      HandleFollows(before, services, es[n], format);
      forall k | 0 <= k < |s.objects.contexts| ensures ContextAt(s, services, k) && (Alone(s, k) ==> Alone(before, k)) {
        SameAlone(s, before, k);
      }
    }
  }

  /** With a decoder that never fails, that is the decoder applied to the latest bytes. */
  lemma {:induction false} LatestIsDecoded(services: seq<Service>, es: seq<Event>, c: Context, format: Format)
    requires forall i :: 0 <= i < |es| ==> Legal(services, es[i])
    requires Has(services, c.sv, c.ch) && FormOf(services, c.sv, c.ch) != None && c.flags < 2
    requires forall v: Bytes :: v != [] ==> Decoded(FormOf(services, c.sv, c.ch).value, c.flags, v, format) != None
    ensures LatestDecoded(services, es, c, format) ==
      match LatestBytes(services, es, c.sv, c.ch)
      case None => None
      case Some(v) => Decoded(FormOf(services, c.sv, c.ch).value, c.flags, v, format)
  {
    hide FormOf, Decoded, News;
    if es != [] {
      LatestIsDecoded(services, es[..|es| - 1], c, format);
    }
  }

  // ---------- Buffers and lengths ----------

  /** The buffer after a poll starts with the bytes of the reply; the length is that of the report. */
  lemma PolledBuffer(s: State, services: seq<Service>, sv: nat, ch: nat, bytes: Bytes, spare: bv8, format: Format)
    requires Good(s, services) && Has(services, sv, ch) && services[sv].chars[ch].kind != Integer
    ensures var cell, max := Poll(s, services, sv, ch, bytes, spare, format).cells[sv][ch], services[sv].chars[ch].valueSize;
            && |cell.buffer| == max
            && cell.length == (if |bytes| < max then |bytes| + 1 else max)
            && forall b :: 0 <= b < |bytes| && b < max ==> cell.buffer[b] == bytes[b]
  {
    hide FormOf, AllSupported, FanOut;
  }

  /** A write stores its full length: it stays within the buffer exactly when the value does. */
  lemma WrittenLengthExact(s: State, services: seq<Service>, sv: nat, ch: nat, value: Bytes)
    requires Fits(s, services) && Has(services, sv, ch)
    ensures var cell := SetLocal(s, services, sv, ch, value).cells[sv][ch];
            cell.length <= |cell.buffer| <==> |value| <= services[sv].chars[ch].valueSize
  {
  }
}
