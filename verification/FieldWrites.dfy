/** Writes to the digital fields of one characteristic, and what they leave on the device. */
module FieldWrites {
  import opened Optional
  import opened Gatt
  import opened Translations
  import opened TwoBit
  import opened RawValues
  import opened CharacteristicValues
  import InstanceIds

  /** Field f of a byte. */
  function FieldOf(b: bv8, f: nat): bv8
    requires f < 4
  {
    (b >> (2 * f)) & 3
  }

  // ---------- Two writes to fields of one characteristic ----------

  /** Two digital fields of one characteristic. */
  predicate TwoFields(s: State, services: seq<Service>, i: nat, j: nat) {
    && Good(s, services) && i < |s.objects.contexts| && j < |s.objects.contexts|
    && var c, d := s.objects.contexts[i], s.objects.contexts[j];
    && c.sv == d.sv && c.ch == d.ch && c.flags != d.flags
    && ContextAt(s, services, i) && ContextAt(s, services, j)
    && Own(s.objects.contexts, i) && Own(s.objects.contexts, j)
    && FormOf(services, c.sv, c.ch) == Some(Digital)
  }

  lemma SentTo(s: State, services: seq<Service>, k: nat, value: Bytes)
    requires Good(s, services) && k < |s.objects.contexts| && ContextAt(s, services, k) && value != []
    requires Own(s.objects.contexts, k)
    requires FormOf(services, s.objects.contexts[k].sv, s.objects.contexts[k].ch) == Some(Digital)
    ensures var c := s.objects.contexts[k];
            && FindContext(s.objects.contexts, c.path) == k
            && Sent(s, services, c.path, value) == Encode(s.cells[c.sv][c.ch].buffer, c.flags, value[0])
            && s.cells[c.sv][c.ch].buffer != [] && Sent(s, services, c.path, value) != None
            && TranslatedWrite(s, services, c.path, value, true) == SetLocal(s, services, c.sv, c.ch, value)
  {
    LookupOwn(s.objects.contexts, k);
    hide FormOf, SetLocal, Encode, AllSupported, FindContext, Own;
    var c := s.objects.contexts[k];
    assert |s.cells[c.sv][c.ch].buffer| == services[c.sv].chars[c.ch].valueSize;
    EncodeExact(s.cells[c.sv][c.ch].buffer, c.flags, value[0]);
  }

  /**
   * Two writes to different fields with no poll between them. What reaches the device last holds the second value;
   * it still holds the first exactly when the byte first written shows it in its own field by itself, which for
   * the LwM2M booleans 0 and 1 means field 0 or the value 0.
   */
  lemma WritesWithoutPoll(s: State, services: seq<Service>, i: nat, j: nat, v: Bytes, w: Bytes)
    requires TwoFields(s, services, i, j) && v != [] && w != []
    ensures var c, d := s.objects.contexts[i], s.objects.contexts[j];
            var t := TranslatedWrite(s, services, c.path, v, true);
            && Good(t, services) && Sent(t, services, d.path, w) != None
            && var last := Sent(t, services, d.path, w).value;
            && last != [] && Decode(last, d.flags) == Bit(w[0])
            && (Decode(last, c.flags) == Bit(v[0]) <==> FieldOf(v[0], c.flags) == Bit(v[0]))
            && Decode(last, c.flags) == FieldOf(v[0], c.flags)
            && (v[0] <= 1 ==> (Decode(last, c.flags) == Bit(v[0]) <==> c.flags == 0 || v[0] == 0))
  {
    hide FormOf, AllSupported, Encode, WriteField, Decode;
    var c, d := s.objects.contexts[i], s.objects.contexts[j];
    SentTo(s, services, i, v);
    var t := SetLocal(s, services, c.sv, c.ch, v);
    LocalFollows(s, services, c.sv, c.ch, v);
    SupportedAt(t, services, j);
    SentTo(t, services, j, w);
    var buffer := t.cells[c.sv][c.ch].buffer;
    assert buffer[0] == v[0];
    WriteThenRead(buffer, d.flags, c.flags, w[0]);
    WriteThenRead(buffer, d.flags, d.flags, w[0]);
    FirstByte(buffer, c.flags);
  }

  lemma FirstByte(buffer: Bytes, flags: nat)
    requires buffer != [] && flags < 2
    ensures Decode(buffer, flags) == FieldOf(buffer[0], flags)
    ensures buffer[0] <= 1 ==> (Decode(buffer, flags) == Bit(buffer[0]) <==> flags == 0 || buffer[0] == 0)
  {
    if flags == 0 {} else {}
  }

  lemma DigitalIsNoInteger(services: seq<Service>, sv: nat, ch: nat)
    requires Has(services, sv, ch) && FormOf(services, sv, ch) == Some(Digital)
    requires services[sv].chars[ch].kind == Datatype(services[sv].chars[ch].uuid).0
    ensures services[sv].chars[ch].kind != Integer
  {
    hide IsEnvironmentalSensing, IsAutomationIo;
    var uuid := services[sv].chars[ch].uuid;
    assert SameUuid(uuid, DIGITAL_CHAR) by { hide SameUuid; }
    hide FormOf;
    FifthCharacter(uuid);
  }

  lemma FifthCharacter(uuid: Uuid)
    requires SameUuid(uuid, DIGITAL_CHAR)
    ensures Datatype(uuid).0 != Integer
  {
    var lower := Lower(DIGITAL_CHAR);
    assert |uuid| == |lower| == 36;
    assert lower[4] == '2';
    assert Lower(uuid)[4] == '2';
    assert "0000ed01-0000-1000-8000-00805f9b34fb"[4] == 'e';
  }

  /** With a poll of what the first write left on the device between them, the two writes compose. */
  lemma WritesWithPoll(s: State, services: seq<Service>, i: nat, j: nat, v: Bytes, w: Bytes, spare: bv8, format: Format, k: nat)
    requires TwoFields(s, services, i, j) && v != [] && w != [] && k < 4
    requires var c := s.objects.contexts[i];
             services[c.sv].chars[c.ch].kind == Datatype(services[c.sv].chars[c.ch].uuid).0
    ensures var c, d := s.objects.contexts[i], s.objects.contexts[j];
            && Sent(s, services, c.path, v) != None && s.cells[c.sv][c.ch].buffer != []
            && Good(TranslatedWrite(s, services, c.path, v, true), services)
            && var t := Poll(TranslatedWrite(s, services, c.path, v, true), services, c.sv, c.ch,
                             Sent(s, services, c.path, v).value, spare, format);
            && Good(t, services) && Sent(t, services, d.path, w) != None
            && var last := Sent(t, services, d.path, w).value;
            && last != []
            && Decode(last, k) ==
                 if k == d.flags then Bit(w[0])
                 else if k == c.flags then Bit(v[0])
                 else Decode(s.cells[c.sv][c.ch].buffer, k)
  {
    DigitalIsNoInteger(services, s.objects.contexts[i].sv, s.objects.contexts[i].ch);
    hide FormOf, AllSupported, Encode, WriteField, Decode, Translate;
    var c, d := s.objects.contexts[i], s.objects.contexts[j];
    SentTo(s, services, i, v);
    var old_ := s.cells[c.sv][c.ch].buffer;
    var local := SetLocal(s, services, c.sv, c.ch, v);
    LocalFollows(s, services, c.sv, c.ch, v);
    var first := Sent(s, services, c.path, v).value;
    WriteThenRead(old_, c.flags, k, v[0]);
    var t := Poll(local, services, c.sv, c.ch, first, spare, format);
    PollFollows(local, services, c.sv, c.ch, first, spare, format);
    SupportedAt(t, services, j);
    SentTo(t, services, j, w);
    PolledBuffer(local, services, c.sv, c.ch, first, spare, format);
    var buffer := t.cells[c.sv][c.ch].buffer;
    WriteThenRead(buffer, d.flags, k, w[0]);
    SameFirstByte(buffer, first, k);
  }

  lemma SameFirstByte(a: Bytes, b: Bytes, k: nat)
    requires a != [] && b != [] && a[0] == b[0] && k < 4
    ensures Decode(a, k) == Decode(b, k)
  {
  }

  // ---------- Any sequence of writes and polls ----------

  /**
   * A write to the field of context k, a write to the characteristic's own resource, or a completed poll of what the
   * device holds; `ok` is the outcome of the GATT write.
   */
  datatype Action = Switch(k: nat, value: Bytes, ok: bool) | Whole(value: Bytes, ok: bool) | Refresh(spare: bv8)

  /** The translator's state and the value on the device. */
  datatype World = World(s: State, device: Bytes)

  /** Context k of the list is a field of this characteristic, under a path of its own. */
  predicate IsField(contexts: seq<Context>, k: nat, sv: nat, ch: nat) {
    k < |contexts| && contexts[k].sv == sv && contexts[k].ch == ch && contexts[k].flags < 2 && Own(contexts, k)
  }

  /** The characteristic is digital and every write goes to a field of it. */
  predicate Ready(w: World, services: seq<Service>, sv: nat, ch: nat) {
    && Good(w.s, services) && w.device != [] && Has(services, sv, ch)
    && FormOf(services, sv, ch) == Some(Digital) && services[sv].chars[ch].kind != Integer
    && Target(services, sv, services[sv].chars[ch].resourceId) == Some(ch)
  }

  predicate Possible(contexts: seq<Context>, a: Action, sv: nat, ch: nat) {
    (!a.Refresh? ==> a.value != []) && (a.Switch? ==> IsField(contexts, a.k, sv, ch))
  }

  predicate AllPossible(contexts: seq<Context>, actions: seq<Action>, sv: nat, ch: nat) {
    forall i :: 0 <= i < |actions| ==> Possible(contexts, actions[i], sv, ch)
  }

  /** The device takes what a write that succeeds sends, and answers a poll with what it holds. */
  function Act(w: World, services: seq<Service>, sv: nat, ch: nat, a: Action, format: Format): World
    requires Ready(w, services, sv, ch) && Possible(w.s.objects.contexts, a, sv, ch)
  {
    match a
    case Refresh(spare) => w.(s := Poll(w.s, services, sv, ch, w.device, spare, format))
    case Whole(value, ok) =>
      World(ServiceWrite(w.s, services, sv, services[sv].chars[ch].resourceId, value, ok, format),
            if ok then value else w.device)
    case Switch(k, value, ok) =>
      var path := w.s.objects.contexts[k].path;
      World(TranslatedWrite(w.s, services, path, value, ok),
            if ok then Sent(w.s, services, path, value).GetOr(w.device) else w.device)
  }

  function Acts(w: World, services: seq<Service>, sv: nat, ch: nat, actions: seq<Action>, format: Format): (t: World)
    requires Ready(w, services, sv, ch)
    requires AllPossible(w.s.objects.contexts, actions, sv, ch)
    ensures Ready(t, services, sv, ch) && t.s.objects.contexts == w.s.objects.contexts && t.device != []
  {
    if actions == [] then w
    else
      var before := Acts(w, services, sv, ch, actions[..|actions| - 1], format);
      ActReady(before, services, sv, ch, actions[|actions| - 1], format);
      Act(before, services, sv, ch, actions[|actions| - 1], format)
  }

  /** The first byte of the local buffer. */
  function Local(w: World, services: seq<Service>, sv: nat, ch: nat): bv8
    requires Ready(w, services, sv, ch)
  {
    BufferSome(w, services, sv, ch);
    w.s.cells[sv][ch].buffer[0]
  }

  lemma BufferSome(w: World, services: seq<Service>, sv: nat, ch: nat)
    requires Ready(w, services, sv, ch)
    ensures sv < |w.s.cells| && ch < |w.s.cells[sv]| && w.s.cells[sv][ch].buffer != []
  {
    assert |w.s.cells[sv][ch].buffer| == services[sv].chars[ch].valueSize;
  }

  lemma ActReady(w: World, services: seq<Service>, sv: nat, ch: nat, a: Action, format: Format)
    requires Ready(w, services, sv, ch) && Possible(w.s.objects.contexts, a, sv, ch)
    ensures var t := Act(w, services, sv, ch, a, format);
            Ready(t, services, sv, ch) && t.s.objects.contexts == w.s.objects.contexts
  {
    hide FormOf, AllSupported, Poll, SetLocal, Encode, Translate, FindResource;
    match a
    case Whole(value, ok) => if ok { WriteFollows(w.s, services, sv, ch, value, format); }
    case Refresh(spare) => PollFollows(w.s, services, sv, ch, w.device, spare, format);
    case Switch(k, value, ok) =>
      SupportedAt(w.s, services, k);
      SentTo(w.s, services, k, value);
      EncodeExact(w.s.cells[sv][ch].buffer, w.s.objects.contexts[k].flags, value[0]);
      LocalFollows(w.s, services, sv, ch, value);
  }

  /** A poll brings the local byte up to date and leaves the device alone. */
  lemma RefreshEffect(w: World, services: seq<Service>, sv: nat, ch: nat, spare: bv8, format: Format)
    requires Ready(w, services, sv, ch)
    ensures var t := Act(w, services, sv, ch, Refresh(spare), format);
            && Ready(t, services, sv, ch) && t.device == w.device
            && Local(t, services, sv, ch) == w.device[0]
  {
    hide FormOf, AllSupported, Poll;
    ActReady(w, services, sv, ch, Refresh(spare), format);
    PolledBuffer(w.s, services, sv, ch, w.device, spare, format);
    BufferSome(w, services, sv, ch);
    assert |w.s.cells[sv][ch].buffer| == services[sv].chars[ch].valueSize;
  }

  /** A write to the characteristic itself brings both to the same value. */
  lemma WholeEffect(w: World, services: seq<Service>, sv: nat, ch: nat, value: Bytes, format: Format)
    requires Ready(w, services, sv, ch) && value != []
    ensures var t := Act(w, services, sv, ch, Whole(value, true), format);
            Ready(t, services, sv, ch) && t.device == value && Local(t, services, sv, ch) == value[0]
  {
    hide FormOf, AllSupported, Translate, FindResource;
    ActReady(w, services, sv, ch, Whole(value, true), format);
    LocalGood(w.s, services, sv, ch, value);
    TranslateFollows(SetLocal(w.s, services, sv, ch, value), services, sv, ch, value, format);
    assert |w.s.cells[sv][ch].buffer| == services[sv].chars[ch].valueSize;
  }

  /** A write sends the local byte with its field changed, and keeps the value as it was written. */
  lemma WriteEffect(w: World, services: seq<Service>, sv: nat, ch: nat, k: nat, value: Bytes, format: Format, f: nat)
    requires Ready(w, services, sv, ch) && IsField(w.s.objects.contexts, k, sv, ch) && value != [] && f < 4
    ensures var t := Act(w, services, sv, ch, Switch(k, value, true), format);
            && Ready(t, services, sv, ch) && Local(t, services, sv, ch) == value[0]
            && Decode(t.device, f) ==
                 if f == w.s.objects.contexts[k].flags then Bit(value[0]) else FieldOf(Local(w, services, sv, ch), f)
  {
    hide FormOf, AllSupported, Encode, WriteField;
    ActReady(w, services, sv, ch, Switch(k, value, true), format);
    SupportedAt(w.s, services, k);
    SentTo(w.s, services, k, value);
    BufferSome(w, services, sv, ch);
    WriteThenRead(w.s.cells[sv][ch].buffer, w.s.objects.contexts[k].flags, f, value[0]);
    assert |w.s.cells[sv][ch].buffer| == services[sv].chars[ch].valueSize;
  }

  /**
   * The byte the local copy holds when nothing has brought it in step with the device since the last write to a field,
   * or since the start with `first`; None when they are in step.
   */
  function Untranslated(first: Option<bv8>, actions: seq<Action>): Option<bv8>
    requires forall i :: 0 <= i < |actions| ==> actions[i].Refresh? || actions[i].value != []
  {
    if actions == [] then first
    else
      var a := actions[|actions| - 1];
      if a.Refresh? then None
      else if !a.ok then Untranslated(first, actions[..|actions| - 1])
      else if a.Switch? then Some(a.value[0])
      else None
  }

  /** What a write that succeeded puts into field f, if it is one of that field. */
  function Written(contexts: seq<Context>, a: Action, sv: nat, ch: nat, f: nat): Option<bv8>
    requires f < 4 && Possible(contexts, a, sv, ch)
  {
    match a
    case Refresh(_) => None
    case Whole(value, ok) => if ok then Some(FieldOf(value[0], f)) else None
    case Switch(k, value, ok) => if ok && contexts[k].flags == f then Some(Bit(value[0])) else None
  }

  /**
   * Field f after the actions, without the state: the value last written to it, or what the local byte shows in its
   * place when another field was written over that byte; None while nothing touched it.
   */
  function LastSeen(first: Option<bv8>, contexts: seq<Context>, actions: seq<Action>, sv: nat, ch: nat, f: nat): Option<bv8>
    requires f < 4 && AllPossible(contexts, actions, sv, ch)
  {
    if actions == [] then None
    else
      var before, a := actions[..|actions| - 1], actions[|actions| - 1];
      assert Possible(contexts, a, sv, ch);
      if Written(contexts, a, sv, ch, f) != None then Written(contexts, a, sv, ch, f)
      else if a.Switch? && a.ok && Untranslated(first, before) != None then
        Some(FieldOf(Untranslated(first, before).value, f))
      else LastSeen(first, contexts, before, sv, ch, f)
  }

  /** The value last written to field f. */
  function LastWritten(contexts: seq<Context>, actions: seq<Action>, sv: nat, ch: nat, f: nat): Option<bv8>
    requires f < 4 && AllPossible(contexts, actions, sv, ch)
  {
    if actions == [] then None
    else
      var before, a := actions[..|actions| - 1], actions[|actions| - 1];
      assert Possible(contexts, a, sv, ch);
      if Written(contexts, a, sv, ch, f) != None then Written(contexts, a, sv, ch, f)
      else LastWritten(contexts, before, sv, ch, f)
  }

  /** The local byte is `first`, or in step with the device when there is none. */
  predicate StartsWith(first: Option<bv8>, w: World, services: seq<Service>, sv: nat, ch: nat)
    requires Ready(w, services, sv, ch)
  {
    Local(w, services, sv, ch) == first.GetOr(w.device[0])
  }

  lemma {:induction false} DeviceFrom(first: Option<bv8>, w: World, services: seq<Service>, sv: nat, ch: nat,
      actions: seq<Action>, format: Format, f: nat)
    requires Ready(w, services, sv, ch) && f < 4 && StartsWith(first, w, services, sv, ch)
    requires AllPossible(w.s.objects.contexts, actions, sv, ch)
    ensures var t := Acts(w, services, sv, ch, actions, format);
            && Decode(t.device, f) ==
                 LastSeen(first, w.s.objects.contexts, actions, sv, ch, f).GetOr(Decode(w.device, f))
            && StartsWith(Untranslated(first, actions), t, services, sv, ch)
  {
    hide FormOf, AllSupported, Act, Decode, FieldOf, Ready, Local;
    if actions != [] {
      var n := |actions| - 1;
      DeviceFrom(first, w, services, sv, ch, actions[..n], format, f);
      var before := Acts(w, services, sv, ch, actions[..n], format);
      DecodeIsField(before.device, f);
      assert Possible(w.s.objects.contexts, actions[n], sv, ch);
      match actions[n]
      case Refresh(spare) => RefreshEffect(before, services, sv, ch, spare, format);
      case Whole(value, ok) =>
        if ok { WholeEffect(before, services, sv, ch, value, format); DecodeIsField(value, f); }
        else { RefusedEffect(before, services, sv, ch, actions[n], format); }
      case Switch(k, value, ok) =>
        if ok { WriteEffect(before, services, sv, ch, k, value, format, f); }
        else { RefusedEffect(before, services, sv, ch, actions[n], format); }
    }
  }

  /** What the device holds after any run of writes and polls, from any local byte and any byte on the device. */
  lemma DeviceAfter(w: World, services: seq<Service>, sv: nat, ch: nat, actions: seq<Action>, format: Format, f: nat)
    requires Ready(w, services, sv, ch) && f < 4
    requires AllPossible(w.s.objects.contexts, actions, sv, ch)
    ensures var t, first := Acts(w, services, sv, ch, actions, format), Some(Local(w, services, sv, ch));
            && Decode(t.device, f) ==
                 LastSeen(first, w.s.objects.contexts, actions, sv, ch, f).GetOr(Decode(w.device, f))
            && Local(t, services, sv, ch) == Untranslated(first, actions).GetOr(t.device[0])
  {
    hide Ready, Local, Acts, Decode;
    DeviceFrom(Some(Local(w, services, sv, ch)), w, services, sv, ch, actions, format, f);
  }

  lemma RefusedEffect(w: World, services: seq<Service>, sv: nat, ch: nat, a: Action, format: Format)
    requires Ready(w, services, sv, ch) && Possible(w.s.objects.contexts, a, sv, ch) && !a.Refresh? && !a.ok
    ensures Act(w, services, sv, ch, a, format) == w
  {
  }

  lemma DecodeIsField(device: Bytes, f: nat)
    requires device != [] && f < 4
    ensures Decode(device, f) == FieldOf(device[0], f)
  {
  }

  /** Action j writes a field over a local byte that is not in step with the device. */
  ghost predicate Stale(first: Option<bv8>, contexts: seq<Context>, actions: seq<Action>, sv: nat, ch: nat, j: nat)
    requires j < |actions| && AllPossible(contexts, actions, sv, ch)
  {
    actions[j].Switch? && actions[j].ok && Untranslated(first, actions[..j]) != None
  }

  ghost predicate NoneStale(first: Option<bv8>, contexts: seq<Context>, actions: seq<Action>, sv: nat, ch: nat)
    requires AllPossible(contexts, actions, sv, ch)
  {
    forall j :: 0 <= j < |actions| ==> !Stale(first, contexts, actions, sv, ch, j)
  }

  /** With a poll, or a write to the characteristic itself, before every field write the fields are independent registers. */
  lemma PolledWritesCompose(w: World, services: seq<Service>, sv: nat, ch: nat, actions: seq<Action>, format: Format, f: nat)
    requires Ready(w, services, sv, ch) && f < 4
    requires AllPossible(w.s.objects.contexts, actions, sv, ch)
    requires NoneStale(Some(Local(w, services, sv, ch)), w.s.objects.contexts, actions, sv, ch)
    ensures Decode(Acts(w, services, sv, ch, actions, format).device, f) ==
            LastWritten(w.s.objects.contexts, actions, sv, ch, f).GetOr(Decode(w.device, f))
  {
    hide Decode, FieldOf, Ready, Local, Acts, NoneStale;
    DeviceAfter(w, services, sv, ch, actions, format, f);
    SeenIsWritten(Some(Local(w, services, sv, ch)), w.s.objects.contexts, actions, sv, ch, f);
  }

  /** From a local byte in step with the device the first field write needs none. */
  lemma InStepWritesCompose(w: World, services: seq<Service>, sv: nat, ch: nat, actions: seq<Action>, format: Format, f: nat)
    requires Ready(w, services, sv, ch) && f < 4 && Local(w, services, sv, ch) == w.device[0]
    requires AllPossible(w.s.objects.contexts, actions, sv, ch)
    requires NoneStale(None, w.s.objects.contexts, actions, sv, ch)
    ensures Decode(Acts(w, services, sv, ch, actions, format).device, f) ==
            LastWritten(w.s.objects.contexts, actions, sv, ch, f).GetOr(Decode(w.device, f))
  {
    hide Decode, FieldOf, Ready, Local, Acts, NoneStale;
    DeviceFrom(None, w, services, sv, ch, actions, format, f);
    SeenIsWritten(None, w.s.objects.contexts, actions, sv, ch, f);
  }

  lemma {:induction false} SeenIsWritten(first: Option<bv8>, contexts: seq<Context>, actions: seq<Action>,
      sv: nat, ch: nat, f: nat)
    requires f < 4 && AllPossible(contexts, actions, sv, ch) && NoneStale(first, contexts, actions, sv, ch)
    ensures LastSeen(first, contexts, actions, sv, ch, f) == LastWritten(contexts, actions, sv, ch, f)
  {
    hide FieldOf, Possible;
    if actions != [] {
      var n := |actions| - 1;
      StaleBefore(first, contexts, actions, sv, ch);
      assert !Stale(first, contexts, actions, sv, ch, n);
      SeenIsWritten(first, contexts, actions[..n], sv, ch, f);
    }
  }

  lemma StaleBefore(first: Option<bv8>, contexts: seq<Context>, actions: seq<Action>, sv: nat, ch: nat)
    requires actions != [] && AllPossible(contexts, actions, sv, ch)
    ensures var before := actions[..|actions| - 1];
            && AllPossible(contexts, before, sv, ch)
            && forall j :: 0 <= j < |before| ==>
                 && before[..j] == actions[..j]
                 && (Stale(first, contexts, before, sv, ch, j) <==> Stale(first, contexts, actions, sv, ch, j))
  {
    var before := actions[..|actions| - 1];
    assert forall j :: 0 <= j < |before| ==> before[..j] == actions[..j];
    hide Possible, Untranslated;
  }

  /** Action i is the last one that writes field f; -1 when none does. */
  ghost predicate LastWriteAt(contexts: seq<Context>, actions: seq<Action>, sv: nat, ch: nat, f: nat, i: int)
    requires f < 4 && AllPossible(contexts, actions, sv, ch)
  {
    && -1 <= i < |actions| && (i >= 0 ==> Written(contexts, actions[i], sv, ch, f) != None)
    && forall j: nat :: i < j < |actions| ==> Written(contexts, actions[j], sv, ch, f) == None
  }

  /** What that action writes, or the value at the start. */
  ghost function ValueAt(contexts: seq<Context>, actions: seq<Action>, sv: nat, ch: nat, f: nat, i: int, start: bv8): bv8
    requires f < 4 && AllPossible(contexts, actions, sv, ch) && LastWriteAt(contexts, actions, sv, ch, f, i)
  {
    if i < 0 then start else Written(contexts, actions[i], sv, ch, f).value
  }

  /** Action j is the last one after i that writes over a byte not in step with the device. */
  ghost predicate LastStaleAt(first: Option<bv8>, contexts: seq<Context>, actions: seq<Action>, sv: nat, ch: nat, i: int, j: nat)
    requires AllPossible(contexts, actions, sv, ch)
  {
    && i < j < |actions| && Stale(first, contexts, actions, sv, ch, j)
    && forall m :: j < m < |actions| ==> !Stale(first, contexts, actions, sv, ch, m)
  }

  /**
   * The value last written to field f, at position i, or the one it had at the start when nothing writes it, is what the
   * device holds in the end exactly when no later write goes over a byte that is not in step with the device, or the
   * byte the last such write goes over shows that value in field f.
   */
  lemma LastValueSurvivesExactly(w: World, services: seq<Service>, sv: nat, ch: nat, actions: seq<Action>,
      format: Format, f: nat, i: int)
    requires Ready(w, services, sv, ch) && f < 4
    requires AllPossible(w.s.objects.contexts, actions, sv, ch) && LastWriteAt(w.s.objects.contexts, actions, sv, ch, f, i)
    ensures var contexts, first := w.s.objects.contexts, Some(Local(w, services, sv, ch));
            var v := ValueAt(contexts, actions, sv, ch, f, i, Decode(w.device, f));
            Decode(Acts(w, services, sv, ch, actions, format).device, f) == v <==>
              forall j: nat :: LastStaleAt(first, contexts, actions, sv, ch, i, j) ==>
                FieldOf(Untranslated(first, actions[..j]).value, f) == v
  {
    assert w.device != [];
    hide Decode, FieldOf, Ready, Local, Acts, Possible, Stale, Written;
    DeviceAfter(w, services, sv, ch, actions, format, f);
    SurvivesInRun(Some(Local(w, services, sv, ch)), w.s.objects.contexts, actions, sv, ch, f, i, Decode(w.device, f));
  }

  lemma {:induction false} SurvivesInRun(first: Option<bv8>, contexts: seq<Context>, actions: seq<Action>,
      sv: nat, ch: nat, f: nat, i: int, start: bv8)
    requires f < 4 && AllPossible(contexts, actions, sv, ch) && LastWriteAt(contexts, actions, sv, ch, f, i)
    ensures var v := ValueAt(contexts, actions, sv, ch, f, i, start);
            LastSeen(first, contexts, actions, sv, ch, f).GetOr(start) == v <==>
              forall j: nat :: LastStaleAt(first, contexts, actions, sv, ch, i, j) ==>
                FieldOf(Untranslated(first, actions[..j]).value, f) == v
  {
    hide FieldOf, Possible, Written, Untranslated;
    var n := |actions| - 1;
    if i < n {
      var before := actions[..n];
      StaleBefore(first, contexts, actions, sv, ch);
      SurvivesInRun(first, contexts, before, sv, ch, f, i, start);
      if Stale(first, contexts, actions, sv, ch, n) {
        assert LastStaleAt(first, contexts, actions, sv, ch, i, n);
        assert forall j: nat :: LastStaleAt(first, contexts, actions, sv, ch, i, j) ==> j == n;
      } else {
        forall j | 0 <= j < n
          ensures LastStaleAt(first, contexts, actions, sv, ch, i, j) <==> LastStaleAt(first, contexts, before, sv, ch, i, j)
        {
        }
        assert forall j: nat :: LastStaleAt(first, contexts, actions, sv, ch, i, j) ==> j < n;
      }
    }
  }

  /** A single write keeps another field on the device exactly when the local byte agrees with the device there. */
  lemma FirstWriteKeepsExactly(w: World, services: seq<Service>, sv: nat, ch: nat, k: nat, value: Bytes, format: Format, f: nat)
    requires Ready(w, services, sv, ch) && f < 4 && value != []
    requires IsField(w.s.objects.contexts, k, sv, ch) && w.s.objects.contexts[k].flags != f
    ensures Decode(Act(w, services, sv, ch, Switch(k, value, true), format).device, f) == Decode(w.device, f) <==>
            FieldOf(Local(w, services, sv, ch), f) == FieldOf(w.device[0], f)
  {
    assert w.device != [];
    hide Ready, Local, Act, Decode, FieldOf;
    WriteEffect(w, services, sv, ch, k, value, format, f);
    DecodeIsField(w.device, f);
  }

  // ---------- A run that loses a write ----------

  const AUTOMATION_IO: Uuid := "00001815-0000-1000-8000-00805F9B34FB"
  const DIGITAL_CHAR: Uuid := "00002A56-0000-1000-8000-00805F9B34FB"

  /** One service with one readable and writable digital characteristic, as discovery places it. */
  function Lamps(path: string): seq<Service> {
    [Service(AUTOMATION_IO, Some(path), [Characteristic(DIGITAL_CHAR, path, 3, Struct, 512, 0)])]
  }

  predicate Accepts(path: Path) { true }

  const NO_OBJECTS := Objects(map[], map[], [])

  function LampPath(i: nat): Path { Path(LIGHT_CONTROL, i, ON_OFF_VALUE) }

  /** The state after construction, with the buffer still zeroed. */
  function LampState(path: string): State {
    State([[Cell(seq(512, _ => 0), 0)]], ConstructServices(NO_OBJECTS, Lamps(path), 1, Accepts))
  }

  lemma LampForm(path: string)
    ensures FormOf(Lamps(path), 0, 0) == Some(Digital)
  {
    NotSensing();
    assert IsAutomationIo(AUTOMATION_IO) && SameUuid(DIGITAL_CHAR, "00002A56-0000-1000-8000-00805F9B34FB");
    hide SameUuid, IsEnvironmentalSensing, IsAutomationIo;
  }

  lemma NotSensing()
    ensures !IsEnvironmentalSensing(AUTOMATION_IO)
  {
    var sensing := "0000181A-0000-1000-8000-00805F9B34FB";
    assert Lower(sensing)[7] == 'a';
    assert Lower(AUTOMATION_IO)[7] == '5';
  }

  lemma FirstIds()
    ensures InstanceIds.NextFree({}) == 0 && InstanceIds.NextFree({0}) == 1
  {
    InstanceIds.NextFreeExact({});
    InstanceIds.NextFreeExact({0});
    assert 2 !in {0};
  }

  lemma LampContexts(path: string)
    ensures LampState(path).objects.contexts == [Context(LampPath(0), 0, 0, 0), Context(LampPath(1), 1, 0, 0)]
  {
    LampForm(path);
    FirstIds();
    hide FormOf, InstanceIds.NextFree;
    var services := Lamps(path);
    var o := ConstructFields(NO_OBJECTS, 0, 0, LIGHT_CONTROL, ON_OFF_VALUE, 0, Accepts);
    var o1 := Configure(AddResource(NO_OBJECTS, LampPath(0), [0], Accepts), Context(LampPath(0), 0, 0, 0));
    assert Used(o1, LIGHT_CONTROL) == {0};
    assert o == ConstructFields(o1, 0, 0, LIGHT_CONTROL, ON_OFF_VALUE, 1, Accepts);
    var o2 := Configure(AddResource(o1, LampPath(1), [0], Accepts), Context(LampPath(1), 1, 0, 0));
    assert o == ConstructFields(o2, 0, 0, LIGHT_CONTROL, ON_OFF_VALUE, 2, Accepts) == o2;
    assert ConstructChars(NO_OBJECTS, services, 0, 0, Accepts) == NO_OBJECTS;
    assert ConstructChars(NO_OBJECTS, services, 0, 1, Accepts) == ConstructChar(NO_OBJECTS, services, 0, 0, Accepts) == o;
    assert ConstructServices(NO_OBJECTS, services, 0, Accepts) == NO_OBJECTS;
  }

  lemma LampGood(path: string)
    ensures Good(LampState(path), Lamps(path))
  {
    ServicesSupported(NO_OBJECTS, Lamps(path), 1, Accepts);
    hide ConstructServices, AllSupported;
  }

  /** With a device that holds zero, the constructed state is in step with it, and both its contexts are fields. */
  lemma LampReady(path: string)
    ensures var w, services := World(LampState(path), [0]), Lamps(path);
            && Ready(w, services, 0, 0) && Local(w, services, 0, 0) == w.device[0]
            && IsField(w.s.objects.contexts, 0, 0, 0) && IsField(w.s.objects.contexts, 1, 0, 0)
  {
    LampGood(path);
    LampForm(path);
    LampContexts(path);
    hide FormOf, Good, ConstructServices;
  }

  /**
   * The same device with output 1 already on: before any poll, switching output 0 on turns output 1 off, although
   * nothing writes its field.
   */
  lemma FirstWriteClears(path: string, format: Format)
    ensures var w, services := World(LampState(path), [4]), Lamps(path);
            && Ready(w, services, 0, 0) && Local(w, services, 0, 0) == 0
            && Decode(w.device, 1) == 1
            && Possible(w.s.objects.contexts, Switch(0, [1], true), 0, 0)
            && Written(w.s.objects.contexts, Switch(0, [1], true), 0, 0, 1) == None
            && Decode(Act(w, services, 0, 0, Switch(0, [1], true), format).device, 1) == 0
  {
    LampReady(path);
    LampContexts(path);
    var w, services := World(LampState(path), [4]), Lamps(path);
    assert Ready(w, services, 0, 0) by { hide Good, FormOf, LampState, ConstructServices; }
    hide Good, FormOf, ConstructServices, Act, Decode, Ready, Lamps;
    WriteEffect(w, services, 0, 0, 0, [1], format, 1);
    DecodeIsField([4], 1);
  }

  /**
   * The two outputs of a device as it is constructed: output 1 is switched on, then output 0 off, with no poll in
   * between. The first write turns output 1 on, and the second turns it off again.
   */
  lemma FirstWriteLost(path: string)
    ensures var services, s := Lamps(path), LampState(path);
            && Good(s, services)
            && var t := TranslatedWrite(s, services, LampPath(1), [1], true);
            && Good(t, services)
            && var first, second := Sent(s, services, LampPath(1), [1]), Sent(t, services, LampPath(0), [0]);
            && first != None && first.value != [] && Decode(first.value, 1) == 1
            && second != None && second.value != [] && Decode(second.value, 1) == 0
  {
    var services, s := Lamps(path), LampState(path);
    LampGood(path);
    LampContexts(path);
    LampForm(path);
    SupportedAt(s, services, 0);
    SupportedAt(s, services, 1);
    hide FormOf, LampState, Good, Lamps, Decode, Encode, Sent, TranslatedWrite;
    SentTo(s, services, 1, [1]);
    WriteThenRead(s.cells[0][0].buffer, 1, 1, 1);
    WritesWithoutPoll(s, services, 1, 0, [1], [0]);
  }
}
