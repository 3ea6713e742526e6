/** The resources of the service object, one for each characteristic, and the bytes they publish. */
module ServiceValues {
  import opened Optional
  import opened RawValues
  import opened Gatt
  import opened Translations
  import opened CharacteristicValues
  import TwoBit

  /** The resource of a characteristic, by the numbers of its address. */
  function ServicePathOf(services: seq<Service>, sv: nat, ch: nat): Path
    requires Has(services, sv, ch)
  {
    Path(18135, sv, services[sv].chars[ch].resourceId)
  }

  /** No other characteristic of the service has the resource id of this one. */
  predicate OwnId(services: seq<Service>, sv: nat, ch: nat)
    requires Has(services, sv, ch)
  {
    forall j :: 0 <= j < |services[sv].chars| && services[sv].chars[j].resourceId == services[sv].chars[ch].resourceId ==> j == ch
  }

  lemma BuiltOwnIds(calls: seq<Call>, sv: nat, ch: nat)
    requires Has(Build(calls), sv, ch) && |Build(calls)[sv].chars| <= 65536
    ensures OwnId(Build(calls), sv, ch)
  {
    BuildGroups(calls);
    GroupIsNamed(calls);
    hide Build;
    SearchIsIndexing(calls, sv, 0);
  }

  // ---------- Their creation ----------

  /** The first n characteristics of a service, each with the bytes its buffer holds. */
  function AddCharResources(o: Objects, services: seq<Service>, cells: seq<seq<Cell>>, sv: nat, n: nat, creates: Path -> bool): Objects
    requires sv < |services| && n <= |services[sv].chars| && sv < |cells| && |cells[sv]| == |services[sv].chars|
  {
    if n == 0 then o
    else
      AddResource(AddCharResources(o, services, cells, sv, n - 1, creates),
                  Path(BLE_SERVICE, sv, services[sv].chars[n - 1].resourceId), cells[sv][n - 1].buffer, creates)
  }

  predicate SameShape(services: seq<Service>, cells: seq<seq<Cell>>) {
    |cells| == |services| && forall i :: 0 <= i < |services| ==> |cells[i]| == |services[i].chars|
  }

  /** device_add_resources_from_gatt, for the first n services. */
  function AddServiceResources(o: Objects, services: seq<Service>, cells: seq<seq<Cell>>, n: nat, creates: Path -> bool): Objects
    requires n <= |services| && SameShape(services, cells)
  {
    if n == 0 then o
    else
      AddCharResources(AddServiceResources(o, services, cells, n - 1, creates), services, cells, n - 1,
                       |services[n - 1].chars|, creates)
  }

  lemma {:induction false} CharResourcesAt(o: Objects, services: seq<Service>, cells: seq<seq<Cell>>, sv: nat, n: nat,
      creates: Path -> bool, i: nat, j: nat)
    requires sv < |services| && n <= |services[sv].chars| && SameShape(services, cells) && Has(services, i, j) && OwnId(services, i, j)
    ensures var t, p := AddCharResources(o, services, cells, sv, n, creates), ServicePathOf(services, i, j);
            && t.contexts == o.contexts
            && (if i == sv && j < n && creates(p) then p in t.resources && t.resources[p] == cells[i][j].buffer
                else (p in t.resources <==> p in o.resources) && (p in o.resources ==> t.resources[p] == o.resources[p]))
  {
    if n > 0 {
      CharResourcesAt(o, services, cells, sv, n - 1, creates, i, j);
    }
  }

  /**
   * After the creation every characteristic whose id is its own has exactly the resource the library accepts for it,
   * with the bytes of its own buffer; a refused one is as it was.
   */
  lemma {:induction false} ServiceResourcesAt(o: Objects, services: seq<Service>, cells: seq<seq<Cell>>, n: nat,
      creates: Path -> bool, i: nat, j: nat)
    requires n <= |services| && SameShape(services, cells) && Has(services, i, j) && OwnId(services, i, j)
    ensures var t, p := AddServiceResources(o, services, cells, n, creates), ServicePathOf(services, i, j);
            && t.contexts == o.contexts
            && (if i < n && creates(p) then p in t.resources && t.resources[p] == cells[i][j].buffer
                else (p in t.resources <==> p in o.resources) && (p in o.resources ==> t.resources[p] == o.resources[p]))
  {
    hide AddCharResources, OwnId;
    if n > 0 {
      ServiceResourcesAt(o, services, cells, n - 1, creates, i, j);
      CharResourcesAt(AddServiceResources(o, services, cells, n - 1, creates), services, cells, n - 1,
                      |services[n - 1].chars|, creates, i, j);
    }
  }

  // ---------- What an event means for one characteristic ----------

  /** A reply as it is reported, or bytes written from LwM2M. */
  datatype Touch = Reply(reported: Bytes) | Write(value: Bytes)

  function TouchOf(services: seq<Service>, contexts: seq<Context>, e: Event, sv: nat, ch: nat): (t: Option<Touch>)
    requires Legal(services, e) && Has(services, sv, ch) && AllSupported(contexts, services)
    ensures t != None && t.value.Reply? ==> |t.value.reported| <= services[sv].chars[ch].valueSize
  {
    match e
    case Polled(i, j, bytes, spare) =>
      if i != sv || j != ch then None
      else Some(Reply(if |bytes| < services[sv].chars[ch].valueSize then bytes + [spare]
                      else bytes[..services[sv].chars[ch].valueSize]))
    case ServiceWritten(i, r, value, ok) =>
      if ok && i == sv && r == services[sv].chars[ch].resourceId then Some(Write(value)) else None
    case TranslatedWritten(path, value, ok) =>
      var k := FindContext(contexts, path);
      if ok && k < |contexts| && contexts[k].sv == sv && contexts[k].ch == ch && FormOf(services, sv, ch) == Some(Digital)
      then Some(Write(value)) else None
  }

  /** The bytes back to front. */
  function Reversed(b: Bytes): (r: Bytes)
    ensures |r| == |b| && forall i :: 0 <= i < |b| ==> r[i] == b[|b| - 1 - i]
  {
    seq(|b|, i requires 0 <= i < |b| => b[|b| - 1 - i])
  }

  /** Integers of two or four bytes are turned into the byte order of LwM2M. */
  function Turned(c: Characteristic, buffer: Bytes): (r: Bytes)
    ensures |r| == |buffer|
  {
    if c.kind == Integer && (|buffer| == 2 || |buffer| == 4) then Reversed(buffer) else buffer
  }

  /** The value buffer after the events. */
  function BufferAfter(services: seq<Service>, contexts: seq<Context>, es: seq<Event>, sv: nat, ch: nat, first: Bytes): (b: Bytes)
    requires (forall i :: 0 <= i < |es| ==> Legal(services, es[i])) && Has(services, sv, ch) && AllSupported(contexts, services)
    requires |first| == services[sv].chars[ch].valueSize
    ensures |b| == |first|
  {
    if es == [] then first
    else
      var before := BufferAfter(services, contexts, es[..|es| - 1], sv, ch, first);
      match TouchOf(services, contexts, es[|es| - 1], sv, ch)
      case None => before
      case Some(Reply(reported)) => Turned(services[sv].chars[ch], reported + before[|reported|..])
      case Some(Write(value)) =>
        if |value| < |first| then value + seq(|first| - |value|, _ => 0) else value[..|first|]
  }

  /** What the last touch of the characteristic publishes, or None while there was none. */
  function Published(services: seq<Service>, contexts: seq<Context>, es: seq<Event>, sv: nat, ch: nat, first: Bytes): Option<Bytes>
    requires (forall i :: 0 <= i < |es| ==> Legal(services, es[i])) && Has(services, sv, ch) && AllSupported(contexts, services)
    requires |first| == services[sv].chars[ch].valueSize
  {
    if es == [] then None
    else
      match TouchOf(services, contexts, es[|es| - 1], sv, ch)
      case None => Published(services, contexts, es[..|es| - 1], sv, ch, first)
      case Some(Reply(reported)) =>
        var before := BufferAfter(services, contexts, es[..|es| - 1], sv, ch, first);
        Some(Turned(services[sv].chars[ch], reported + before[|reported|..])[..|reported|])
      case Some(Write(value)) => Some(value)
  }

  // ---------- One event ----------

  lemma SwappedIsTurned(c: Characteristic, buffer: Bytes)
    ensures Swapped(c, buffer) == Turned(c, buffer)
  {
  }

  /** The resources at paths of the service object do not depend on the translation. */
  lemma {:induction false} FanOutApart(resources: map<Path, Bytes>, contexts: seq<Context>, n: nat, sv: nat, ch: nat,
      form: Form, value: Bytes, format: Format, p: Path)
    requires n <= |contexts| && value != []
    requires forall i :: 0 <= i < |contexts| ==> contexts[i].flags < 2 && contexts[i].path.objectId != BLE_SERVICE
    requires p.objectId == BLE_SERVICE
    ensures var r := FanOut(resources, contexts, n, sv, ch, form, value, format);
            (p in r <==> p in resources) && (p in resources ==> r[p] == resources[p])
  {
    hide Decoded;
    if n > 0 {
      FanOutApart(resources, contexts, n - 1, sv, ch, form, value, format, p);
    }
  }

  lemma TranslateApart(s: State, services: seq<Service>, sv: nat, ch: nat, value: Bytes, format: Format, p: Path)
    requires Good(s, services) && Has(services, sv, ch) && value != [] && p.objectId == BLE_SERVICE
    ensures var t := Translate(s, services, sv, ch, value, format);
            && t.cells == s.cells && (p in t.objects.resources <==> p in s.objects.resources)
            && (p in s.objects.resources ==> t.objects.resources[p] == s.objects.resources[p])
  {
    hide FormOf, FanOut;
    var contexts := s.objects.contexts;
    assert forall i :: 0 <= i < |contexts| ==> Supported(services, contexts[i]);
    if FormOf(services, sv, ch) != None {
      FanOutApart(s.objects.resources, contexts, |contexts|, sv, ch, FormOf(services, sv, ch).value, value, format, p);
    }
  }

  /** The buffer of a characteristic and its resource after one event. */
  ghost predicate StepsTo(s: State, t: State, services: seq<Service>, sv: nat, ch: nat, touch: Option<Touch>)
    requires Fits(s, services) && Fits(t, services) && Has(services, sv, ch)
    requires touch != None && touch.value.Reply? ==> |touch.value.reported| <= services[sv].chars[ch].valueSize
  {
    var c, p, before := services[sv].chars[ch], ServicePathOf(services, sv, ch), s.cells[sv][ch].buffer;
    && (p in t.objects.resources <==> p in s.objects.resources)
    && match touch
       case None =>
         && t.cells[sv][ch].buffer == before
         && (p in s.objects.resources ==> t.objects.resources[p] == s.objects.resources[p])
       case Some(Reply(reported)) =>
         && t.cells[sv][ch].buffer == Turned(c, reported + before[|reported|..])
         && (p in s.objects.resources ==>
               t.objects.resources[p] == Turned(c, reported + before[|reported|..])[..|reported|])
       case Some(Write(value)) =>
         && t.cells[sv][ch].buffer ==
              (if |value| < |before| then value + seq(|before| - |value|, _ => 0) else value[..|before|])
         && (p in s.objects.resources ==> t.objects.resources[p] == value)
  }

  lemma PollSteps(s: State, services: seq<Service>, i: nat, j: nat, bytes: Bytes, spare: bv8, format: Format, sv: nat, ch: nat)
    requires Good(s, services) && Has(services, i, j) && Has(services, sv, ch) && OwnId(services, sv, ch)
    ensures var t := Poll(s, services, i, j, bytes, spare, format);
            && Good(t, services)
            && StepsTo(s, t, services, sv, ch,
                       if i == sv && j == ch then Some(Reply(Reported(services[i].chars[j].valueSize, bytes, spare))) else None)
  {
    PollFollows(s, services, i, j, bytes, spare, format);
    hide FormOf, Translate, AllSupported, Turned, Swapped;
    var c, p := services[i].chars[j], ServicePathOf(services, sv, ch);
    var reported := Reported(c.valueSize, bytes, spare);
    TranslateApart(s, services, i, j, reported, format, p);
    SwappedIsTurned(c, reported + s.cells[i][j].buffer[|reported|..]);
  }

  lemma LocalSteps(s: State, services: seq<Service>, i: nat, j: nat, value: Bytes, sv: nat, ch: nat)
    requires Good(s, services) && Has(services, i, j) && Has(services, sv, ch) && OwnId(services, sv, ch)
    ensures var t := SetLocal(s, services, i, j, value);
            && Good(t, services)
            && StepsTo(s, t, services, sv, ch, if i == sv && j == ch then Some(Write(value)) else None)
  {
    LocalGood(s, services, i, j, value);
    hide FormOf, AllSupported;
  }

  lemma WriteSteps(s: State, services: seq<Service>, i: nat, j: nat, value: Bytes, format: Format, sv: nat, ch: nat)
    requires Good(s, services) && Has(services, i, j) && Has(services, sv, ch) && OwnId(services, sv, ch) && value != []
    ensures Good(SetLocal(s, services, i, j, value), services)
    ensures var t := Translate(SetLocal(s, services, i, j, value), services, i, j, value, format);
            && Good(t, services)
            && StepsTo(s, t, services, sv, ch, if i == sv && j == ch then Some(Write(value)) else None)
  {
    LocalSteps(s, services, i, j, value, sv, ch);
    var local := SetLocal(s, services, i, j, value);
    WriteFollows(s, services, i, j, value, format);
    hide FormOf, AllSupported, Translate, SetLocal;
    TranslateApart(local, services, i, j, value, format, ServicePathOf(services, sv, ch));
  }

  lemma EventSteps(s: State, services: seq<Service>, e: Event, format: Format, sv: nat, ch: nat)
    requires Good(s, services) && Legal(services, e) && Has(services, sv, ch) && OwnId(services, sv, ch)
    ensures var t := Handle(s, services, e, format);
            Good(t, services) && StepsTo(s, t, services, sv, ch, TouchOf(services, s.objects.contexts, e, sv, ch))
  {
    HandleFollows(s, services, e, format);
    hide FormOf, AllSupported, Translate, SetLocal, Poll, StepsTo, TwoBit.Encode, Fits;
    match e
    case Polled(i, j, bytes, spare) => PollSteps(s, services, i, j, bytes, spare, format, sv, ch);
    case ServiceWritten(i, r, value, ok) =>
      if ok && Target(services, i, r) != None {
        WriteSteps(s, services, i, Target(services, i, r).value, value, format, sv, ch);
      } else {
        Unchanged(s, services, sv, ch);
      }
    case TranslatedWritten(path, value, ok) =>
      var k := FindContext(s.objects.contexts, path);
      if ok && Sent(s, services, path, value) != None {
        SupportedAt(s, services, k);
        LocalSteps(s, services, s.objects.contexts[k].sv, s.objects.contexts[k].ch, value, sv, ch);
      } else {
        Unchanged(s, services, sv, ch);
        if k < |s.objects.contexts| { SentExactly(s, services, path, value); }
      }
  }

  lemma Unchanged(s: State, services: seq<Service>, sv: nat, ch: nat)
    requires Good(s, services) && Has(services, sv, ch)
    ensures StepsTo(s, s, services, sv, ch, None)
  {
  }

  /** A translated write is encoded exactly when its path is that of a field. */
  lemma SentExactly(s: State, services: seq<Service>, path: Path, value: Bytes)
    requires Good(s, services) && value != [] && FindContext(s.objects.contexts, path) < |s.objects.contexts|
    ensures var c := s.objects.contexts[FindContext(s.objects.contexts, path)];
            && Supported(services, c)
            && (Sent(s, services, path, value) != None <==> FormOf(services, c.sv, c.ch) == Some(Digital))
  {
    hide FormOf, TwoBit.Encode;
    var k := FindContext(s.objects.contexts, path);
    SupportedAt(s, services, k);
    var c := s.objects.contexts[k];
    assert |s.cells[c.sv][c.ch].buffer| == services[c.sv].chars[c.ch].valueSize > 0;
    TwoBit.EncodeExact(s.cells[c.sv][c.ch].buffer, c.flags, value[0]);
  }

  // ---------- Runs ----------

  /**
   * After any run the buffer of a characteristic and the resource of the service object that stands for it are what the
   * events of this one characteristic make of them; all other events leave them alone.
   */
  lemma {:induction false} ServiceValuesFollow(s: State, services: seq<Service>, es: seq<Event>, format: Format, sv: nat, ch: nat)
    requires Good(s, services) && (forall i :: 0 <= i < |es| ==> Legal(services, es[i]))
    requires Has(services, sv, ch) && OwnId(services, sv, ch)
    ensures var t, p, first := After(s, services, es, format), ServicePathOf(services, sv, ch), s.cells[sv][ch].buffer;
            && SameObjects(s, t) && |first| == services[sv].chars[ch].valueSize
            && sv < |t.cells| && ch < |t.cells[sv]|
            && t.cells[sv][ch].buffer == BufferAfter(services, s.objects.contexts, es, sv, ch, first)
            && (p in t.objects.resources <==> p in s.objects.resources)
            && (p in s.objects.resources ==>
                  t.objects.resources[p] ==
                    Published(services, s.objects.contexts, es, sv, ch, first).GetOr(s.objects.resources[p]))
  {
    TranslationsFollow(s, services, es, format);
    if es != [] {
      var n := |es| - 1;
      var before := After(s, services, es[..n], format);
      ServiceValuesFollow(s, services, es[..n], format, sv, ch);
      EventSteps(before, services, es[n], format, sv, ch);
      hide FormOf, AllSupported, Handle, TouchOf, Turned, OwnId, SameObjects, Legal;
      assert before.objects.contexts == s.objects.contexts by { SameContexts(s, before); }
    }
  }

  lemma SameContexts(s: State, t: State)
    requires SameObjects(s, t)
    ensures t.objects.contexts == s.objects.contexts
  {
  }

  // ---------- What is published ----------

  /** Event k is the last one that touches the characteristic. */
  predicate LastTouch(services: seq<Service>, contexts: seq<Context>, es: seq<Event>, sv: nat, ch: nat, k: nat)
    requires (forall i :: 0 <= i < |es| ==> Legal(services, es[i])) && Has(services, sv, ch) && AllSupported(contexts, services)
  {
    && k < |es| && TouchOf(services, contexts, es[k], sv, ch) != None
    && forall j :: k < j < |es| ==> TouchOf(services, contexts, es[j], sv, ch) == None
  }

  predicate TwoOrFour(c: Characteristic) { c.kind == Integer && (c.valueSize == 2 || c.valueSize == 4) }

  /** Byte x of a report; for integers of two or four bytes the byte at the other end of the buffer it lies in. */
  function PublishedByte(c: Characteristic, before: Bytes, reported: Bytes, x: nat): bv8
    requires x < |reported| <= |before| == c.valueSize
  {
    var y := c.valueSize - 1 - x;
    if !TwoOrFour(c) then reported[x] else if y < |reported| then reported[y] else before[y]
  }

  /**
   * What the resource holds is decided by the last event that touches the characteristic: the bytes written, or the
   * bytes reported, which for an integer of two or four bytes are taken from the end of the buffer; where a reply is
   * shorter than that, the buffer still has what was there before.
   */
  lemma {:induction false} PublishedExactly(services: seq<Service>, contexts: seq<Context>, es: seq<Event>, sv: nat, ch: nat,
      first: Bytes, k: nat)
    requires (forall i :: 0 <= i < |es| ==> Legal(services, es[i])) && Has(services, sv, ch) && AllSupported(contexts, services)
    requires |first| == services[sv].chars[ch].valueSize && LastTouch(services, contexts, es, sv, ch, k)
    ensures var published := Published(services, contexts, es, sv, ch, first);
            var c, before := services[sv].chars[ch], BufferAfter(services, contexts, es[..k], sv, ch, first);
            && published != None
            && match TouchOf(services, contexts, es[k], sv, ch).value
               case Write(value) => published.value == value
               case Reply(reported) =>
                 && |published.value| == |reported|
                 && forall x :: 0 <= x < |reported| ==>
                      published.value[x] == PublishedByte(c, before, reported, x)
  {
    hide Legal, TouchOf;
    var n := |es| - 1;
    if k < n {
      assert TouchOf(services, contexts, es[n], sv, ch) == None;
      assert es[..n][..k] == es[..k];
      PublishedExactly(services, contexts, es[..n], sv, ch, first, k);
    } else {
      var c, touch := services[sv].chars[ch], TouchOf(services, contexts, es[k], sv, ch).value;
      if touch.Reply? {
        var before := BufferAfter(services, contexts, es[..k], sv, ch, first);
        var published := Published(services, contexts, es, sv, ch, first).value;
        assert published == Turned(c, touch.reported + before[|touch.reported|..])[..|touch.reported|];
        forall x | 0 <= x < |published|
          ensures published[x] == PublishedByte(c, before, touch.reported, x)
        {
          ReplyByte(c, before, touch.reported, x);
        }
      }
    }
  }

  lemma ReplyByte(c: Characteristic, before: Bytes, reported: Bytes, x: nat)
    requires x < |reported| <= |before| == c.valueSize
    ensures Turned(c, reported + before[|reported|..])[x] == PublishedByte(c, before, reported, x)
  {
    var buffer := reported + before[|reported|..];
    assert |buffer| == c.valueSize;
    assert forall y :: 0 <= y < |buffer| ==> buffer[y] == if y < |reported| then reported[y] else before[y];
  }

  /** With no such event it keeps what it held. */
  lemma {:induction false} UntouchedPublishesNothing(services: seq<Service>, contexts: seq<Context>, es: seq<Event>,
      sv: nat, ch: nat, first: Bytes)
    requires (forall i :: 0 <= i < |es| ==> Legal(services, es[i])) && Has(services, sv, ch) && AllSupported(contexts, services)
    requires |first| == services[sv].chars[ch].valueSize
    requires forall k :: 0 <= k < |es| ==> TouchOf(services, contexts, es[k], sv, ch) == None
    ensures Published(services, contexts, es, sv, ch, first) == None
  {
    hide Legal, TouchOf;
    if es != [] {
      UntouchedPublishesNothing(services, contexts, es[..|es| - 1], sv, ch, first);
    }
  }

  /** A reply of one byte or none to an integer of four bytes publishes no byte of it, but the end of the old buffer. */
  lemma ShortIntegerReplyLost(services: seq<Service>, contexts: seq<Context>, es: seq<Event>, sv: nat, ch: nat,
      first: Bytes, k: nat)
    requires (forall i :: 0 <= i < |es| ==> Legal(services, es[i])) && Has(services, sv, ch) && AllSupported(contexts, services)
    requires |first| == services[sv].chars[ch].valueSize == 4 && services[sv].chars[ch].kind == Integer
    requires LastTouch(services, contexts, es, sv, ch, k) && es[k].Polled? && |es[k].bytes| <= 1
    ensures var published := Published(services, contexts, es, sv, ch, first);
            var before := BufferAfter(services, contexts, es[..k], sv, ch, first);
            && published != None && |published.value| == |es[k].bytes| + 1
            && forall x :: 0 <= x < |published.value| ==> published.value[x] == before[3 - x]
  {
    hide Legal, Published, BufferAfter;
    PublishedExactly(services, contexts, es, sv, ch, first, k);
  }
}
