/** When the translated resources hold what the device sent, although a short reply is reported one byte too long. */
module DeviceReplies {
  import opened Optional
  import opened Gatt
  import opened Translations
  import opened TwoBit
  import opened RawValues
  import opened CharacteristicValues

  // ---------- One reply ----------

  /** The two-bit decoder does not see the extra byte of a reply that has one of its own. */
  lemma DigitalIgnoresSpare(max: nat, bytes: Bytes, spare: bv8, flags: nat)
    requires bytes != [] && max > 0 && flags < 16
    ensures Decode(Reported(max, bytes, spare), flags) == Decode(bytes, flags)
  {
    assert Reported(max, bytes, spare)[0] == bytes[0];
  }

  /** The number of a sensor is the one sent exactly when the reply has four bytes or the extra one is zero. */
  lemma SensorSpareExact(max: nat, bytes: Bytes, spare: bv8)
    requires max >= 4
    ensures RawOf(Reported(max, bytes, spare)) == RawOf(bytes) <==> |bytes| >= 4 || spare == 0
  {
    if |bytes| < max {
      ExtraByteExact(bytes, spare);
    } else {
      assert Counted(bytes[..max]) == bytes[..4] == Counted(bytes);
    }
  }

  /** The decoder of this form reads the reply as it was sent. */
  predicate ReadAsSent(form: Form, bytes: Bytes, spare: bv8) {
    bytes != [] && (form.Digital? || |bytes| >= 4 || spare == 0)
  }

  /** The table has the kinds and sizes that discovery gives. */
  predicate Discovered(services: seq<Service>) {
    forall i, j :: 0 <= i < |services| && 0 <= j < |services[i].chars| ==>
      (services[i].chars[j].kind, services[i].chars[j].valueSize) == Datatype(services[i].chars[j].uuid)
  }

  lemma BuiltIsDiscovered(calls: seq<Call>)
    ensures Discovered(Build(calls))
  {
    BuildGroups(calls);
    GroupIsNamed(calls);
  }

  lemma ReplyReadAsSent(form: Form, flags: nat, max: nat, bytes: Bytes, spare: bv8, format: Format)
    requires max >= 4 && flags < 2 && ReadAsSent(form, bytes, spare)
    ensures Decoded(form, flags, Reported(max, bytes, spare), format) == Decoded(form, flags, bytes, format)
  {
    match form
    case Sensor(_) => SensorSpareExact(max, bytes, spare);
    case Digital => DigitalIgnoresSpare(max, bytes, spare, flags);
  }

  // ---------- Runs ----------

  /** The characteristic and the bytes that a reply carried or a write through the service object sent. */
  function SentNews(services: seq<Service>, e: Event): Option<(nat, nat, Bytes)>
    requires Legal(services, e)
  {
    match e
    case Polled(sv, ch, bytes, _) => Some((sv, ch, bytes))
    case ServiceWritten(_, _, _, _) => News(services, e)
    case TranslatedWritten(_, _, _) => None
  }

  /** Every reply of the context's characteristic is read as it was sent. */
  predicate AllReadAsSent(services: seq<Service>, es: seq<Event>, c: Context)
    requires Has(services, c.sv, c.ch) && FormOf(services, c.sv, c.ch) != None
  {
    forall i :: 0 <= i < |es| && es[i].Polled? && es[i].sv == c.sv && es[i].ch == c.ch ==>
      ReadAsSent(FormOf(services, c.sv, c.ch).value, es[i].bytes, es[i].spare)
  }

  /** What the decoder makes of the last bytes sent that it can decode. */
  function LatestSentDecoded(services: seq<Service>, es: seq<Event>, c: Context, format: Format): Option<Bytes>
    requires forall i :: 0 <= i < |es| ==> Legal(services, es[i])
    requires Has(services, c.sv, c.ch) && FormOf(services, c.sv, c.ch) != None && c.flags < 2
  {
    if es == [] then None
    else
      var n := |es| - 1;
      var news := SentNews(services, es[n]);
      var d := if news == None || news.value.2 == [] then None
               else Delivered(services, c, news.value.0, news.value.1, news.value.2, format);
      if d != None then d else LatestSentDecoded(services, es[..n], c, format)
  }

  /** The last bytes of a characteristic that the device sent or that were written to it. */
  function LatestSent(services: seq<Service>, es: seq<Event>, sv: nat, ch: nat): Option<Bytes>
    requires forall i :: 0 <= i < |es| ==> Legal(services, es[i])
  {
    if es == [] then None
    else
      var n := |es| - 1;
      var news := SentNews(services, es[n]);
      if news != None && news.value.0 == sv && news.value.1 == ch then Some(news.value.2)
      else LatestSent(services, es[..n], sv, ch)
  }

  lemma NewsReadAsSent(services: seq<Service>, e: Event, c: Context, format: Format)
    requires Legal(services, e) && Discovered(services)
    requires Has(services, c.sv, c.ch) && FormOf(services, c.sv, c.ch) != None && c.flags < 2
    requires AllReadAsSent(services, [e], c)
    ensures var news, sent := News(services, e), SentNews(services, e);
            && (news == None <==> sent == None)
            && (news != None ==>
                  && news.value.0 == sent.value.0 && news.value.1 == sent.value.1
                  && (if sent.value.2 == [] then news.value.0 != c.sv || news.value.1 != c.ch
                      else Delivered(services, c, news.value.0, news.value.1, news.value.2, format)
                           == Delivered(services, c, sent.value.0, sent.value.1, sent.value.2, format)))
  {
    hide FormOf, Decoded;
    if e.Polled? && e.sv == c.sv && e.ch == c.ch {
      assert ReadAsSent(FormOf(services, c.sv, c.ch).value, [e][0].bytes, [e][0].spare);
      SizesAtLeastFour(services, e.sv, e.ch);
      ReplyReadAsSent(FormOf(services, c.sv, c.ch).value, c.flags, services[e.sv].chars[e.ch].valueSize,
                      e.bytes, e.spare, format);
    }
  }

  lemma SizesAtLeastFour(services: seq<Service>, sv: nat, ch: nat)
    requires Discovered(services) && Has(services, sv, ch)
    ensures services[sv].chars[ch].valueSize >= 4
  {
    assert (services[sv].chars[ch].kind, services[sv].chars[ch].valueSize) == Datatype(services[sv].chars[ch].uuid);
  }

  lemma {:induction false} DecodedAsSent(services: seq<Service>, es: seq<Event>, c: Context, format: Format)
    requires (forall i :: 0 <= i < |es| ==> Legal(services, es[i])) && Discovered(services)
    requires Has(services, c.sv, c.ch) && FormOf(services, c.sv, c.ch) != None && c.flags < 2
    requires AllReadAsSent(services, es, c)
    ensures LatestDecoded(services, es, c, format) == LatestSentDecoded(services, es, c, format)
  {
    hide FormOf, News, SentNews, Discovered;
    if es != [] {
      var n := |es| - 1;
      NewsReadAsSent(services, es[n], c, format);
      DecodedAsSent(services, es[..n], c, format);
    }
  }

  /**
   * After any run whose replies for one context's characteristic are read as sent, the resource of that context is what
   * the decoder makes of the last bytes the device sent, or were written, and it can decode; or its first value.
   */
  lemma ResourceHoldsWhatWasSent(s: State, services: seq<Service>, es: seq<Event>, format: Format, k: nat)
    requires Good(s, services) && Discovered(services) && k < |s.objects.contexts| && ContextAt(s, services, k) && Alone(s, k)
    requires forall i :: 0 <= i < |es| ==> Legal(services, es[i])
    requires AllReadAsSent(services, es, s.objects.contexts[k])
    ensures var c := s.objects.contexts[k];
            && c.path in After(s, services, es, format).objects.resources && c.path in s.objects.resources
            && After(s, services, es, format).objects.resources[c.path] ==
                 LatestSentDecoded(services, es, c, format).GetOr(s.objects.resources[c.path])
  {
    hide FormOf, Good, Legal, After, Discovered, AllReadAsSent, Own;
    TranslationsFollow(s, services, es, format);
    DecodedAsSent(services, es, s.objects.contexts[k], format);
    assert After(s, services, es, format).objects.resources.Keys == s.objects.resources.Keys;
  }

  /** With a decoder that never fails, that is the decoder applied to the last bytes. */
  lemma {:induction false} LatestSentIsDecoded(services: seq<Service>, es: seq<Event>, c: Context, format: Format)
    requires forall i :: 0 <= i < |es| ==> Legal(services, es[i])
    requires Has(services, c.sv, c.ch) && FormOf(services, c.sv, c.ch) != None && c.flags < 2
    requires AllReadAsSent(services, es, c)
    requires forall v: Bytes :: v != [] ==> Decoded(FormOf(services, c.sv, c.ch).value, c.flags, v, format) != None
    ensures LatestSent(services, es, c.sv, c.ch) != Some([])
    ensures LatestSentDecoded(services, es, c, format) ==
      match LatestSent(services, es, c.sv, c.ch)
      case None => None
      case Some(v) => Decoded(FormOf(services, c.sv, c.ch).value, c.flags, v, format)
  {
    hide FormOf, Decoded, News;
    if es != [] {
      LatestSentIsDecoded(services, es[..|es| - 1], c, format);
    }
  }
}
