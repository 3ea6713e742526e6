/** The JSON listing of a device's services, printed into a buffer sized beforehand. */
module Listing {
  import Search
  import opened Optional
  import opened Decimals
  import opened Gatt
  import opened Json

  const IPSO_OID_BLE_SERVICE := 18135
  const DEVICE_FMT := "{\"services\":["
  const SRVC_FMT := "%s{\"uuid\":\"%s\",\"path\":\"/%d/%d\",\"characteristics\":["
  const CHAR_FMT := "%s{\"uuid\":\"%s\",\"path\":\"/%d/%d/%d\"}"
  const ARRAY_END := "]}"

  // The size of a literal counts its terminating zero.
  const FORMATTED_DEV_LEN := |DEVICE_FMT| + 1 + |ARRAY_END| + 1
  const FORMATTED_SRVC_LEN := FORMATTED_UUID_LEN + |SRVC_FMT| + 1 + |ARRAY_END| + 1
  const FORMATTED_CHAR_LEN := FORMATTED_UUID_LEN + |CHAR_FMT| + 1 + |ARRAY_END| + 1

  function Size(services: seq<Service>): nat {
    FORMATTED_DEV_LEN + FORMATTED_SRVC_LEN * |services| + FORMATTED_CHAR_LEN * Total(services)
  }

  /** The size in numbers. */
  lemma SizeInNumbers(services: seq<Service>)
    ensures Size(services) == 17 + 90 * |services| + 74 * Total(services)
  {
    assert |SRVC_FMT| == 50 && |CHAR_FMT| == 34 && |DEVICE_FMT| == 13 && |ARRAY_END| == 2;
  }

  // ---------- The text of the format strings ----------

  function Comma(i: nat): string { if i > 0 then "," else "" }

  function ServicePath(i: nat): string { "/" + Decimal(IPSO_OID_BLE_SERVICE) + "/" + Decimal(i) }

  function CharPath(i: nat, resourceId: nat): string { ServicePath(i) + "/" + Decimal(resourceId) }

  function ServiceText(i: nat, s: Service): string {
    Comma(i) + "{\"uuid\":\"" + s.uuid + "\",\"path\":\"" + ServicePath(i) + "\",\"characteristics\":["
  }

  function CharText(i: nat, j: nat, c: Characteristic): string {
    Comma(j) + "{\"uuid\":\"" + c.uuid + "\",\"path\":\"" + CharPath(i, c.resourceId) + "\"}"
  }

  /** The first n characteristics of service i. */
  function CharsText(i: nat, chars: seq<Characteristic>, n: nat): string
    requires n <= |chars|
  {
    if n == 0 then "" else CharsText(i, chars, n - 1) + CharText(i, n - 1, chars[n - 1])
  }

  /** The first n services. */
  function ServicesText(services: seq<Service>, n: nat): string
    requires n <= |services|
  {
    if n == 0 then ""
    else
      var s := services[n - 1];
      ServicesText(services, n - 1) + ServiceText(n - 1, s) + CharsText(n - 1, s.chars, |s.chars|) + ARRAY_END
  }

  function Document(services: seq<Service>): string {
    DEVICE_FMT + ServicesText(services, |services|) + ARRAY_END
  }

  // ---------- What the text means ----------

  function CharTree(i: nat, c: Characteristic): Value {
    Object([Member("uuid", Text(c.uuid)), Member("path", Text(CharPath(i, c.resourceId)))])
  }

  function ServiceTree(i: nat, s: Service): Value {
    Object([
      Member("uuid", Text(s.uuid)),
      Member("path", Text(ServicePath(i))),
      Member("characteristics", Array(seq(|s.chars|, j requires 0 <= j < |s.chars| => CharTree(i, s.chars[j]))))])
  }

  function Tree(services: seq<Service>): Value {
    Object([Member("services",
      Array(seq(|services|, i requires 0 <= i < |services| => ServiceTree(i, services[i]))))])
  }

  predicate PlainUuids(services: seq<Service>) {
    forall i :: 0 <= i < |services| ==>
      Plain(services[i].uuid) && forall j :: 0 <= j < |services[i].chars| ==> Plain(services[i].chars[j].uuid)
  }

  function CharTrees(i: nat, chars: seq<Characteristic>, n: nat): (trees: seq<Value>)
    requires n <= |chars|
    ensures |trees| == n && forall j :: 0 <= j < n ==> trees[j] == CharTree(i, chars[j])
  {
    if n == 0 then [] else CharTrees(i, chars, n - 1) + [CharTree(i, chars[n - 1])]
  }

  function ServiceTrees(services: seq<Service>, n: nat): (trees: seq<Value>)
    requires n <= |services|
    ensures |trees| == n && forall i :: 0 <= i < n ==> trees[i] == ServiceTree(i, services[i])
  {
    if n == 0 then [] else ServiceTrees(services, n - 1) + [ServiceTree(n - 1, services[n - 1])]
  }

  lemma UuidLabel(s: string)
    ensures PrintMember(Member("uuid", Text(s))) == "\"uuid\":\"" + s + "\""
  {
    assert "\"" + "uuid" + "\":" == "\"uuid\":";
    assert "\"uuid\":" + ("\"" + s + "\"") == "\"uuid\":\"" + s + "\"";
  }

  lemma PathLabel(s: string)
    ensures PrintMember(Member("path", Text(s))) == "\"path\":\"" + s + "\""
  {
    assert "\"" + "path" + "\":" == "\"path\":";
    assert "\"path\":" + ("\"" + s + "\"") == "\"path\":\"" + s + "\"";
  }

  lemma CharacteristicsLabel(v: Value)
    ensures PrintMember(Member("characteristics", v)) == "\"characteristics\":" + Print(v)
  {
    assert "\"" + "characteristics" + "\":" == "\"characteristics\":";
  }

  lemma ServicesLabel(v: Value)
    ensures PrintMember(Member("services", v)) == "\"services\":" + Print(v)
  {
    assert "\"" + "services" + "\":" == "\"services\":";
  }

  lemma PlainCharPath(i: nat, resourceId: nat)
    ensures Plain(CharPath(i, resourceId))
  {
    hide Decimal;
  }

  lemma PlainText(s: string)
    ensures PlainValue(Text(s)) == Plain(s)
  {
  }

  lemma CharPrinted(i: nat, j: nat, c: Characteristic)
    ensures CharText(i, j, c) == Comma(j) + Print(CharTree(i, c))
    ensures Plain(c.uuid) ==> PlainValue(CharTree(i, c))
  {
    hide Print, PrintMember, Plain, PlainValue, CharPath, Comma;
    var uuid, path := c.uuid, CharPath(i, c.resourceId);
    PlainNames();
    PlainCharPath(i, c.resourceId);
    PlainText(path);
    PlainText(uuid);
    UuidLabel(uuid);
    PathLabel(path);
    PrintTwo(Member("uuid", Text(uuid)), Member("path", Text(path)));
    Quoted(uuid, path);
  }

  lemma Quoted(uuid: string, path: string)
    ensures "{" + ("\"uuid\":\"" + uuid + "\"") + "," + ("\"path\":\"" + path + "\"") + "}" ==
            "{\"uuid\":\"" + uuid + "\",\"path\":\"" + path + "\"}"
  {
    assert "{" + "\"uuid\":\"" == "{\"uuid\":\"";
    assert "\"" + "," + "\"path\":\"" == "\",\"path\":\"";
    assert "\"" + "}" == "\"}";
  }

  lemma Regroup(a: string, b: string, c: string)
    ensures a + (b + c) == a + b + c
  {
  }

  lemma RegroupFour(a: string, b: string, c: string, d: string)
    ensures a + b + c + d == a + (b + c + d)
  {
  }

  lemma {:induction false} CharsPrinted(i: nat, chars: seq<Characteristic>, n: nat)
    requires n <= |chars|
    ensures CharsText(i, chars, n) == PrintItems(CharTrees(i, chars, n))
  {
    if n > 0 {
      CharsPrinted(i, chars, n - 1);
      CharPrinted(i, n - 1, chars[n - 1]);
      hide CharText, CharTree, PrintItems, Print, PlainValue, Plain, Decimal;
      var tree := CharTree(i, chars[n - 1]);
      PrintItemsAppend(CharTrees(i, chars, n - 1), tree);
      Regroup(CharsText(i, chars, n - 1), Comma(n - 1), Print(tree));
    }
  }

  lemma {:induction false} CharsPlain(i: nat, chars: seq<Characteristic>, n: nat)
    requires n <= |chars|
    requires forall j :: 0 <= j < |chars| ==> Plain(chars[j].uuid)
    ensures PlainItems(CharTrees(i, chars, n))
  {
    if n > 0 {
      CharsPlain(i, chars, n - 1);
      CharPrinted(i, n - 1, chars[n - 1]);
      hide CharText, CharTree, PlainItems, Print, PlainValue, Plain, Decimal;
      PlainItemsAppend(CharTrees(i, chars, n - 1), CharTree(i, chars[n - 1]));
    }
  }

  lemma ServiceTreeIs(i: nat, s: Service)
    ensures ServiceTree(i, s) == Object([
      Member("uuid", Text(s.uuid)),
      Member("path", Text(ServicePath(i))),
      Member("characteristics", Array(CharTrees(i, s.chars, |s.chars|)))])
  {
    hide CharTree, Decimal, ServicePath, Plain;
    assert CharTrees(i, s.chars, |s.chars|) == seq(|s.chars|, j requires 0 <= j < |s.chars| => CharTree(i, s.chars[j]));
  }

  lemma PrintArray(items: seq<Value>)
    ensures Print(Array(items)) == "[" + PrintItems(items) + "]"
  {
  }

  lemma ServicePrinted(i: nat, s: Service)
    ensures ServiceText(i, s) + CharsText(i, s.chars, |s.chars|) + ARRAY_END == Comma(i) + Print(ServiceTree(i, s))
  {
    hide Print, PrintMember, PrintItems, Plain, PlainValue, ServicePath, ServiceTree, CharTree, CharTrees, CharsText;
    hide Decimal, Comma;
    var uuid, path, trees := s.uuid, ServicePath(i), CharTrees(i, s.chars, |s.chars|);
    CharsPrinted(i, s.chars, |s.chars|);
    ServiceTreeIs(i, s);
    UuidLabel(uuid);
    PathLabel(path);
    CharacteristicsLabel(Array(trees));
    PrintArray(trees);
    PrintThree(Member("uuid", Text(uuid)), Member("path", Text(path)), Member("characteristics", Array(trees)));
    QuotedService(uuid, path, PrintItems(trees));
    ServiceTextIs(i, s, PrintItems(trees));
  }

  lemma ServiceTextIs(i: nat, s: Service, items: string)
    ensures ServiceText(i, s) + items + ARRAY_END ==
            Comma(i) + ("{\"uuid\":\"" + s.uuid + "\",\"path\":\"" + ServicePath(i) + "\",\"characteristics\":[" + items + ARRAY_END)
  {
    hide ServicePath, Comma;
  }

  lemma QuotedService(uuid: string, path: string, items: string)
    ensures "{" + ("\"uuid\":\"" + uuid + "\"") + "," + ("\"path\":\"" + path + "\"") + ","
              + ("\"characteristics\":" + ("[" + items + "]")) + "}" ==
            "{\"uuid\":\"" + uuid + "\",\"path\":\"" + path + "\",\"characteristics\":[" + items + ARRAY_END
  {
    QuotedHead(uuid, path);
    QuotedTail("{\"uuid\":\"" + uuid + "\",\"path\":\"" + path, items);
  }

  lemma QuotedHead(uuid: string, path: string)
    ensures "{" + ("\"uuid\":\"" + uuid + "\"") + "," + ("\"path\":\"" + path + "\"") ==
            "{\"uuid\":\"" + uuid + "\",\"path\":\"" + path + "\""
  {
    assert "{" + "\"uuid\":\"" == "{\"uuid\":\"";
    assert "\"" + "," + "\"path\":\"" == "\",\"path\":\"";
  }

  lemma QuotedTail(head: string, items: string)
    ensures head + "\"" + "," + ("\"characteristics\":" + ("[" + items + "]")) + "}" ==
            head + "\",\"characteristics\":[" + items + ARRAY_END
  {
    assert "\"" + "," + "\"characteristics\":" + "[" == "\",\"characteristics\":[";
    assert "]" + "}" == ARRAY_END;
  }

  lemma PlainNames()
    ensures Plain("uuid") && Plain("path") && Plain("characteristics") && Plain("services")
  {
  }

  lemma PlainPath(i: nat)
    ensures Plain(ServicePath(i))
  {
    hide Decimal;
  }

  lemma ServicePlain(i: nat, s: Service)
    requires Plain(s.uuid) && forall j :: 0 <= j < |s.chars| ==> Plain(s.chars[j].uuid)
    ensures PlainValue(ServiceTree(i, s))
  {
    var trees := CharTrees(i, s.chars, |s.chars|);
    ServiceTreeIs(i, s);
    CharsPlain(i, s.chars, |s.chars|);
    PlainNames();
    PlainPath(i);
    assert PlainValue(Array(trees)) && PlainValue(Text(s.uuid)) && PlainValue(Text(ServicePath(i)));
    hide Plain, PlainValue, ServicePath, CharTrees, Print, Decimal;
    PrintThree(Member("uuid", Text(s.uuid)), Member("path", Text(ServicePath(i))), Member("characteristics", Array(trees)));
  }

  lemma {:induction false} ServicesPrinted(services: seq<Service>, n: nat)
    requires n <= |services|
    ensures ServicesText(services, n) == PrintItems(ServiceTrees(services, n))
  {
    if n > 0 {
      var s := services[n - 1];
      ServicesPrinted(services, n - 1);
      ServicePrinted(n - 1, s);
      hide ServiceText, CharsText, ServiceTree, Print, PrintItems, Plain, PlainValue, Decimal;
      var tree := ServiceTree(n - 1, s);
      PrintItemsAppend(ServiceTrees(services, n - 1), tree);
      var before := ServicesText(services, n - 1);
      var header, chars := ServiceText(n - 1, s), CharsText(n - 1, s.chars, |s.chars|);
      RegroupFour(before, header, chars, ARRAY_END);
      Regroup(before, Comma(n - 1), Print(tree));
    }
  }

  lemma {:induction false} ServicesPlain(services: seq<Service>, n: nat)
    requires n <= |services| && PlainUuids(services)
    ensures PlainItems(ServiceTrees(services, n))
  {
    if n > 0 {
      ServicesPlain(services, n - 1);
      ServicePlain(n - 1, services[n - 1]);
      hide ServiceTree, PlainItems, PlainValue, Plain, Decimal;
      PlainItemsAppend(ServiceTrees(services, n - 1), ServiceTree(n - 1, services[n - 1]));
    }
  }

  lemma PrintOne(m: Member)
    ensures Print(Object([m])) == "{" + PrintMember(m) + "}"
    ensures Plain(m.name) && PlainValue(m.value) ==> PlainValue(Object([m]))
  {
    assert [m][1..] == [];
  }

  lemma DocumentPrinted(services: seq<Service>)
    ensures Document(services) == Print(Tree(services))
    ensures PlainUuids(services) ==> PlainValue(Tree(services))
  {
    hide ServiceTree, ServicesText, Plain, PlainValue, PlainItems, PlainUuids, PrintItems, Print, PrintMember, Decimal;
    var n := |services|;
    var trees := ServiceTrees(services, n);
    ServicesPrinted(services, n);
    assert trees == seq(n, i requires 0 <= i < n => ServiceTree(i, services[i]));
    ServicesLabel(Array(trees));
    PrintArray(trees);
    PrintOne(Member("services", Array(trees)));
    Framed(PrintItems(trees));
    if PlainUuids(services) {
      ServicesPlain(services, n);
      PlainArray(trees);
      PlainNames();
    }
  }

  lemma PlainArray(items: seq<Value>)
    requires PlainItems(items)
    ensures PlainValue(Array(items))
  {
  }

  lemma Framed(items: string)
    ensures "{" + ("\"services\":" + ("[" + items + "]")) + "}" == DEVICE_FMT + items + ARRAY_END
  {
    assert "{" + "\"services\":" + "[" == DEVICE_FMT;
    assert "]" + "}" == ARRAY_END;
  }

  /** The printed document is JSON, and reading it yields exactly the services, characteristics and paths. */
  lemma DocumentRoundTrip(services: seq<Service>)
    requires PlainUuids(services)
    ensures Parse(Document(services)) == Some(Tree(services))
  {
    hide Document, Tree, PlainUuids, PlainValue, Print, Parse;
    DocumentPrinted(services);
    RoundTrip(Tree(services));
  }

  /** Different indices or resource ids get different paths. */
  lemma PathsInjective(i: nat, i': nat, r: nat, r': nat)
    ensures ServicePath(i) == ServicePath(i') ==> i == i'
    ensures CharPath(i, r) == CharPath(i', r') ==> i == i' && r == r'
  {
    hide Decimal, Plain;
    if CharPath(i, r) == CharPath(i', r') {
      LastSeparator(ServicePath(i), Decimal(r), ServicePath(i'), Decimal(r'), '/');
      DecimalInjective(r, r');
    }
    if ServicePath(i) == ServicePath(i') {
      LastSeparator("/" + Decimal(IPSO_OID_BLE_SERVICE), Decimal(i), "/" + Decimal(IPSO_OID_BLE_SERVICE), Decimal(i'), '/');
      DecimalInjective(i, i');
    }
  }

  // ---------- The size computed beforehand ----------

  /** Resource ids a 16-bit field holds. */
  predicate Wide(services: seq<Service>) {
    forall i, j :: 0 <= i < |services| && 0 <= j < |services[i].chars| ==> services[i].chars[j].resourceId < TWO_16
  }

  /** At most 1000 services; or at most 10000 while no service has an id of five digits. */
  predicate Small(services: seq<Service>) {
    || |services| <= 1000
    || (|services| <= 10000
        && forall i, j :: 0 <= i < |services| && 0 <= j < |services[i].chars| ==> services[i].chars[j].resourceId < 10000)
  }

  lemma CharFits(i: nat, j: nat, c: Characteristic)
    requires (i < 1000 && c.resourceId < 100000) || (i < 10000 && c.resourceId < 10000)
    ensures |CharText(i, j, c)| <= FORMATTED_CHAR_LEN
  {
    hide Decimal, Plain;
    assert Decimal(IPSO_OID_BLE_SERVICE) == "18135" by { Oid(); }
    DecimalLength(i);
    DecimalLength(c.resourceId);
  }

  lemma Oid()
    ensures Decimal(IPSO_OID_BLE_SERVICE) == "18135"
  {
    assert Decimal(1) == "1";
    assert Decimal(18) == "18";
    assert Decimal(181) == "181";
    assert Decimal(1813) == "1813";
  }

  lemma {:induction false} CharsFit(i: nat, chars: seq<Characteristic>, n: nat)
    requires n <= |chars| && i < 10000
    requires forall j :: 0 <= j < |chars| ==> chars[j].resourceId < if i < 1000 then 100000 else 10000
    ensures |CharsText(i, chars, n)| <= FORMATTED_CHAR_LEN * n
  {
    hide CharText;
    if n > 0 {
      CharsFit(i, chars, n - 1);
      CharFits(i, n - 1, chars[n - 1]);
    }
  }

  lemma ServiceFits(i: nat, s: Service)
    requires i < 10000
    ensures |ServiceText(i, s) + ARRAY_END| <= FORMATTED_SRVC_LEN
  {
    hide Decimal, Plain;
    assert Decimal(IPSO_OID_BLE_SERVICE) == "18135" by { Oid(); }
    DecimalLength(i);
  }

  lemma {:induction false} ServicesFit(services: seq<Service>, n: nat)
    requires n <= |services| <= 10000
    requires forall i :: 0 <= i < |services| ==>
      |CharsText(i, services[i].chars, |services[i].chars|)| <= FORMATTED_CHAR_LEN * |services[i].chars|
    ensures |ServicesText(services, n)| <= FORMATTED_SRVC_LEN * n + FORMATTED_CHAR_LEN * Total(services[..n])
  {
    hide ServiceText, CharsText;
    if n > 0 {
      var s := services[n - 1];
      ServicesFit(services, n - 1);
      ServiceFits(n - 1, s);
      assert Total(services[..n]) == Total(services[..n - 1]) + |s.chars| by {
        TotalAppend(services[..n - 1], s);
        assert services[..n] == services[..n - 1] + [s];
      }
      hide Total, ServicesText;
      var before, header, chars := ServicesText(services, n - 1), ServiceText(n - 1, s), CharsText(n - 1, s.chars, |s.chars|);
      LastService(services, n);
      assert |before + header + chars + ARRAY_END| == |before| + |header + ARRAY_END| + |chars|;
    }
  }

  lemma LastService(services: seq<Service>, n: nat)
    requires 0 < n <= |services|
    ensures var s := services[n - 1];
            ServicesText(services, n) ==
              ServicesText(services, n - 1) + ServiceText(n - 1, s) + CharsText(n - 1, s.chars, |s.chars|) + ARRAY_END
  {
  }

  /** The document and its terminating zero fit the precomputed size. */
  lemma NeverTruncates(services: seq<Service>)
    requires Wide(services) && Small(services)
    ensures |Document(services)| < Size(services)
  {
    hide ServicesText, Total, CharsText;
    forall i | 0 <= i < |services|
      ensures |CharsText(i, services[i].chars, |services[i].chars|)| <= FORMATTED_CHAR_LEN * |services[i].chars|
    {
      CharsFit(i, services[i].chars, |services[i].chars|);
    }
    ServicesFit(services, |services|);
    assert services[..|services|] == services;
  }

  // ---------- The buffer ----------

  /** What a buffer of `size` bytes keeps of a string: all but the last byte is for text. */
  function Cut(s: string, size: nat): string
    requires size > 0
  {
    if |s| < size then s else s[..size - 1]
  }

  predicate ZeroFree(s: string) {
    forall i :: 0 <= i < |s| ==> s[i] != '\0'
  }

  function FirstZero(s: string): (n: nat)
    ensures n <= |s| && (n < |s| ==> s[n] == '\0')
    ensures forall i :: 0 <= i < n ==> s[i] != '\0'
  {
    Search.First(s, (c: char) => c == '\0')
  }

  /** Cutting a text and appending to what is left is cutting the longer text. */
  lemma CutAppend(a: string, b: string, size: nat)
    requires size > 0
    ensures Cut(Cut(a, size) + b, size) == Cut(a + b, size)
  {
    if |a| >= size {
      assert (Cut(a, size) + b)[..size - 1] == a[..size - 1] == (a + b)[..size - 1];
    }
  }

  /** A zero-terminated character buffer. */
  class TextBuffer {
    const data: array<char>

    ghost predicate Valid()
      reads data
    {
      FirstZero(data[..]) < data.Length
    }

    ghost function Contents(): (s: string)
      reads data
      requires Valid()
      ensures ZeroFree(s) && |s| < data.Length
    {
      data[..FirstZero(data[..])]
    }

    constructor (size: nat)
      requires size > 0
      ensures Valid() && fresh(data) && data.Length == size && Contents() == ""
    {
      data := new char[size];
      new;
      data[0] := '\0';
    }

    /** strlen */
    method Length() returns (n: nat)
      requires Valid()
      ensures n == |Contents()|
    {
      n := 0;
      while data[n] != '\0'
        invariant n <= FirstZero(data[..])
        decreases data.Length - n
      {
        n := n + 1;
      }
    }

    /** snprintf(data + strlen(data), size - strlen(data), ...) and strncat(data, ..., size - strlen(data) - 1) */
    method Append(s: string)
      requires Valid() && ZeroFree(s)
      modifies data
      ensures Valid() && Contents() == Cut(old(Contents()) + s, data.Length)
    {
      var start := Length();
      var room := data.Length - start - 1;
      var n := if |s| <= room then |s| else room;
      ghost var before := Contents();
      assert data[..start] == before;
      var i := 0;
      while i < n
        invariant 0 <= i <= n
        invariant data[..start + i] == before + s[..i]
      {
        data[start + i] := s[i];
        assert data[..start + i + 1] == data[..start + i] + [s[i]];
        i := i + 1;
      }
      data[start + n] := '\0';
      assert forall k :: 0 <= k < start + n ==> data[..][k] == (before + s[..n])[k];
      assert FirstZero(data[..]) == start + n;
    }
  }

  // ---------- The printer ----------

  /** UUIDs as C strings. */
  predicate ZeroFreeUuids(services: seq<Service>) {
    forall i :: 0 <= i < |services| ==>
      && ZeroFree(services[i].uuid)
      && forall j :: 0 <= j < |services[i].chars| ==> ZeroFree(services[i].chars[j].uuid)
  }

  lemma TextZeroFree(services: seq<Service>, i: nat, j: nat)
    requires i < |services| && ZeroFreeUuids(services)
    ensures ZeroFree(ServiceText(i, services[i]))
    ensures j < |services[i].chars| ==> ZeroFree(CharText(i, j, services[i].chars[j]))
    ensures ZeroFree(ARRAY_END)
  {
    PlainPath(i);
    ServiceTextZeroFree(i, services[i]);
    if j < |services[i].chars| {
      CharTextZeroFree(i, j, services[i].chars[j]);
    }
  }

  lemma ServiceTextZeroFree(i: nat, s: Service)
    requires ZeroFree(s.uuid)
    ensures ZeroFree(ServiceText(i, s))
  {
    PlainPath(i);
    hide ServicePath;
  }

  lemma CharTextZeroFree(i: nat, j: nat, c: Characteristic)
    requires ZeroFree(c.uuid)
    ensures ZeroFree(CharText(i, j, c))
  {
    PlainCharPath(i, c.resourceId);
    hide CharPath;
  }

  /** One service and its characteristics, after whatever the buffer holds of `before`. */
  method PrintService(text: TextBuffer, services: seq<Service>, srvc: nat, ghost before: string)
    requires srvc < |services| && ZeroFreeUuids(services)
    requires text.Valid() && text.Contents() == Cut(before, text.data.Length)
    modifies text.data
    ensures text.Valid()
    ensures var s := services[srvc];
            text.Contents() ==
              Cut(before + ServiceText(srvc, s) + CharsText(srvc, s.chars, |s.chars|) + ARRAY_END, text.data.Length)
  {
    hide ServiceText, CharText, Decimal, ZeroFree, ZeroFreeUuids, Cut;
    var s, size := services[srvc], text.data.Length;
    TextZeroFree(services, srvc, 0);
    text.Append(ServiceText(srvc, s));
    CutAppend(before, ServiceText(srvc, s), size);
    ghost var head := before + ServiceText(srvc, s);
    assert head + "" == head;
    for ch := 0 to |s.chars|
      invariant text.Valid() && text.Contents() == Cut(head + CharsText(srvc, s.chars, ch), size)
    {
      TextZeroFree(services, srvc, ch);
      text.Append(CharText(srvc, ch, s.chars[ch]));
      CutAppend(head + CharsText(srvc, s.chars, ch), CharText(srvc, ch, s.chars[ch]), size);
      Regroup(head, CharsText(srvc, s.chars, ch), CharText(srvc, ch, s.chars[ch]));
    }
    text.Append(ARRAY_END);
    CutAppend(head + CharsText(srvc, s.chars, |s.chars|), ARRAY_END, size);
  }

  /** json_list_device_services */
  method JsonListDeviceServices(services: seq<Service>) returns (text: TextBuffer)
    requires ZeroFreeUuids(services)
    ensures fresh(text) && fresh(text.data) && text.Valid()
    ensures text.data.Length == Size(services)
    ensures text.Contents() == Cut(Document(services), Size(services))
    ensures Wide(services) && Small(services) ==> text.Contents() == Document(services)
    ensures Wide(services) && Small(services) && PlainUuids(services) ==> Parse(text.Contents()) == Some(Tree(services))
  {
    hide ServiceText, CharsText, Decimal, Parse, Tree, PlainUuids, ZeroFree, ZeroFreeUuids, Wide, Small;
    var count := 0;
    for srvc := 0 to |services|
      invariant count == Total(services[..srvc])
    {
      count := count + |services[srvc].chars|;
      TotalAppend(services[..srvc], services[srvc]);
      assert services[..srvc + 1] == services[..srvc] + [services[srvc]];
    }
    assert services[..|services|] == services;
    var size := FORMATTED_DEV_LEN + FORMATTED_SRVC_LEN * |services| + FORMATTED_CHAR_LEN * count;
    text := new TextBuffer(size);
    assert ZeroFree(DEVICE_FMT) && ZeroFree(ARRAY_END) by { ConstantsZeroFree(); }
    text.Append(DEVICE_FMT);
    assert text.Contents() == Cut(DEVICE_FMT + ServicesText(services, 0), size) by {
      assert "" + DEVICE_FMT == DEVICE_FMT + "";
    }
    for srvc := 0 to |services|
      invariant fresh(text) && fresh(text.data) && text.Valid() && text.data.Length == size
      invariant text.Contents() == Cut(DEVICE_FMT + ServicesText(services, srvc), size)
    {
      PrintService(text, services, srvc, DEVICE_FMT + ServicesText(services, srvc));
      GrowsBy(services, srvc + 1);
    }
    CutAppend(DEVICE_FMT + ServicesText(services, |services|), ARRAY_END, size);
    text.Append(ARRAY_END);
    if Wide(services) && Small(services) {
      NeverTruncates(services);
      if PlainUuids(services) {
        DocumentRoundTrip(services);
      }
    }
  }

  lemma ConstantsZeroFree()
    ensures ZeroFree(DEVICE_FMT) && ZeroFree(ARRAY_END)
  {
  }

  lemma GrowsBy(services: seq<Service>, n: nat)
    requires 0 < n <= |services|
    ensures var s := services[n - 1];
            DEVICE_FMT + ServicesText(services, n) ==
              DEVICE_FMT + ServicesText(services, n - 1) + ServiceText(n - 1, s) + CharsText(n - 1, s.chars, |s.chars|) + ARRAY_END
  {
    hide ServiceText, CharsText;
  }
}
