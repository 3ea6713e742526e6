/** Reading the paths of a parsed listing, and following them back into the table. */
module ListingPaths {
  import opened Optional
  import opened Decimals
  import opened Gatt
  import opened Json
  import opened Listing
  import CharacteristicValues

  // ---------- A reader of paths ----------

  /** The parts of a text between its slashes. */
  function Split(s: string): (parts: seq<string>)
    ensures parts != []
  {
    if s == "" then [""]
    else
      var rest := Split(s[1..]);
      if s[0] == '/' then [""] + rest else [[s[0]] + rest[0]] + rest[1..]
  }

  function ReadAll(parts: seq<string>): seq<int> {
    if parts == [] then [] else [ReadDecimal(parts[0])] + ReadAll(parts[1..])
  }

  predicate AllNumbers(parts: seq<string>) {
    forall i :: 0 <= i < |parts| ==> parts[i] != "" && Digits(parts[i])
  }

  /** The numbers of a path that begins with a slash. */
  function Numbers(path: string): Option<seq<int>> {
    var parts := Split(path);
    if parts[0] == "" && AllNumbers(parts[1..]) then Some(ReadAll(parts[1..])) else None
  }

  lemma {:induction false} SplitAt(a: string, b: string)
    requires '/' !in a
    ensures Split(a + "/" + b) == [a] + Split(b)
  {
    if a == "" {
      assert a + "/" + b == "/" + b;
      assert ("/" + b)[1..] == b;
    } else {
      SplitAt(a[1..], b);
      assert (a + "/" + b)[1..] == a[1..] + "/" + b;
      assert [a[0]] + a[1..] == a;
    }
  }

  lemma {:induction false} SplitWhole(a: string)
    requires '/' !in a
    ensures Split(a) == [a]
  {
    if a != "" {
      SplitWhole(a[1..]);
      assert [a[0]] + a[1..] == a;
    }
  }

  lemma NoSlash(n: nat)
    ensures '/' !in Decimal(n)
  {
  }

  lemma ReadTwo(a: string, b: string)
    ensures ReadAll([a, b]) == [ReadDecimal(a), ReadDecimal(b)]
  {
    assert [a, b][1..] == [b] && [b][1..] == [];
    assert ReadAll([b]) == [ReadDecimal(b)] + ReadAll([]);
  }

  lemma ReadThree(a: string, b: string, c: string)
    ensures ReadAll([a, b, c]) == [ReadDecimal(a), ReadDecimal(b), ReadDecimal(c)]
  {
    ReadTwo(b, c);
    assert [a, b, c][1..] == [b, c];
  }

  /** A service's path is read as the object and the service's index. */
  lemma ServicePathNumbers(i: nat)
    ensures Numbers(ServicePath(i)) == Some([18135, i])
  {
    hide Decimal, ReadDecimal;
    var oid, d := Decimal(18135), Decimal(i);
    NoSlash(18135);
    NoSlash(i);
    assert ServicePath(i) == "" + "/" + (oid + "/" + d);
    SplitAt("", oid + "/" + d);
    SplitAt(oid, d);
    SplitWhole(d);
    assert Split(ServicePath(i))[1..] == [oid, d];
    ReadTwo(oid, d);
    DecimalRoundTrip(18135);
    DecimalRoundTrip(i);
  }

  /** A characteristic's path is read as the object, the index of its service and its own resource id, in this order. */
  lemma CharPathNumbers(i: nat, resourceId: nat)
    ensures Numbers(CharPath(i, resourceId)) == Some([18135, i, resourceId])
  {
    hide Decimal, ReadDecimal;
    var oid, d, r := Decimal(18135), Decimal(i), Decimal(resourceId);
    NoSlash(18135);
    NoSlash(i);
    NoSlash(resourceId);
    assert CharPath(i, resourceId) == "" + "/" + (oid + "/" + (d + "/" + r));
    SplitAt("", oid + "/" + (d + "/" + r));
    SplitAt(oid, d + "/" + r);
    SplitAt(d, r);
    SplitWhole(r);
    assert Split(CharPath(i, resourceId))[1..] == [oid, d, r];
    ReadThree(oid, d, r);
    DecimalRoundTrip(18135);
    DecimalRoundTrip(i);
    DecimalRoundTrip(resourceId);
  }

  // ---------- A reader of the document ----------

  /** The first member of an object with this name. */
  function Get(members: seq<Member>, name: string): Option<Value> {
    if members == [] then None
    else if members[0].name == name then Some(members[0].value)
    else Get(members[1..], name)
  }

  function Items(v: Value, name: string): seq<Value> {
    if !v.Object? then []
    else match Get(v.members, name)
         case Some(Array(items)) => items
         case _ => []
  }

  function TextOf(v: Value, name: string): string {
    if !v.Object? then ""
    else match Get(v.members, name)
         case Some(Text(text)) => text
         case _ => ""
  }

  lemma ReadChar(i: nat, c: Characteristic)
    ensures TextOf(CharTree(i, c), "uuid") == c.uuid && TextOf(CharTree(i, c), "path") == CharPath(i, c.resourceId)
  {
    hide CharPath;
    var a, b := Member("uuid", Text(c.uuid)), Member("path", Text(CharPath(i, c.resourceId)));
    assert [a, b][1..] == [b];
    assert "uuid" != "path" by { assert "uuid"[0] != "path"[0]; }
    assert Get([a, b], "path") == Get([b], "path") == Some(b.value);
  }

  lemma ReadService(i: nat, s: Service)
    ensures TextOf(ServiceTree(i, s), "uuid") == s.uuid && TextOf(ServiceTree(i, s), "path") == ServicePath(i)
    ensures var chars := Items(ServiceTree(i, s), "characteristics");
            |chars| == |s.chars| && forall j :: 0 <= j < |chars| ==> chars[j] == CharTree(i, s.chars[j])
  {
    hide ServicePath, CharTree;
    var a, b := Member("uuid", Text(s.uuid)), Member("path", Text(ServicePath(i)));
    var c := Member("characteristics", Array(seq(|s.chars|, j requires 0 <= j < |s.chars| => CharTree(i, s.chars[j]))));
    assert ServiceTree(i, s) == Object([a, b, c]);
    assert [a, b, c][1..] == [b, c] && [b, c][1..] == [c];
    assert "uuid"[0] != "path"[0] && "uuid"[0] != "characteristics"[0] && "path"[0] != "characteristics"[0];
    assert Get([a, b, c], "path") == Get([b, c], "path") == Some(b.value);
    assert Get([a, b, c], "characteristics") == Get([b, c], "characteristics") == Get([c], "characteristics") == Some(c.value);
  }

  lemma ReadTree(services: seq<Service>)
    ensures var items := Items(Tree(services), "services");
            |items| == |services| && forall i :: 0 <= i < |items| ==> items[i] == ServiceTree(i, services[i])
  {
    hide ServiceTree;
  }

  /** The document lists this table: every service and characteristic with its UUID, under the numbers that name it. */
  predicate Lists(v: Value, services: seq<Service>) {
    var items := Items(v, "services");
    && |items| == |services|
    && forall i :: 0 <= i < |services| ==>
         && TextOf(items[i], "uuid") == services[i].uuid
         && Numbers(TextOf(items[i], "path")) == Some([18135, i])
         && var chars := Items(items[i], "characteristics");
         && |chars| == |services[i].chars|
         && forall j :: 0 <= j < |chars| ==>
              && TextOf(chars[j], "uuid") == services[i].chars[j].uuid
              && Numbers(TextOf(chars[j], "path")) == Some([18135, i, services[i].chars[j].resourceId])
  }

  lemma TreeLists(services: seq<Service>)
    ensures Lists(Tree(services), services)
  {
    hide ServiceTree, CharTree, Tree, Items, TextOf, Numbers, ServicePath, CharPath;
    ReadTree(services);
    forall i | 0 <= i < |services|
      ensures TextOf(ServiceTree(i, services[i]), "uuid") == services[i].uuid
      ensures Numbers(TextOf(ServiceTree(i, services[i]), "path")) == Some([18135, i])
      ensures var chars := Items(ServiceTree(i, services[i]), "characteristics");
              && |chars| == |services[i].chars|
              && forall j :: 0 <= j < |chars| ==>
                   && TextOf(chars[j], "uuid") == services[i].chars[j].uuid
                   && Numbers(TextOf(chars[j], "path")) == Some([18135, i, services[i].chars[j].resourceId])
    {
      ReadService(i, services[i]);
      ServicePathNumbers(i);
      forall j | 0 <= j < |services[i].chars|
        ensures TextOf(CharTree(i, services[i].chars[j]), "uuid") == services[i].chars[j].uuid
        ensures Numbers(TextOf(CharTree(i, services[i].chars[j]), "path")) == Some([18135, i, services[i].chars[j].resourceId])
      {
        ReadChar(i, services[i].chars[j]);
        CharPathNumbers(i, services[i].chars[j].resourceId);
      }
    }
  }

  /**
   * The printed listing, parsed: UUIDs and paths of the whole table, each path read as the numbers of what it names.
   */
  lemma DocumentLists(services: seq<Service>)
    requires PlainUuids(services)
    ensures Parse(Document(services)).Some? && Lists(Parse(Document(services)).value, services)
  {
    hide Document, Tree, Lists, PlainUuids, Parse;
    DocumentRoundTrip(services);
    TreeLists(services);
  }

  /** The path listed in a parsed document for characteristic j of service i. */
  function ListedPath(v: Value, i: nat, j: nat): string {
    var items := Items(v, "services");
    if i >= |items| then ""
    else
      var chars := Items(items[i], "characteristics");
      if j >= |chars| then "" else TextOf(chars[j], "path")
  }

  /**
   * Printed, parsed and read, the path of characteristic j of service i is the write address of that very
   * characteristic, for the first 65536 of a service; beyond them it is that of the one whose id the 16 bits repeat.
   */
  lemma ListedPathsReach(calls: seq<Call>, i: nat, j: nat)
    requires i < |Build(calls)| && j < |Build(calls)[i].chars| && PlainUuids(Build(calls))
    ensures var services := Build(calls);
            && Parse(Document(services)).Some?
            && exists resourceId: nat ::
                 && Numbers(ListedPath(Parse(Document(services)).value, i, j)) == Some([18135, i, resourceId])
                 && CharacteristicValues.Target(services, i, resourceId) == Some(j % 65536)
  {
    var services := Build(calls);
    BuildGroups(calls);
    GroupIsNamed(calls);
    var resourceId := services[i].chars[j].resourceId;
    assert resourceId == j % TWO_16;
    SearchIsIndexing(calls, i, resourceId);
    hide Numbers, Document, Parse, PlainUuids, Items, TextOf, Build, FindResource;
    DocumentLists(services);
    assert Numbers(ListedPath(Parse(Document(services)).value, i, j)) == Some([18135, i, resourceId]);
  }
}
