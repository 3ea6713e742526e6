/**
 * The part of RFC 8259 the device listing uses: objects, arrays and strings without escapes (sections 4, 5 and 7).
 */
module Json {
  import opened Optional

  datatype Value = Text(text: string) | Array(items: seq<Value>) | Object(members: seq<Member>)
  datatype Member = Member(name: string, value: Value)

  /** Characters a string may hold unescaped. */
  predicate Plain(s: string) {
    forall i :: 0 <= i < |s| ==> ' ' <= s[i] && s[i] != '"' && s[i] != '\\'
  }

  predicate PlainValue(v: Value)
    decreases v
  {
    match v
    case Text(s) => Plain(s)
    case Array(items) => PlainItems(items)
    case Object(members) => PlainMembers(members)
  }

  predicate PlainItems(items: seq<Value>)
    decreases items
  {
    items != [] ==> PlainValue(items[0]) && PlainItems(items[1..])
  }

  predicate PlainMembers(members: seq<Member>)
    decreases members
  {
    members != [] ==> Plain(members[0].name) && PlainValue(members[0].value) && PlainMembers(members[1..])
  }

  // ---------- Writing, without white space ----------

  function Print(v: Value): string
    decreases v
  {
    match v
    case Text(s) => "\"" + s + "\""
    case Array(items) => "[" + PrintItems(items) + "]"
    case Object(members) => "{" + PrintMembers(members) + "}"
  }

  function PrintItems(items: seq<Value>): string
    decreases items
  {
    if items == [] then ""
    else if |items| == 1 then Print(items[0])
    else Print(items[0]) + "," + PrintItems(items[1..])
  }

  function PrintMember(m: Member): string
    decreases m
  {
    "\"" + m.name + "\":" + Print(m.value)
  }

  function PrintMembers(members: seq<Member>): string
    decreases members
  {
    if members == [] then ""
    else if |members| == 1 then PrintMember(members[0])
    else PrintMember(members[0]) + "," + PrintMembers(members[1..])
  }

  // ---------- Reading ----------

  /** The characters before the next quote and those after it. */
  function ParseText(s: string): (r: Option<(string, string)>)
    ensures r.Some? ==> |r.value.1| < |s|
  {
    if s == "" || s[0] < ' ' || s[0] == '\\' then None
    else if s[0] == '"' then Some(("", s[1..]))
    else
      match ParseText(s[1..])
      case None => None
      case Some((text, rest)) => Some(([s[0]] + text, rest))
  }

  function ParseValue(s: string): (r: Option<(Value, string)>)
    ensures r.Some? ==> |r.value.1| < |s|
    decreases |s|, 1
  {
    if s == "" then None
    else if s[0] == '"' then
      match ParseText(s[1..])
      case None => None
      case Some((text, rest)) => Some((Text(text), rest))
    else if s[0] == '[' then
      if |s| > 1 && s[1] == ']' then Some((Array([]), s[2..]))
      else
        match ParseItems(s[1..])
        case None => None
        case Some((items, rest)) => Some((Array(items), rest))
    else if s[0] == '{' then
      if |s| > 1 && s[1] == '}' then Some((Object([]), s[2..]))
      else
        match ParseMembers(s[1..])
        case None => None
        case Some((members, rest)) => Some((Object(members), rest))
    else None
  }

  function ParseItems(s: string): (r: Option<(seq<Value>, string)>)
    ensures r.Some? ==> |r.value.1| < |s|
    decreases |s|, 2
  {
    match ParseValue(s)
    case None => None
    case Some((v, rest)) =>
      if rest == "" then None
      else if rest[0] == ']' then Some(([v], rest[1..]))
      else if rest[0] != ',' then None
      else
        match ParseItems(rest[1..])
        case None => None
        case Some((vs, after)) => Some(([v] + vs, after))
  }

  function ParseMembers(s: string): (r: Option<(seq<Member>, string)>)
    ensures r.Some? ==> |r.value.1| < |s|
    decreases |s|, 2
  {
    if s == "" || s[0] != '"' then None
    else
      match ParseText(s[1..])
      case None => None
      case Some((name, colon)) =>
        if colon == "" || colon[0] != ':' then None
        else
          match ParseValue(colon[1..])
          case None => None
          case Some((v, rest)) =>
            if rest == "" then None
            else if rest[0] == '}' then Some(([Member(name, v)], rest[1..]))
            else if rest[0] != ',' then None
            else
              match ParseMembers(rest[1..])
              case None => None
              case Some((ms, after)) => Some(([Member(name, v)] + ms, after))
  }

  /** A whole document. */
  function Parse(s: string): Option<Value> {
    match ParseValue(s)
    case None => None
    case Some((v, rest)) => if rest == "" then Some(v) else None
  }

  // ---------- Reading undoes writing ----------

  lemma {:induction false} TextRoundTrip(s: string, rest: string)
    requires Plain(s)
    ensures ParseText(s + "\"" + rest) == Some((s, rest))
  {
    if s == "" {
      assert s + "\"" + rest == "\"" + rest;
    } else {
      TextRoundTrip(s[1..], rest);
      assert (s + "\"" + rest)[0] == s[0];
      assert (s + "\"" + rest)[1..] == s[1..] + "\"" + rest;
      assert [s[0]] + s[1..] == s;
    }
  }

  lemma {:induction false} ValueRoundTrip(v: Value, rest: string)
    requires PlainValue(v)
    ensures ParseValue(Print(v) + rest) == Some((v, rest))
    decreases v
  {
    match v
    case Text(text) =>
      TextRoundTrip(text, rest);
      assert (Print(v) + rest)[1..] == text + "\"" + rest;
    case Array(items) => ArrayRoundTrip(items, rest);
    case Object(members) => ObjectRoundTrip(members, rest);
  }

  lemma {:induction false} ArrayRoundTrip(items: seq<Value>, rest: string)
    requires PlainItems(items)
    ensures ParseValue(Print(Array(items)) + rest) == Some((Array(items), rest))
    decreases items, 1
  {
    hide ParseItems, PlainItems;
    var s := Print(Array(items)) + rest;
    var inner := PrintItems(items);
    assert s == "[" + (inner + "]" + rest);
    assert s[1..] == inner + "]" + rest;
    if items == [] {
      assert s[1..] == "]" + rest;
      assert s[2..] == rest;
    } else {
      ItemsRoundTrip(items, rest);
      ItemsHead(items);
      assert s[1] == inner[0];
    }
  }

  lemma {:induction false} ObjectRoundTrip(members: seq<Member>, rest: string)
    requires PlainMembers(members)
    ensures ParseValue(Print(Object(members)) + rest) == Some((Object(members), rest))
    decreases members, 1
  {
    hide ParseMembers, PlainMembers;
    var s := Print(Object(members)) + rest;
    var inner := PrintMembers(members);
    assert s == "{" + (inner + "}" + rest);
    assert s[1..] == inner + "}" + rest;
    if members == [] {
      assert s[1..] == "}" + rest;
      assert s[2..] == rest;
    } else {
      MembersRoundTrip(members, rest);
      MembersHead(members);
      assert s[1] == inner[0];
    }
  }

  lemma ItemsHead(items: seq<Value>)
    requires items != []
    ensures PrintItems(items) != "" && PrintItems(items)[0] != ']'
  {
    assert Print(items[0]) != "" && Print(items[0])[0] != ']';
    assert PrintItems(items)[0] == Print(items[0])[0];
  }

  lemma MembersHead(members: seq<Member>)
    requires members != []
    ensures PrintMembers(members) != "" && PrintMembers(members)[0] != '}'
  {
    assert PrintMember(members[0]) != "" && PrintMember(members[0])[0] == '"';
    assert PrintMembers(members)[0] == PrintMember(members[0])[0];
  }

  lemma {:induction false} ItemsRoundTrip(items: seq<Value>, rest: string)
    requires items != [] && PlainItems(items)
    ensures ParseItems(PrintItems(items) + "]" + rest) == Some((items, rest))
    decreases items, 0
  {
    hide ParseValue, Print, PlainValue;
    var s := PrintItems(items) + "]" + rest;
    if |items| == 1 {
      var after := "]" + rest;
      ValueRoundTrip(items[0], after);
      assert s == Print(items[0]) + after;
      assert after[1..] == rest;
      assert items == [items[0]];
    } else {
      var tail := PrintItems(items[1..]) + "]" + rest;
      var after := "," + tail;
      ValueRoundTrip(items[0], after);
      assert s == Print(items[0]) + after;
      assert after[1..] == tail;
      ItemsRoundTrip(items[1..], rest);
      assert items == [items[0]] + items[1..];
    }
  }

  lemma {:induction false} MembersRoundTrip(members: seq<Member>, rest: string)
    requires members != [] && PlainMembers(members)
    ensures ParseMembers(PrintMembers(members) + "}" + rest) == Some((members, rest))
    decreases members, 0
  {
    hide ParseValue, ParseText, Print, PlainValue, Plain;
    var s := PrintMembers(members) + "}" + rest;
    var m := members[0];
    var after := if |members| == 1 then "}" + rest else "," + (PrintMembers(members[1..]) + "}" + rest);
    assert s == PrintMember(m) + after;
    var colon := ":" + (Print(m.value) + after);
    MemberSplit(m, after);
    TextRoundTrip(m.name, colon);
    assert colon[1..] == Print(m.value) + after;
    ValueRoundTrip(m.value, after);
    if |members| == 1 {
      assert after[1..] == rest;
      assert members == [m];
    } else {
      assert after[1..] == PrintMembers(members[1..]) + "}" + rest;
      MembersRoundTrip(members[1..], rest);
      assert members == [m] + members[1..];
    }
  }

  lemma MemberSplit(m: Member, after: string)
    ensures var s := PrintMember(m) + after;
            s != "" && s[0] == '"' && s[1..] == m.name + "\"" + (":" + (Print(m.value) + after))
  {
    hide Print;
    var s := PrintMember(m) + after;
    assert PrintMember(m) == "\"" + m.name + "\":" + Print(m.value);
    assert s[1..] == m.name + "\":" + Print(m.value) + after;
    assert "\":" == "\"" + ":";
  }

  /** Every plain value is read back from its text. */
  lemma RoundTrip(v: Value)
    requires PlainValue(v)
    ensures Parse(Print(v)) == Some(v)
  {
    ValueRoundTrip(v, "");
    assert Print(v) + "" == Print(v);
  }

  // ---------- Objects of two and three members ----------

  lemma PrintTwo(a: Member, b: Member)
    ensures Print(Object([a, b])) == "{" + PrintMember(a) + "," + PrintMember(b) + "}"
    ensures Plain(a.name) && Plain(b.name) && PlainValue(a.value) && PlainValue(b.value) ==> PlainValue(Object([a, b]))
  {
    PairPrinted(a, b);
  }

  lemma PairPrinted(a: Member, b: Member)
    ensures PrintMembers([a, b]) == PrintMember(a) + "," + PrintMember(b)
    ensures Plain(a.name) && Plain(b.name) && PlainValue(a.value) && PlainValue(b.value) ==> PlainMembers([a, b])
  {
    hide PrintMember, PlainValue, Plain;
    assert [a, b][1..] == [b];
    assert [b][1..] == [];
    assert PlainMembers([]);
    assert PlainMembers([b]) == (Plain(b.name) && PlainValue(b.value));
    assert PrintMembers([b]) == PrintMember(b);
  }

  lemma PrintThree(a: Member, b: Member, c: Member)
    ensures Print(Object([a, b, c])) == "{" + PrintMember(a) + "," + PrintMember(b) + "," + PrintMember(c) + "}"
    ensures Plain(a.name) && Plain(b.name) && Plain(c.name) ==>
              PlainValue(a.value) && PlainValue(b.value) && PlainValue(c.value) ==> PlainValue(Object([a, b, c]))
  {
    PairPrinted(b, c);
    assert [a, b, c][1..] == [b, c];
    assert PrintMembers([a, b, c]) == PrintMember(a) + "," + (PrintMember(b) + "," + PrintMember(c));
  }

  // ---------- Arrays written item by item ----------

  lemma {:induction false} PrintItemsAppend(items: seq<Value>, v: Value)
    ensures PrintItems(items + [v]) == PrintItems(items) + (if items == [] then "" else ",") + Print(v)
    decreases |items|
  {
    if items == [] {
      assert items + [v] == [v];
    } else {
      assert (items + [v])[1..] == items[1..] + [v];
      PrintItemsAppend(items[1..], v);
    }
  }

  lemma {:induction false} PlainItemsAppend(items: seq<Value>, v: Value)
    requires PlainItems(items) && PlainValue(v)
    ensures PlainItems(items + [v])
    decreases |items|
  {
    if items == [] {
      assert items + [v] == [v];
    } else {
      assert (items + [v])[1..] == items[1..] + [v];
      PlainItemsAppend(items[1..], v);
    }
  }
}
