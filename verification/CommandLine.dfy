/**
 * The generated command-line parser as a function on the words still to be read, and the proof that it reads
 * back every way of spelling a list of option assignments.
 */
module CommandLine {
  import Search
  import opened Optional

  /** One row of the option table; `value` and `argument` are what parsing fills in. */
  datatype Opt = Opt(short: Option<char>, long: string, takesArgument: bool, value: bool, argument: Option<string>)

  datatype Error =
    | NotRecognized(text: string)
    | RequiresArgument(name: string)
    | MustNotHaveArgument(long: string)

  /** The words left and the table after a token has been read, or the message that ends the program. */
  datatype Progress = Next(rest: seq<string>, options: seq<Opt>) | Fail(error: Error)

  datatype Outcome = Parsed(options: seq<Opt>) | Rejected(error: Error)

  // ---------- The parser ----------

  /** Position of the first '=' of a word, or its length. */
  function Equals(word: string): (k: nat)
    ensures k <= |word|
    ensures k < |word| ==> word[k] == '='
    ensures forall j :: 0 <= j < k ==> word[j] != '='
  {
    Search.First(word, (c: char) => c == '=')
  }

  function Take(word: string, n: nat): string {
    if n <= |word| then word[..n] else word
  }

  /** strncmp(a, b, n) == 0 */
  predicate SamePrefix(a: string, b: string, n: nat) {
    Take(a, n) == Take(b, n)
  }

  /** The names compare up to the '='; a word without one is compared whole. */
  predicate MatchesLong(word: string, long: string) {
    if Equals(word) < |word| then SamePrefix(word, long, Equals(word)) else word == long
  }

  function FindLong(options: seq<Opt>, word: string): (k: nat)
    ensures k <= |options|
    ensures k < |options| ==> MatchesLong(word, options[k].long)
    ensures forall j :: 0 <= j < k ==> !MatchesLong(word, options[j].long)
  {
    Search.First(options, (o: Opt) => MatchesLong(word, o.long))
  }

  function FindShort(options: seq<Opt>, c: char): (k: nat)
    ensures k <= |options|
    ensures k < |options| ==> options[k].short == Some(c)
    ensures forall j :: 0 <= j < k ==> options[j].short != Some(c)
  {
    Search.First(options, (o: Opt) => o.short == Some(c))
  }

  function SetFlag(options: seq<Opt>, k: nat): seq<Opt>
    requires k < |options|
  {
    options[k := options[k].(value := true)]
  }

  function SetArgument(options: seq<Opt>, k: nat, text: string): seq<Opt>
    requires k < |options|
  {
    options[k := options[k].(argument := Some(text))]
  }

  /** parse_long: the word that starts with "--", and perhaps the next one. */
  function ParseLong(word: string, rest: seq<string>, options: seq<Opt>): Progress {
    var k := FindLong(options, word);
    var eq := Equals(word);
    if k == |options| then Fail(NotRecognized(word))
    else if options[k].takesArgument then
      if eq < |word| then Next(rest, SetArgument(options, k, word[eq + 1..]))
      else if rest == [] then Fail(RequiresArgument(options[k].long))
      else Next(rest[1..], SetArgument(options, k, rest[0]))
    else if eq < |word| then Fail(MustNotHaveArgument(options[k].long))
    else Next(rest, SetFlag(options, k))
  }

  /** parse_shorts on the letters after the dash. */
  function ParseShorts(raw: string, rest: seq<string>, options: seq<Opt>): Progress
    decreases |raw|
  {
    if raw == [] then Next(rest, options)
    else
      var k := FindShort(options, raw[0]);
      if k == |options| then Fail(NotRecognized(['-', raw[0]]))
      else if !options[k].takesArgument then ParseShorts(raw[1..], rest, SetFlag(options, k))
      else if |raw| > 1 then Next(rest, SetArgument(options, k, raw[1..]))
      else if rest == [] then Fail(RequiresArgument(['-', raw[0]]))
      else Next(rest[1..], SetArgument(options, k, rest[0]))
  }

  predicate LooksLong(word: string) {
    |word| >= 2 && word[0] == '-' && word[1] == '-'
  }

  predicate LooksShort(word: string) {
    |word| >= 2 && word[0] == '-' && word[1] != '-'
  }

  lemma {:induction false} ShortsProgress(raw: string, rest: seq<string>, options: seq<Opt>)
    ensures var p := ParseShorts(raw, rest, options);
            p.Next? ==> |p.rest| <= |rest| && |p.options| == |options|
    decreases |raw|
  {
    if raw != [] {
      var k := FindShort(options, raw[0]);
      if k < |options| && !options[k].takesArgument {
        ShortsProgress(raw[1..], rest, SetFlag(options, k));
      }
    }
  }

  /** One turn of parse_args on a word other than "--"; a word that is no option is skipped. */
  function ParseWord(word: string, rest: seq<string>, options: seq<Opt>): (p: Progress)
    ensures p.Next? ==> |p.rest| <= |rest| && |p.options| == |options|
  {
    ShortsProgress(word[if word == [] then 0 else 1..], rest, options);
    if LooksLong(word) then ParseLong(word, rest, options)
    else if LooksShort(word) then ParseShorts(word[1..], rest, options)
    else Next(rest, options)
  }

  /** parse_args */
  function Parse(words: seq<string>, options: seq<Opt>): Outcome
    decreases |words|
  {
    if words == [] || words[0] == "--" then Parsed(options)
    else
      match ParseWord(words[0], words[1..], options)
      case Next(rest, options') => Parse(rest, options')
      case Fail(e) => Rejected(e)
  }

  // ---------- Option tables ----------

  /** Names start with "--", hold no '=' and are not prefixes of one another; short letters differ and are no dashes. */
  ghost predicate WellFormed(options: seq<Opt>) {
    && (forall i :: 0 <= i < |options| ==>
          LooksLong(options[i].long) && |options[i].long| > 2 && Equals(options[i].long) == |options[i].long|
          && options[i].short != Some('-'))
    && (forall i, j :: 0 <= i < |options| && 0 <= j < |options| && i != j ==> !(options[i].long <= options[j].long))
    && (forall i, j :: 0 <= i < j < |options| && options[i].short.Some? ==> options[i].short != options[j].short)
  }

  /** The tables agree in everything but what parsing fills in. */
  ghost predicate SameNames(a: seq<Opt>, b: seq<Opt>) {
    |a| == |b| && forall i :: 0 <= i < |a| ==>
      a[i].short == b[i].short && a[i].long == b[i].long && a[i].takesArgument == b[i].takesArgument
  }

  // ---------- Spellings ----------

  /**
   * One way to write assignments: `--flag`, `--opt=text`, `--opt text`, `-abc`, `-abotext`, `-abo text`,
   * or a word that is no option.
   */
  datatype Piece =
    | LongFlag(k: nat)
    | LongEquals(k: nat, text: string)
    | LongSpaced(k: nat, text: string)
    | Cluster(flags: seq<nat>)
    | ClusterAttached(flags: seq<nat>, k: nat, text: string)
    | ClusterSpaced(flags: seq<nat>, k: nat, text: string)
    | Word(word: string)

  ghost predicate IsFlag(options: seq<Opt>, k: nat) {
    k < |options| && !options[k].takesArgument
  }

  ghost predicate Takes(options: seq<Opt>, k: nat) {
    k < |options| && options[k].takesArgument
  }

  ghost predicate ShortFlags(options: seq<Opt>, flags: seq<nat>) {
    forall i :: 0 <= i < |flags| ==> IsFlag(options, flags[i]) && options[flags[i]].short.Some?
  }

  /** The piece can be written with this table. */
  ghost predicate Spells(options: seq<Opt>, p: Piece) {
    match p
    case LongFlag(k) => IsFlag(options, k)
    case LongEquals(k, _) => Takes(options, k)
    case LongSpaced(k, _) => Takes(options, k)
    case Cluster(flags) => flags != [] && ShortFlags(options, flags)
    case ClusterAttached(flags, k, text) =>
      ShortFlags(options, flags) && Takes(options, k) && options[k].short.Some? && text != []
    case ClusterSpaced(flags, k, _) => ShortFlags(options, flags) && Takes(options, k) && options[k].short.Some?
    case Word(word) => |word| < 2 || word[0] != '-'
  }

  function Letters(options: seq<Opt>, flags: seq<nat>): string
    requires ShortFlags(options, flags)
  {
    if flags == [] then [] else [options[flags[0]].short.value] + Letters(options, flags[1..])
  }

  function Render(options: seq<Opt>, p: Piece): seq<string>
    requires Spells(options, p)
  {
    match p
    case LongFlag(k) => [options[k].long]
    case LongEquals(k, text) => [options[k].long + "=" + text]
    case LongSpaced(k, text) => [options[k].long, text]
    case Cluster(flags) => ["-" + Letters(options, flags)]
    case ClusterAttached(flags, k, text) => ["-" + Letters(options, flags) + ([options[k].short.value] + text)]
    case ClusterSpaced(flags, k, text) => ["-" + Letters(options, flags) + [options[k].short.value], text]
    case Word(word) => [word]
  }

  function SetFlags(options: seq<Opt>, flags: seq<nat>): (r: seq<Opt>)
    requires forall i :: 0 <= i < |flags| ==> flags[i] < |options|
    ensures SameNames(options, r)
    decreases |flags|
  {
    if flags == [] then options else SetFlags(SetFlag(options, flags[0]), flags[1..])
  }

  /** What the piece assigns. */
  function Meaning(options: seq<Opt>, p: Piece): (r: seq<Opt>)
    requires Spells(options, p)
    ensures SameNames(options, r)
  {
    match p
    case LongFlag(k) => SetFlag(options, k)
    case LongEquals(k, text) => SetArgument(options, k, text)
    case LongSpaced(k, text) => SetArgument(options, k, text)
    case Cluster(flags) => SetFlags(options, flags)
    case ClusterAttached(flags, k, text) => SetArgument(SetFlags(options, flags), k, text)
    case ClusterSpaced(flags, k, text) => SetArgument(SetFlags(options, flags), k, text)
    case Word(_) => options
  }

  ghost predicate AllSpell(options: seq<Opt>, ps: seq<Piece>) {
    forall i :: 0 <= i < |ps| ==> Spells(options, ps[i])
  }

  function RenderAll(options: seq<Opt>, ps: seq<Piece>): seq<string>
    requires AllSpell(options, ps)
  {
    if ps == [] then [] else Render(options, ps[0]) + RenderAll(options, ps[1..])
  }

  function MeaningAll(options: seq<Opt>, ps: seq<Piece>): (r: seq<Opt>)
    requires AllSpell(options, ps)
    ensures SameNames(options, r)
    decreases |ps|
  {
    if ps == [] then options
    else
      SpellsSame(options, Meaning(options, ps[0]), ps[1..]);
      MeaningAll(Meaning(options, ps[0]), ps[1..])
  }

  // ---------- Reading a spelling back ----------

  lemma SpellsSame(a: seq<Opt>, b: seq<Opt>, ps: seq<Piece>)
    requires SameNames(a, b) && AllSpell(a, ps)
    ensures AllSpell(b, ps)
  {
    forall i | 0 <= i < |ps| ensures Spells(b, ps[i]) {
      assert Spells(a, ps[i]);
      SpellsSameOne(a, b, ps[i]);
    }
  }

  lemma SpellsSameOne(a: seq<Opt>, b: seq<Opt>, p: Piece)
    requires SameNames(a, b) && Spells(a, p)
    ensures Spells(b, p)
  {
  }

  lemma {:induction false} LettersSame(a: seq<Opt>, b: seq<Opt>, flags: seq<nat>)
    requires SameNames(a, b) && ShortFlags(a, flags)
    ensures ShortFlags(b, flags) && Letters(a, flags) == Letters(b, flags)
  {
    if flags != [] {
      LettersSame(a, b, flags[1..]);
    }
  }

  lemma RenderSame(a: seq<Opt>, b: seq<Opt>, p: Piece)
    requires SameNames(a, b) && Spells(a, p)
    ensures Spells(b, p) && Render(a, p) == Render(b, p)
  {
    match p
    case Cluster(flags) => LettersSame(a, b, flags);
    case ClusterAttached(flags, _, _) => LettersSame(a, b, flags);
    case ClusterSpaced(flags, _, _) => LettersSame(a, b, flags);
    case _ =>
  }

  lemma {:induction false} RenderAllSame(a: seq<Opt>, b: seq<Opt>, ps: seq<Piece>)
    requires SameNames(a, b) && AllSpell(a, ps)
    ensures AllSpell(b, ps) && RenderAll(a, ps) == RenderAll(b, ps)
  {
    if ps != [] {
      RenderSame(a, b, ps[0]);
      RenderAllSame(a, b, ps[1..]);
      SpellsSame(a, b, ps);
    }
  }

  lemma WellFormedSame(a: seq<Opt>, b: seq<Opt>)
    requires SameNames(a, b) && WellFormed(a)
    ensures WellFormed(b)
  {
  }

  lemma FindShortExact(options: seq<Opt>, k: nat)
    requires WellFormed(options) && k < |options| && options[k].short.Some?
    ensures FindShort(options, options[k].short.value) == k
  {
    var j := FindShort(options, options[k].short.value);
    assert j <= k;
  }

  /** A full name is found whether or not a value follows it. */
  lemma FindLongExact(options: seq<Opt>, k: nat, text: string)
    requires WellFormed(options) && k < |options|
    ensures FindLong(options, options[k].long) == k
    ensures var word := options[k].long + "=" + text;
            Equals(word) == |options[k].long| && FindLong(options, word) == k
  {
    AbbreviationExact(options, k, options[k].long, text);
    assert MatchesLong(options[k].long, options[k].long);
  }

  /** An abbreviated name with a value selects the first option of the table it is a prefix of. */
  lemma AbbreviationExact(options: seq<Opt>, k: nat, prefix: string, text: string)
    requires k < |options| && Equals(prefix) == |prefix|
    ensures var word := prefix + "=" + text;
            && Equals(word) == |prefix|
            && (FindLong(options, word) == k <==>
                  prefix <= options[k].long && forall j :: 0 <= j < k ==> !(prefix <= options[j].long))
  {
    var word := prefix + "=" + text;
    assert word[|prefix|] == '=';
    assert forall j :: 0 <= j < |prefix| ==> word[j] == prefix[j];
    assert Equals(word) == |prefix|;
    forall j | 0 <= j < |options| ensures MatchesLong(word, options[j].long) <==> prefix <= options[j].long {
      assert Take(word, |prefix|) == prefix;
    }
  }

  lemma FlagRead(options: seq<Opt>, k: nat, tail: string, rest: seq<string>)
    requires WellFormed(options) && IsFlag(options, k) && options[k].short.Some?
    ensures ParseShorts([options[k].short.value] + tail, rest, options) == ParseShorts(tail, rest, SetFlag(options, k))
  {
    FindShortExact(options, k);
    assert ([options[k].short.value] + tail)[1..] == tail;
  }

  /** A run of flag letters sets their flags, whatever follows it. */
  lemma {:induction false} ClusterRead(options: seq<Opt>, flags: seq<nat>, tail: string, rest: seq<string>)
    requires WellFormed(options) && ShortFlags(options, flags)
    ensures ParseShorts(Letters(options, flags) + tail, rest, options) == ParseShorts(tail, rest, SetFlags(options, flags))
    decreases |flags|
  {
    hide ParseShorts;
    if flags == [] {
      assert Letters(options, flags) + tail == tail;
    } else {
      var more := Letters(options, flags[1..]) + tail;
      assert Letters(options, flags) + tail == [options[flags[0]].short.value] + more;
      FlagRead(options, flags[0], more, rest);
      var next := SetFlag(options, flags[0]);
      WellFormedSame(options, next);
      LettersSame(options, next, flags[1..]);
      hide WellFormed;
      ClusterRead(next, flags[1..], tail, rest);
    }
  }

  lemma ArgumentRead(options: seq<Opt>, k: nat, text: string, rest: seq<string>)
    requires WellFormed(options) && Takes(options, k) && options[k].short.Some?
    ensures text != [] ==> ParseShorts([options[k].short.value] + text, rest, options) == Next(rest, SetArgument(options, k, text))
    ensures ParseShorts([options[k].short.value], [text] + rest, options) == Next(rest, SetArgument(options, k, text))
  {
    FindShortExact(options, k);
    assert ([options[k].short.value] + text)[1..] == text;
    assert ([text] + rest)[1..] == rest;
  }

  lemma LettersNoDash(options: seq<Opt>, flags: seq<nat>)
    requires WellFormed(options) && ShortFlags(options, flags) && flags != []
    ensures Letters(options, flags) != [] && Letters(options, flags)[0] != '-'
  {
  }

  lemma ClusterWord(options: seq<Opt>, flags: seq<nat>, tail: string, rest: seq<string>)
    requires WellFormed(options) && ShortFlags(options, flags)
    requires Letters(options, flags) + tail != [] && (tail == [] || tail[0] != '-')
    ensures var word := "-" + Letters(options, flags) + tail;
            word != "--" && ParseWord(word, rest, options) == ParseShorts(tail, rest, SetFlags(options, flags))
  {
    var raw := Letters(options, flags) + tail;
    var word := "-" + Letters(options, flags) + tail;
    if flags != [] {
      LettersNoDash(options, flags);
      assert raw[0] == Letters(options, flags)[0];
    } else {
      assert raw == tail;
    }
    assert word[0] == '-' && word[1] == raw[0];
    assert word[1..] == raw;
    ClusterRead(options, flags, tail, rest);
  }

  /** The first word of a rendered piece, read against the rest of its words, assigns what the piece means. */
  lemma PieceRead(options: seq<Opt>, p: Piece, rest: seq<string>)
    requires WellFormed(options) && Spells(options, p)
    ensures var words := Render(options, p) + rest;
            words[0] != "--" && ParseWord(words[0], words[1..], options) == Next(rest, Meaning(options, p))
  {
    hide WellFormed;
    var words := Render(options, p) + rest;
    match p
    case LongFlag(k) => LongFlagRead(options, k, rest);
    case LongEquals(k, text) => LongEqualsRead(options, k, text, rest);
    case LongSpaced(k, text) => LongSpacedRead(options, k, text, rest);
    case Cluster(flags) => ClusterAlone(options, flags, rest);
    case ClusterAttached(flags, k, text) => AttachedRead(options, flags, k, text, rest);
    case ClusterSpaced(flags, k, text) => SpacedRead(options, flags, k, text, rest);
    case Word(word) => assert words[1..] == rest;
  }

  lemma LongFlagRead(options: seq<Opt>, k: nat, rest: seq<string>)
    requires WellFormed(options) && Spells(options, LongFlag(k))
    ensures var words := Render(options, LongFlag(k)) + rest;
            words[0] != "--" && ParseWord(words[0], words[1..], options) == Next(rest, Meaning(options, LongFlag(k)))
  {
    FindLongExact(options, k, "");
    assert (Render(options, LongFlag(k)) + rest)[1..] == rest;
  }

  lemma LongSpacedRead(options: seq<Opt>, k: nat, text: string, rest: seq<string>)
    requires WellFormed(options) && Spells(options, LongSpaced(k, text))
    ensures var words := Render(options, LongSpaced(k, text)) + rest;
            words[0] != "--" && ParseWord(words[0], words[1..], options) == Next(rest, Meaning(options, LongSpaced(k, text)))
  {
    var words := Render(options, LongSpaced(k, text)) + rest;
    FindLongExact(options, k, "");
    assert words[1..] == [text] + rest && words[1..][1..] == rest;
  }

  lemma ClusterAlone(options: seq<Opt>, flags: seq<nat>, rest: seq<string>)
    requires WellFormed(options) && Spells(options, Cluster(flags))
    ensures var words := Render(options, Cluster(flags)) + rest;
            words[0] != "--" && ParseWord(words[0], words[1..], options) == Next(rest, Meaning(options, Cluster(flags)))
  {
    hide WellFormed, ParseWord;
    assert "-" + Letters(options, flags) + [] == "-" + Letters(options, flags);
    LettersNoDash(options, flags);
    ClusterWord(options, flags, [], rest);
    assert (Render(options, Cluster(flags)) + rest)[1..] == rest;
  }

  lemma LongEqualsRead(options: seq<Opt>, k: nat, text: string, rest: seq<string>)
    requires WellFormed(options) && Takes(options, k)
    ensures var words := Render(options, LongEquals(k, text)) + rest;
            words[0] != "--" && ParseWord(words[0], words[1..], options) == Next(rest, SetArgument(options, k, text))
  {
    var words := Render(options, LongEquals(k, text)) + rest;
    FindLongExact(options, k, text);
    assert words[1..] == rest;
    assert words[0][|options[k].long| + 1..] == text;
  }

  lemma AttachedRead(options: seq<Opt>, flags: seq<nat>, k: nat, text: string, rest: seq<string>)
    requires WellFormed(options) && Spells(options, ClusterAttached(flags, k, text))
    ensures var p := ClusterAttached(flags, k, text);
            var words := Render(options, p) + rest;
            words[0] != "--" && ParseWord(words[0], words[1..], options) == Next(rest, Meaning(options, p))
  {
    assert options[k].short != Some('-');
    hide WellFormed, ParseWord, ParseShorts;
    var words := Render(options, ClusterAttached(flags, k, text)) + rest;
    var next := SetFlags(options, flags);
    WellFormedSame(options, next);
    ClusterWord(options, flags, [options[k].short.value] + text, rest);
    ArgumentRead(next, k, text, rest);
    assert words[1..] == rest;
  }

  lemma SpacedRead(options: seq<Opt>, flags: seq<nat>, k: nat, text: string, rest: seq<string>)
    requires WellFormed(options) && Spells(options, ClusterSpaced(flags, k, text))
    ensures var p := ClusterSpaced(flags, k, text);
            var words := Render(options, p) + rest;
            words[0] != "--" && ParseWord(words[0], words[1..], options) == Next(rest, Meaning(options, p))
  {
    assert options[k].short != Some('-');
    hide WellFormed, ParseWord, ParseShorts;
    var words := Render(options, ClusterSpaced(flags, k, text)) + rest;
    var next := SetFlags(options, flags);
    WellFormedSame(options, next);
    ClusterWord(options, flags, [options[k].short.value], [text] + rest);
    ArgumentRead(next, k, text, rest);
    assert words[1..] == [text] + rest;
  }

  /** Parsing any rendering of a list of assignments succeeds and makes exactly these assignments, in order. */
  lemma {:induction false} ParseRender(options: seq<Opt>, ps: seq<Piece>)
    requires WellFormed(options) && AllSpell(options, ps)
    ensures Parse(RenderAll(options, ps), options) == Parsed(MeaningAll(options, ps))
    decreases |ps|
  {
    if ps != [] {
      var rest := RenderAll(options, ps[1..]);
      var next := Meaning(options, ps[0]);
      PieceRead(options, ps[0], rest);
      WellFormedSame(options, next);
      RenderAllSame(options, next, ps[1..]);
      ParseRender(next, ps[1..]);
    }
  }
}
