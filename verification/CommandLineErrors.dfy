/** How a command line fails: the word that is wrong, and the message it ends with. */
module CommandLineErrors {
  import opened Optional
  import opened CommandLine
  import opened BleOptions

  /** What can be wrong after any number of well-spelled words. */
  datatype Fault =
    | UnknownName(word: string)
    | UnknownPrefix(prefix: string, text: string)
    | UnknownLetter(flags: seq<nat>, letter: char, tail: string)
    | NameLacksText(k: nat)
    | LetterLacksText(flags: seq<nat>, k: nat)
    | FlagHasText(k: nat, text: string)

  /** No option has the name or letter, or the option wants a text and has none, or has one and wants none. */
  ghost predicate Faulty(options: seq<Opt>, fault: Fault) {
    match fault
    case UnknownName(word) =>
      LooksLong(word) && word != "--" && '=' !in word && forall j :: 0 <= j < |options| ==> options[j].long != word
    case UnknownPrefix(prefix, _) =>
      LooksLong(prefix) && '=' !in prefix && forall j :: 0 <= j < |options| ==> !(prefix <= options[j].long)
    case UnknownLetter(flags, letter, _) =>
      ShortFlags(options, flags) && letter != '-' && forall j :: 0 <= j < |options| ==> options[j].short != Some(letter)
    case NameLacksText(k) => Takes(options, k)
    case LetterLacksText(flags, k) => ShortFlags(options, flags) && Takes(options, k) && options[k].short.Some?
    case FlagHasText(k, _) => IsFlag(options, k)
  }

  function WordOf(options: seq<Opt>, fault: Fault): string
    requires Faulty(options, fault)
  {
    match fault
    case UnknownName(word) => word
    case UnknownPrefix(prefix, text) => prefix + "=" + text
    case UnknownLetter(flags, letter, tail) => "-" + Letters(options, flags) + ([letter] + tail)
    case NameLacksText(k) => options[k].long
    case LetterLacksText(flags, k) => "-" + Letters(options, flags) + [options[k].short.value]
    case FlagHasText(k, text) => options[k].long + "=" + text
  }

  function MessageOf(options: seq<Opt>, fault: Fault): Error
    requires Faulty(options, fault)
  {
    match fault
    case UnknownName(word) => NotRecognized(word)
    case UnknownPrefix(prefix, text) => NotRecognized(prefix + "=" + text)
    case UnknownLetter(_, letter, _) => NotRecognized(['-', letter])
    case NameLacksText(k) => RequiresArgument(options[k].long)
    case LetterLacksText(_, k) => RequiresArgument(['-', options[k].short.value])
    case FlagHasText(k, _) => MustNotHaveArgument(options[k].long)
  }

  predicate LacksText(fault: Fault) { fault.NameLacksText? || fault.LetterLacksText? }

  lemma EqualsAbsent(word: string)
    requires '=' !in word
    ensures Equals(word) == |word|
  {
  }

  lemma UnknownIsNotFound(options: seq<Opt>, word: string)
    requires '=' !in word && forall j :: 0 <= j < |options| ==> options[j].long != word
    ensures FindLong(options, word) == |options|
  {
    EqualsAbsent(word);
  }

  lemma PrefixIsNotFound(options: seq<Opt>, prefix: string, text: string)
    requires '=' !in prefix && forall j :: 0 <= j < |options| ==> !(prefix <= options[j].long)
    ensures FindLong(options, prefix + "=" + text) == |options|
  {
    var k := FindLong(options, prefix + "=" + text);
    EqualsAbsent(prefix);
    if k < |options| { AbbreviationExact(options, k, prefix, text); }
  }

  lemma UnknownLetterRead(options: seq<Opt>, flags: seq<nat>, letter: char, tail: string, rest: seq<string>)
    requires WellFormed(options) && Faulty(options, UnknownLetter(flags, letter, tail))
    ensures var word := "-" + Letters(options, flags) + ([letter] + tail);
            word != "--" && ParseWord(word, rest, options) == Fail(NotRecognized(['-', letter]))
  {
    ClusterWord(options, flags, [letter] + tail, rest);
    SameShorts(options, SetFlags(options, flags), letter);
    hide ParseWord, WellFormed;
  }

  lemma SameShorts(a: seq<Opt>, b: seq<Opt>, letter: char)
    requires SameNames(a, b) && forall j :: 0 <= j < |a| ==> a[j].short != Some(letter)
    ensures FindShort(b, letter) == |b|
  {
  }

  lemma LetterLacksRead(options: seq<Opt>, flags: seq<nat>, k: nat)
    requires WellFormed(options) && Faulty(options, LetterLacksText(flags, k))
    ensures var word := "-" + Letters(options, flags) + [options[k].short.value];
            word != "--" && ParseWord(word, [], options) == Fail(RequiresArgument(['-', options[k].short.value]))
  {
    assert options[k].short != Some('-');
    var next := SetFlags(options, flags);
    WellFormedSame(options, next);
    ClusterWord(options, flags, [options[k].short.value], []);
    FindShortExact(next, k);
    hide ParseWord, WellFormed;
  }

  /** The faulty word ends the parse with its message. */
  lemma FaultRead(options: seq<Opt>, fault: Fault, rest: seq<string>)
    requires WellFormed(options) && Faulty(options, fault) && (LacksText(fault) ==> rest == [])
    ensures var word := WordOf(options, fault);
            word != "--" && ParseWord(word, rest, options) == Fail(MessageOf(options, fault))
  {
    match fault
    case UnknownName(word) => UnknownIsNotFound(options, word);
    case UnknownPrefix(prefix, text) => PrefixIsNotFound(options, prefix, text);
    case UnknownLetter(flags, letter, tail) => UnknownLetterRead(options, flags, letter, tail, rest);
    case NameLacksText(k) => FindLongExact(options, k, "");
    case LetterLacksText(flags, k) => LetterLacksRead(options, flags, k);
    case FlagHasText(k, text) => FindLongExact(options, k, text);
  }

  lemma FaultSame(a: seq<Opt>, b: seq<Opt>, fault: Fault)
    requires SameNames(a, b) && Faulty(a, fault)
    ensures Faulty(b, fault) && WordOf(a, fault) == WordOf(b, fault) && MessageOf(a, fault) == MessageOf(b, fault)
  {
    match fault
    case UnknownLetter(flags, _, _) => LettersSame(a, b, flags);
    case LetterLacksText(flags, _) => LettersSame(a, b, flags);
    case _ =>
  }

  /** After any well-spelled words: a fault ends the program with its message, whatever follows it. */
  lemma {:induction false} FaultStops(options: seq<Opt>, ps: seq<Piece>, fault: Fault, rest: seq<string>)
    requires WellFormed(options) && AllSpell(options, ps) && Faulty(options, fault) && (LacksText(fault) ==> rest == [])
    ensures Parse(RenderAll(options, ps) + [WordOf(options, fault)] + rest, options) == Rejected(MessageOf(options, fault))
    decreases |ps|
  {
    hide WellFormed, ParseWord, Faulty, WordOf, MessageOf, Render, Spells;
    var words := [WordOf(options, fault)] + rest;
    if ps == [] {
      FaultRead(options, fault, rest);
      assert RenderAll(options, ps) + [WordOf(options, fault)] + rest == words;
      assert words[1..] == rest;
    } else {
      var next := Meaning(options, ps[0]);
      WellFormedSame(options, next);
      RenderAllSame(options, next, ps[1..]);
      FaultSame(options, next, fault);
      FaultStops(next, ps[1..], fault, rest);
      FirstPiece(options, ps, words);
      assert RenderAll(next, ps[1..]) + [WordOf(next, fault)] + rest == RenderAll(next, ps[1..]) + words;
      assert RenderAll(options, ps) + [WordOf(options, fault)] + rest == RenderAll(options, ps) + words;
    }
  }

  lemma RenderSome(options: seq<Opt>, p: Piece)
    requires Spells(options, p)
    ensures Render(options, p) != []
  {
  }

  lemma FirstPiece(options: seq<Opt>, ps: seq<Piece>, words: seq<string>)
    requires WellFormed(options) && AllSpell(options, ps) && ps != []
    ensures AllSpell(Meaning(options, ps[0]), ps[1..])
    ensures var next := Meaning(options, ps[0]);
            Parse(RenderAll(options, ps) + words, options) == Parse(RenderAll(next, ps[1..]) + words, next)
  {
    hide WellFormed, ParseWord, Render, Spells;
    var next := Meaning(options, ps[0]);
    RenderAllSame(options, next, ps[1..]);
    var rest := RenderAll(options, ps[1..]) + words;
    PieceRead(options, ps[0], rest);
    var all := Render(options, ps[0]) + rest;
    RenderSome(options, ps[0]);
    assert RenderAll(options, ps) + words == all;
    assert ParseWord(all[0], all[1..], options) == Next(rest, next);
    assert Parse(all, options) == Parse(rest, next);
  }

  /** Two dashes end the options: what follows them is not looked at. */
  lemma {:induction false} DashesEnd(options: seq<Opt>, ps: seq<Piece>, rest: seq<string>)
    requires WellFormed(options) && AllSpell(options, ps)
    ensures Parse(RenderAll(options, ps) + ["--"] + rest, options) == Parsed(MeaningAll(options, ps))
    decreases |ps|
  {
    hide WellFormed, ParseWord, Render, Spells;
    var words := ["--"] + rest;
    if ps == [] {
      assert RenderAll(options, ps) + ["--"] + rest == words;
    } else {
      var next := Meaning(options, ps[0]);
      WellFormedSame(options, next);
      RenderAllSame(options, next, ps[1..]);
      DashesEnd(next, ps[1..], rest);
      FirstPiece(options, ps, words);
      assert RenderAll(next, ps[1..]) + ["--"] + rest == RenderAll(next, ps[1..]) + words;
      assert RenderAll(options, ps) + ["--"] + rest == RenderAll(options, ps) + words;
    }
  }

  /** The program's own command line: a fault ends it with failure and the message, help asked for before or not. */
  lemma DocoptRejects(program: string, ps: seq<Piece>, fault: Fault, rest: seq<string>, help: bool)
    requires AllSpell(Table(), ps) && (|program| < 2 || program[0] != '-')
    requires Faulty(Table(), fault) && (LacksText(fault) ==> rest == [])
    ensures Docopt([program] + (RenderAll(Table(), ps) + [WordOf(Table(), fault)] + rest), help)
              == ExitFailure(MessageOf(Table(), fault))
  {
    TableWellFormed();
    FaultStops(Table(), ps, fault, rest);
    hide Table, Faulty, WordOf, MessageOf, RenderAll, WellFormed, Spells;
    var words := RenderAll(Table(), ps) + [WordOf(Table(), fault)] + rest;
    assert ([program] + words)[1..] == words;
    assert ParseWord(program, words, Table()) == Next(words, Table());
  }
}
