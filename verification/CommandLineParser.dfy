/** The parser as it runs: a token cursor moved forward and an option table filled in place. */
module CommandLineParser {
  import opened Optional
  import opened CommandLine
  import BleOptions

  class Tokens {
    const argv: seq<string>
    var i: nat
    var current: Option<string>

    ghost predicate Valid()
      reads this
    {
      i <= |argv| && current == if i < |argv| then Some(argv[i]) else None
    }

    /** The words not yet consumed. */
    ghost function Rest(): seq<string>
      reads this
      requires Valid()
    {
      argv[i..]
    }

    constructor (argv: seq<string>)
      ensures Valid() && this.argv == argv && Rest() == argv
    {
      this.argv := argv;
      i := 0;
      current := if |argv| > 0 then Some(argv[0]) else None;
    }

    /** tokens_move */
    method Move()
      requires Valid()
      modifies this
      ensures Valid()
      ensures Rest() == if old(Rest()) == [] then [] else old(Rest())[1..]
    {
      if i < |argv| {
        i := i + 1;
        if i < |argv| { current := Some(argv[i]); }
      }
      if i == |argv| {
        current := None;
      }
    }
  }

  class Elements {
    const options: array<Opt>

    constructor (table: seq<Opt>)
      ensures options[..] == table && fresh(options)
    {
      var a := new Opt[|table|](i requires 0 <= i < |table| => table[i]);
      options := a;
      new;
      assert a[..] == table;
    }

    method FindLongOption(word: string) returns (k: nat)
      ensures k == FindLong(options[..], word)
    {
      k := 0;
      while k < options.Length && !MatchesLong(word, options[k].long)
        invariant k <= options.Length
        invariant forall j :: 0 <= j < k ==> !MatchesLong(word, options[j].long)
      {
        k := k + 1;
      }
    }

    method FindShortOption(c: char) returns (k: nat)
      ensures k == FindShort(options[..], c)
    {
      k := 0;
      while k < options.Length && options[k].short != Some(c)
        invariant k <= options.Length
        invariant forall j :: 0 <= j < k ==> options[j].short != Some(c)
      {
        k := k + 1;
      }
    }
  }

  /** strchr(word, '=') */
  method FindEquals(word: string) returns (k: nat)
    ensures k == Equals(word)
  {
    k := 0;
    while k < |word| && word[k] != '='
      invariant k <= |word|
      invariant forall j :: 0 <= j < k ==> word[j] != '='
    {
      k := k + 1;
    }
  }

  /** parse_long */
  method ReadLong(ts: Tokens, elements: Elements) returns (error: Option<Error>)
    requires ts.Valid() && ts.current.Some?
    modifies ts, elements.options
    ensures ts.Valid()
    ensures match ParseLong(old(ts.current.value), old(ts.Rest())[1..], old(elements.options[..]))
            case Next(rest, options) => error == None && ts.Rest() == rest && elements.options[..] == options
            case Fail(e) => error == Some(e)
  {
    var word := ts.current.value;
    var eq := FindEquals(word);
    var k := elements.FindLongOption(word);
    if k == elements.options.Length {
      return Some(NotRecognized(word));
    }
    var option := elements.options[k];
    ts.Move();
    if option.takesArgument {
      if eq == |word| {
        if ts.current.None? {
          return Some(RequiresArgument(option.long));
        }
        elements.options[k] := option.(argument := ts.current);
        ts.Move();
      } else {
        elements.options[k] := option.(argument := Some(word[eq + 1..]));
      }
    } else {
      if eq < |word| {
        return Some(MustNotHaveArgument(option.long));
      }
      elements.options[k] := option.(value := true);
    }
    return None;
  }

  /** parse_shorts */
  method ReadShorts(ts: Tokens, elements: Elements) returns (error: Option<Error>)
    requires ts.Valid() && ts.current.Some? && LooksShort(ts.current.value)
    modifies ts, elements.options
    ensures ts.Valid()
    ensures match ParseShorts(old(ts.current.value)[1..], old(ts.Rest())[1..], old(elements.options[..]))
            case Next(rest, options) => error == None && ts.Rest() == rest && elements.options[..] == options
            case Fail(e) => error == Some(e)
  {
    ghost var goal := ParseShorts(ts.current.value[1..], ts.Rest()[1..], elements.options[..]);
    var raw := ts.current.value[1..];
    ts.Move();
    while raw != []
      invariant ts.Valid() && ParseShorts(raw, ts.Rest(), elements.options[..]) == goal
      decreases |raw|
    {
      var k := elements.FindShortOption(raw[0]);
      if k == elements.options.Length {
        return Some(NotRecognized(['-', raw[0]]));
      }
      var option := elements.options[k];
      ghost var before := elements.options[..];
      raw := raw[1..];
      if !option.takesArgument {
        elements.options[k] := option.(value := true);
        assert elements.options[..] == SetFlag(before, k);
      } else {
        if raw == [] {
          if ts.current.None? {
            return Some(RequiresArgument(['-', option.short.value]));
          }
          raw := ts.current.value;
          ts.Move();
        }
        elements.options[k] := option.(argument := Some(raw));
        assert elements.options[..] == SetArgument(before, k, raw);
        return None;
      }
    }
    return None;
  }

  /** parse_args ends on every argument list. */
  method ReadArgs(ts: Tokens, elements: Elements) returns (error: Option<Error>)
    requires ts.Valid()
    modifies ts, elements.options
    ensures ts.Valid()
    ensures match Parse(old(ts.Rest()), old(elements.options[..]))
            case Parsed(options) => error == None && elements.options[..] == options
            case Rejected(e) => error == Some(e)
  {
    ghost var goal := Parse(ts.Rest(), elements.options[..]);
    while ts.current.Some?
      invariant ts.Valid() && Parse(ts.Rest(), elements.options[..]) == goal
      decreases |ts.Rest()|
    {
      var word := ts.current.value;
      if word == "--" {
        break;
      }
      ghost var rest, options := ts.Rest()[1..], elements.options[..];
      assert Parse(ts.Rest(), options) == match ParseWord(word, rest, options)
                                          case Next(r, o) => Parse(r, o)
                                          case Fail(e) => Rejected(e);
      error := None;
      if LooksLong(word) {
        error := ReadLong(ts, elements);
      } else if LooksShort(word) {
        error := ReadShorts(ts, elements);
      } else {
        ts.Move();
      }
      if error.Some? {
        return;
      }
    }
    return None;
  }

  /** elems_to_args over the parsed table. */
  method ElemsToArgs(elements: Elements, defaults: BleOptions.Args, help: bool) returns (start: BleOptions.Start)
    ensures start == BleOptions.ElemsToArgs(elements.options[..], 0, defaults, help)
  {
    hide BleOptions.Collect, BleOptions.IsHelp;
    ghost var options := elements.options[..];
    var args := defaults;
    var k := 0;
    while k < elements.options.Length
      invariant k <= elements.options.Length
      invariant BleOptions.ElemsToArgs(options, k, args, help) == BleOptions.ElemsToArgs(options, 0, defaults, help)
    {
      var option := elements.options[k];
      if help && option.value && BleOptions.IsHelp(option) {
        return BleOptions.ExitSuccess;
      }
      args := BleOptions.Collect(option, args);
      k := k + 1;
    }
    return BleOptions.Ready(args);
  }

  /** docopt; the two exits of the program are results here. */
  method Docopt(argv: seq<string>, help: bool) returns (start: BleOptions.Start)
    ensures start == BleOptions.Docopt(argv, help)
  {
    hide BleOptions.Table, BleOptions.ElemsToArgs, Parse;
    var ts := new Tokens(argv);
    var elements := new Elements(BleOptions.Table());
    var error := ReadArgs(ts, elements);
    if error.Some? {
      return BleOptions.ExitFailure(error.value);
    }
    start := ElemsToArgs(elements, BleOptions.Defaults(), help);
  }
}
