/** The option table of the BLE translator and the arguments docopt makes of it. */
module BleOptions {
  import opened Optional
  import opened CommandLine

  datatype Args = Args(
    clearCache: bool,
    colorLog: bool,
    help: bool,
    address: string,
    bluetoothInterface: string,
    edgeDomainSocket: string,
    endpointPostfix: string,
    extendedDiscoveryFile: Option<string>,
    protocolTranslatorName: Option<string>)

  datatype Start = ExitFailure(error: Error) | ExitSuccess | Ready(args: Args)

  function Defaults(): Args {
    Args(false, false, false, "unix:path=/var/run/dbus/system_bus_socket", "hci0", "/tmp/edge.sock", "-0", None, None)
  }

  const CLEAR_CACHE := 0
  const COLOR_LOG := 1
  const HELP := 2
  const ADDRESS := 3
  const BLUETOOTH_INTERFACE := 4
  const EDGE_DOMAIN_SOCKET := 5
  const ENDPOINT_POSTFIX := 6
  const EXTENDED_DISCOVERY_FILE := 7
  const PROTOCOL_TRANSLATOR_NAME := 8

  function Row(k: nat): Opt
    requires k < 9
  {
    if k == CLEAR_CACHE then Opt(Some('c'), "--clear-cache", false, false, None)
    else if k == COLOR_LOG then Opt(None, "--color-log", false, false, None)
    else if k == HELP then Opt(Some('h'), "--help", false, false, None)
    else if k == ADDRESS then Opt(Some('a'), "--address", true, false, None)
    else if k == BLUETOOTH_INTERFACE then Opt(Some('b'), "--bluetooth-interface", true, false, None)
    else if k == EDGE_DOMAIN_SOCKET then Opt(None, "--edge-domain-socket", true, false, None)
    else if k == ENDPOINT_POSTFIX then Opt(Some('e'), "--endpoint-postfix", true, false, None)
    else if k == EXTENDED_DISCOVERY_FILE then Opt(Some('d'), "--extended-discovery-file", true, false, None)
    else Opt(Some('n'), "--protocol-translator-name", true, false, None)
  }

  function Table(): seq<Opt> {
    seq(9, k requires 0 <= k < 9 => Row(k))
  }

  function OrElse<T>(o: Option<T>, default: T): T {
    if o.Some? then o.value else default
  }

  /** One turn of the loop of elems_to_args, after the test for the help option. */
  function Collect(o: Opt, args: Args): Args {
    if o.long == "--clear-cache" then args.(clearCache := o.value)
    else if o.long == "--color-log" then args.(colorLog := o.value)
    else if o.long == "--help" then args.(help := o.value)
    else if o.long == "--address" then args.(address := OrElse(o.argument, args.address))
    else if o.long == "--bluetooth-interface" then args.(bluetoothInterface := OrElse(o.argument, args.bluetoothInterface))
    else if o.long == "--edge-domain-socket" then args.(edgeDomainSocket := OrElse(o.argument, args.edgeDomainSocket))
    else if o.long == "--endpoint-postfix" then args.(endpointPostfix := OrElse(o.argument, args.endpointPostfix))
    else if o.long == "--extended-discovery-file" then
      args.(extendedDiscoveryFile := if o.argument.Some? then o.argument else args.extendedDiscoveryFile)
    else if o.long == "--protocol-translator-name" then
      args.(protocolTranslatorName := if o.argument.Some? then o.argument else args.protocolTranslatorName)
    else args
  }

  predicate IsHelp(o: Opt) { o.long == "--help" }

  /** elems_to_args from row k of the table on; `help` asks it to stop at a set help option. */
  function ElemsToArgs(options: seq<Opt>, k: nat, args: Args, help: bool): Start
    requires k <= |options|
    decreases |options| - k
  {
    if k == |options| then Ready(args)
    else if help && options[k].value && IsHelp(options[k]) then ExitSuccess
    else ElemsToArgs(options, k + 1, Collect(options[k], args), help)
  }

  /** docopt; parsing starts at the program name. */
  function Docopt(argv: seq<string>, help: bool): Start {
    match Parse(argv, Table())
    case Parsed(options) => ElemsToArgs(options, 0, Defaults(), help)
    case Rejected(error) => ExitFailure(error)
  }

  // ---------- What a spelling assigns, without reference to the parser ----------

  predicate Flags(p: Piece, k: nat) {
    match p
    case LongFlag(j) => j == k
    case Cluster(flags) => k in flags
    case ClusterAttached(flags, _, _) => k in flags
    case ClusterSpaced(flags, _, _) => k in flags
    case _ => false
  }

  predicate Flagged(ps: seq<Piece>, k: nat) {
    exists i :: 0 <= i < |ps| && Flags(ps[i], k)
  }

  function Text(p: Piece, k: nat): Option<string> {
    match p
    case LongEquals(j, text) => if j == k then Some(text) else None
    case LongSpaced(j, text) => if j == k then Some(text) else None
    case ClusterAttached(_, j, text) => if j == k then Some(text) else None
    case ClusterSpaced(_, j, text) => if j == k then Some(text) else None
    case _ => None
  }

  /** The text of the last piece that gives option k one. */
  function LastText(ps: seq<Piece>, k: nat): Option<string> {
    if ps == [] then None
    else if Text(ps[|ps| - 1], k).Some? then Text(ps[|ps| - 1], k)
    else LastText(ps[..|ps| - 1], k)
  }

  /** The arguments a spelling stands for: each option as last written, the default where it was not. */
  function Expected(ps: seq<Piece>): Args {
    Args(Flagged(ps, CLEAR_CACHE), Flagged(ps, COLOR_LOG), Flagged(ps, HELP),
         OrElse(LastText(ps, ADDRESS), Defaults().address),
         OrElse(LastText(ps, BLUETOOTH_INTERFACE), Defaults().bluetoothInterface),
         OrElse(LastText(ps, EDGE_DOMAIN_SOCKET), Defaults().edgeDomainSocket),
         OrElse(LastText(ps, ENDPOINT_POSTFIX), Defaults().endpointPostfix),
         LastText(ps, EXTENDED_DISCOVERY_FILE),
         LastText(ps, PROTOCOL_TRANSLATOR_NAME))
  }

  // ---------- Last wins ----------

  lemma {:induction false} SetFlagsAt(options: seq<Opt>, flags: seq<nat>, k: nat)
    requires k < |options| && forall i :: 0 <= i < |flags| ==> flags[i] < |options|
    ensures SetFlags(options, flags)[k] == options[k].(value := options[k].value || k in flags)
    decreases |flags|
  {
    if flags != [] {
      SetFlagsAt(SetFlag(options, flags[0]), flags[1..], k);
      assert k in flags <==> k == flags[0] || k in flags[1..];
    }
  }

  lemma MeaningAt(options: seq<Opt>, p: Piece, k: nat)
    requires Spells(options, p) && k < |options|
    ensures Meaning(options, p)[k] == options[k].(
              value := options[k].value || Flags(p, k),
              argument := if Text(p, k).Some? then Text(p, k) else options[k].argument)
  {
    match p
    case Cluster(flags) => SetFlagsAt(options, flags, k);
    case ClusterAttached(flags, _, _) => SetFlagsAt(options, flags, k);
    case ClusterSpaced(flags, _, _) => SetFlagsAt(options, flags, k);
    case _ =>
  }

  lemma {:induction false} LastTextCons(p: Piece, ps: seq<Piece>, k: nat)
    ensures LastText([p] + ps, k) == if LastText(ps, k).Some? then LastText(ps, k) else Text(p, k)
  {
    if ps == [] {
      assert [p] + ps == [p] && [p][..0] == [];
    } else {
      var last := |ps| - 1;
      assert ([p] + ps)[..last + 1] == [p] + ps[..last];
      LastTextCons(p, ps[..last], k);
    }
  }

  /** Every row of the final table holds its last assignment, and what it held before if there was none. */
  lemma {:induction false} MeaningAllAt(options: seq<Opt>, ps: seq<Piece>, k: nat)
    requires AllSpell(options, ps) && k < |options|
    ensures MeaningAll(options, ps)[k] == options[k].(
              value := options[k].value || Flagged(ps, k),
              argument := if LastText(ps, k).Some? then LastText(ps, k) else options[k].argument)
    decreases |ps|
  {
    if ps != [] {
      var next := Meaning(options, ps[0]);
      MeaningAt(options, ps[0], k);
      SpellsSame(options, next, ps[1..]);
      MeaningAllAt(next, ps[1..], k);
      hide Spells;
      assert ps == [ps[0]] + ps[1..];
      LastTextCons(ps[0], ps[1..], k);
      FlaggedCons(ps, k);
    }
  }

  lemma FlaggedCons(ps: seq<Piece>, k: nat)
    requires ps != []
    ensures Flagged(ps, k) <==> Flags(ps[0], k) || Flagged(ps[1..], k)
  {
    if Flagged(ps[1..], k) {
      var i :| 0 <= i < |ps[1..]| && Flags(ps[1..][i], k);
      assert Flags(ps[i + 1], k);
    }
    if Flagged(ps, k) && !Flags(ps[0], k) {
      var i :| 0 <= i < |ps| && Flags(ps[i], k);
      assert Flags(ps[1..][i - 1], k);
    }
  }

  /** The third and fourth characters of a name already tell it from the others. */
  function Initials(k: nat): (char, char) {
    if k == 0 then ('c', 'l') else if k == 1 then ('c', 'o') else if k == 2 then ('h', 'e') else if k == 3 then ('a', 'd')
    else if k == 4 then ('b', 'l') else if k == 5 then ('e', 'd') else if k == 6 then ('e', 'n')
    else if k == 7 then ('e', 'x') else ('p', 'r')
  }

  predicate Named(k: nat, name: string) {
    |name| > 4 && name[0] == name[1] == '-' && (name[2], name[3]) == Initials(k)
  }

  lemma FirstRowsNamed(k: nat)
    requires k < 5
    ensures Named(k, Row(k).long)
  {
  }

  lemma LastRowsNamed(k: nat)
    requires 5 <= k < 9
    ensures Named(k, Row(k).long)
  {
  }

  lemma RowNamed(k: nat)
    requires k < 9
    ensures Named(k, Row(k).long)
  {
    hide Row, Named;
    if k < 5 { FirstRowsNamed(k); } else { LastRowsNamed(k); }
  }

  lemma FirstRowsHaveNoEquals(k: nat)
    requires k < 5
    ensures '=' !in Row(k).long
  {
    assert forall i :: 0 <= i < |Row(k).long| ==> Row(k).long[i] != '=';
  }

  lemma LastRowsHaveNoEquals(k: nat)
    requires 5 <= k < 9
    ensures '=' !in Row(k).long
  {
    hide Row;
    if k < 7 { MiddleRowsHaveNoEquals(k); } else { NameRowsHaveNoEquals(k); }
  }

  lemma MiddleRowsHaveNoEquals(k: nat)
    requires 5 <= k < 7
    ensures '=' !in Row(k).long
  {
    assert forall i :: 0 <= i < |Row(k).long| ==> Row(k).long[i] != '=';
  }

  lemma NameRowsHaveNoEquals(k: nat)
    requires 7 <= k < 9
    ensures '=' !in Row(k).long
  {
    assert forall i :: 0 <= i < |Row(k).long| ==> Row(k).long[i] != '=';
  }

  lemma RowPlain(k: nat)
    requires k < 9
    ensures Equals(Row(k).long) == |Row(k).long| && Row(k).short != Some('-')
  {
    assert Row(k).short != Some('-');
    if k < 5 { FirstRowsHaveNoEquals(k); } else { LastRowsHaveNoEquals(k); }
    hide Row;
    NoEquals(Row(k).long);
  }

  lemma RowsDiffer(i: nat, j: nat)
    requires i < 9 && j < 9 && i != j
    ensures !(Row(i).long <= Row(j).long)
    ensures Row(i).short.Some? ==> Row(i).short != Row(j).short
  {
    hide Equals;
    RowNamed(i);
    RowNamed(j);
  }

  lemma NoEquals(word: string)
    requires '=' !in word
    ensures Equals(word) == |word|
  {
  }

  lemma TableWellFormed()
    ensures WellFormed(Table())
  {
    hide Row, Equals;
    var t := Table();
    forall i | 0 <= i < |t|
      ensures LooksLong(t[i].long) && |t[i].long| > 2 && Equals(t[i].long) == |t[i].long| && t[i].short != Some('-')
    {
      RowNamed(i);
      RowPlain(i);
    }
    forall i, j | 0 <= i < |t| && 0 <= j < |t| && i != j
      ensures !(t[i].long <= t[j].long) && (t[i].short.Some? ==> t[i].short != t[j].short)
    {
      RowsDiffer(i, j);
    }
  }

  // ---------- The whole program line ----------

  /** What each row of the table contributes to the arguments. */
  function CollectRow(k: nat, o: Opt, args: Args): Args {
    if k == CLEAR_CACHE then args.(clearCache := o.value)
    else if k == COLOR_LOG then args.(colorLog := o.value)
    else if k == HELP then args.(help := o.value)
    else if k == ADDRESS then args.(address := OrElse(o.argument, args.address))
    else if k == BLUETOOTH_INTERFACE then args.(bluetoothInterface := OrElse(o.argument, args.bluetoothInterface))
    else if k == EDGE_DOMAIN_SOCKET then args.(edgeDomainSocket := OrElse(o.argument, args.edgeDomainSocket))
    else if k == ENDPOINT_POSTFIX then args.(endpointPostfix := OrElse(o.argument, args.endpointPostfix))
    else if k == EXTENDED_DISCOVERY_FILE then
      args.(extendedDiscoveryFile := if o.argument.Some? then o.argument else args.extendedDiscoveryFile)
    else args.(protocolTranslatorName := if o.argument.Some? then o.argument else args.protocolTranslatorName)
  }

  lemma CollectNamed(k: nat, o: Opt, args: Args)
    requires k < 9 && o.long == Row(k).long
    ensures Collect(o, args) == CollectRow(k, o, args)
    ensures IsHelp(o) <==> k == HELP
  {
    assert |o.long| == [13, 11, 6, 9, 21, 20, 18, 25, 26][k];
  }

  function CollectFrom(options: seq<Opt>, k: nat, args: Args): Args
    requires |options| == 9 && k <= 9
    decreases 9 - k
  {
    if k == 9 then args else CollectFrom(options, k + 1, CollectRow(k, options[k], args))
  }

  lemma {:induction false} ElemsFrom(options: seq<Opt>, k: nat, args: Args, help: bool)
    requires SameNames(Table(), options) && k <= 9
    ensures ElemsToArgs(options, k, args, help) ==
              if help && options[HELP].value && k <= HELP then ExitSuccess else Ready(CollectFrom(options, k, args))
    decreases 9 - k
  {
    hide Row, Collect, CollectRow, IsHelp;
    if k < 9 {
      assert options[k].long == Table()[k].long == Row(k).long;
      CollectNamed(k, options[k], args);
      ElemsFrom(options, k + 1, Collect(options[k], args), help);
    }
  }

  /** The arguments are the rows of the table, read by position. */
  lemma CollectAll(options: seq<Opt>)
    requires |options| == 9
    ensures CollectFrom(options, 0, Defaults()) ==
              Args(options[CLEAR_CACHE].value, options[COLOR_LOG].value, options[HELP].value,
                   OrElse(options[ADDRESS].argument, Defaults().address),
                   OrElse(options[BLUETOOTH_INTERFACE].argument, Defaults().bluetoothInterface),
                   OrElse(options[EDGE_DOMAIN_SOCKET].argument, Defaults().edgeDomainSocket),
                   OrElse(options[ENDPOINT_POSTFIX].argument, Defaults().endpointPostfix),
                   options[EXTENDED_DISCOVERY_FILE].argument,
                   options[PROTOCOL_TRANSLATOR_NAME].argument)
  {
    var a1 := CollectRow(0, options[0], Defaults());
    var a2 := CollectRow(1, options[1], a1);
    var a3 := CollectRow(2, options[2], a2);
    var a4 := CollectRow(3, options[3], a3);
    var a5 := CollectRow(4, options[4], a4);
    var a6 := CollectRow(5, options[5], a5);
    var a7 := CollectRow(6, options[6], a6);
    var a8 := CollectRow(7, options[7], a7);
    var a9 := CollectRow(8, options[8], a8);
    assert CollectFrom(options, 7, a7) == CollectFrom(options, 8, a8) == CollectFrom(options, 9, a9) == a9;
    assert CollectFrom(options, 4, a4) == CollectFrom(options, 5, a5) == CollectFrom(options, 6, a6) == CollectFrom(options, 7, a7);
    assert CollectFrom(options, 0, Defaults()) == CollectFrom(options, 1, a1) == CollectFrom(options, 2, a2)
        == CollectFrom(options, 3, a3) == CollectFrom(options, 4, a4);
  }

  /**
   * A command line that spells assignments in any mixture of forms yields each option as last written and
   * the default elsewhere; it shows the help and stops exactly when the help option is among them.
   */
  lemma DocoptReadsSpelling(program: string, ps: seq<Piece>, help: bool)
    requires AllSpell(Table(), ps) && (|program| < 2 || program[0] != '-')
    ensures Docopt([program] + RenderAll(Table(), ps), help) ==
              if help && Flagged(ps, HELP) then ExitSuccess else Ready(Expected(ps))
  {
    TableWellFormed();
    ParseRender(Table(), ps);
    hide Table;
    var argv := [program] + RenderAll(Table(), ps);
    assert argv[1..] == RenderAll(Table(), ps);
    assert Parse(argv, Table()) == Parsed(MeaningAll(Table(), ps));
    RowsHold(ps);
    ElemsFrom(MeaningAll(Table(), ps), 0, Defaults(), help);
    CollectAll(MeaningAll(Table(), ps));
  }

  /** Every row of the table after parsing. */
  lemma RowsHold(ps: seq<Piece>)
    requires AllSpell(Table(), ps)
    ensures |Table()| == 9
    ensures var t := MeaningAll(Table(), ps);
            forall k :: 0 <= k < 9 ==> t[k].value == Flagged(ps, k) && t[k].argument == LastText(ps, k)
  {
    var t := MeaningAll(Table(), ps);
    forall k | 0 <= k < 9 ensures t[k].value == Flagged(ps, k) && t[k].argument == LastText(ps, k) {
      MeaningAllAt(Table(), ps, k);
      assert !Table()[k].value && Table()[k].argument == None;
    }
  }
}
