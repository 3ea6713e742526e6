/** The options by their names and letters, and the field each one sets. */
module BleOptionNames {
  import opened Optional
  import opened CommandLine
  import opened BleOptions

  /** The arguments of an empty command line. */
  function Base(): Args {
    Args(clearCache := false, colorLog := false, help := false,
         address := "unix:path=/var/run/dbus/system_bus_socket", bluetoothInterface := "hci0",
         edgeDomainSocket := "/tmp/edge.sock", endpointPostfix := "-0",
         extendedDiscoveryFile := None, protocolTranslatorName := None)
  }

  lemma OneRendered(p: Piece)
    requires Spells(Table(), p)
    ensures AllSpell(Table(), [p]) && RenderAll(Table(), [p]) == Render(Table(), p)
  {
    hide Spells, Render, Table;
    assert [p][1..] == [];
    assert Render(Table(), p) + [] == Render(Table(), p);
  }

  lemma OneFlagged(p: Piece, k: nat)
    ensures Flagged([p], k) == Flags(p, k) && LastText([p], k) == Text(p, k)
  {
    if Flags(p, k) { assert Flags([p][0], k); }
    assert [p][..0] == [];
  }

  /** A command line of one piece sets what the piece says and leaves every other argument at its default. */
  lemma OnePiece(program: string, p: Piece, help: bool)
    requires (|program| < 2 || program[0] != '-') && Spells(Table(), p)
    ensures Docopt([program] + Render(Table(), p), help) ==
              if help && Flags(p, HELP) then ExitSuccess
              else Ready(Args(Flags(p, CLEAR_CACHE), Flags(p, COLOR_LOG), Flags(p, HELP),
                              OrElse(Text(p, ADDRESS), Base().address), OrElse(Text(p, BLUETOOTH_INTERFACE), Base().bluetoothInterface),
                              OrElse(Text(p, EDGE_DOMAIN_SOCKET), Base().edgeDomainSocket),
                              OrElse(Text(p, ENDPOINT_POSTFIX), Base().endpointPostfix),
                              Text(p, EXTENDED_DISCOVERY_FILE), Text(p, PROTOCOL_TRANSLATOR_NAME)))
  {
    OneRendered(p);
    hide Spells, Render, Table, Docopt, Flags, Text, Flagged, LastText, RenderAll;
    DocoptReadsSpelling(program, [p], help);
    forall k: nat ensures Flagged([p], k) == Flags(p, k) && LastText([p], k) == Text(p, k) { OneFlagged(p, k); }
  }

  /** The words of an option with a text, in its long form and, where it has a letter, in its short one. */
  lemma TextWords(k: nat, text: string)
    requires 3 <= k < 9
    ensures Spells(Table(), LongSpaced(k, text)) && Render(Table(), LongSpaced(k, text)) == [Row(k).long, text]
    ensures Row(k).short.Some? ==>
      Spells(Table(), ClusterSpaced([], k, text)) && Render(Table(), ClusterSpaced([], k, text)) == [['-', Row(k).short.value], text]
  {
    hide Row;
    assert Table()[k] == Row(k);
    assert Row(k).takesArgument by { TakesText(k); }
    if Row(k).short.Some? {
      assert Letters(Table(), []) == [];
      assert "-" + [] + [Row(k).short.value] == ['-', Row(k).short.value];
    }
  }

  lemma TakesText(k: nat)
    requires k < 9
    ensures Row(k).takesArgument <==> k >= 3
  {
  }

  lemma FlagWords(k: nat)
    requires k < 3
    ensures Spells(Table(), LongFlag(k)) && Render(Table(), LongFlag(k)) == [Row(k).long]
    ensures Row(k).short.Some? ==>
      Spells(Table(), Cluster([k])) && Render(Table(), Cluster([k])) == [['-', Row(k).short.value]]
  {
    hide Row;
    assert Table()[k] == Row(k);
    assert !Row(k).takesArgument by { TakesText(k); }
    if Row(k).short.Some? {
      assert [k][1..] == [] && Letters(Table(), []) == [];
      assert Letters(Table(), [k]) == [Row(k).short.value];
      assert "-" + [Row(k).short.value] == ['-', Row(k).short.value];
    }
  }

  /** Two words that spell one option with a text. */
  lemma TextSets(program: string, k: nat, text: string, help: bool, word: string)
    requires (|program| < 2 || program[0] != '-') && 3 <= k < 9
    requires word == Row(k).long || (Row(k).short.Some? && word == ['-', Row(k).short.value])
    ensures Docopt([program, word, text], help) ==
              Ready(Args(false, false, false,
                         if k == 3 then text else Base().address, if k == 4 then text else Base().bluetoothInterface,
                         if k == 5 then text else Base().edgeDomainSocket, if k == 6 then text else Base().endpointPostfix,
                         if k == 7 then Some(text) else None, if k == 8 then Some(text) else None))
  {
    hide Docopt, Render, Spells, Row;
    TextWords(k, text);
    var p := if word == Row(k).long then LongSpaced(k, text) else ClusterSpaced([], k, text);
    assert [program] + [word, text] == [program, word, text];
    OnePiece(program, p, help);
  }

  lemma FlagSets(program: string, k: nat, help: bool, word: string)
    requires (|program| < 2 || program[0] != '-') && k < 3
    requires word == Row(k).long || (Row(k).short.Some? && word == ['-', Row(k).short.value])
    ensures Docopt([program, word], help) ==
              if help && k == 2 then ExitSuccess
              else Ready(Base().(clearCache := k == 0, colorLog := k == 1, help := k == 2))
  {
    hide Docopt, Render, Spells, Row;
    FlagWords(k);
    var p := if word == Row(k).long then LongFlag(k) else Cluster([k]);
    assert [program] + [word] == [program, word];
    OnePiece(program, p, help);
  }

  /** Each name and each letter sets the field it stands for, whatever the text, and nothing else. */
  lemma NamesSetFields(program: string, text: string, help: bool)
    requires |program| < 2 || program[0] != '-'
    ensures Docopt([program, "--address", text], help) == Docopt([program, "-a", text], help) == Ready(Base().(address := text))
    ensures Docopt([program, "--bluetooth-interface", text], help) == Docopt([program, "-b", text], help)
              == Ready(Base().(bluetoothInterface := text))
    ensures Docopt([program, "--edge-domain-socket", text], help) == Ready(Base().(edgeDomainSocket := text))
    ensures Docopt([program, "--endpoint-postfix", text], help) == Docopt([program, "-e", text], help)
              == Ready(Base().(endpointPostfix := text))
    ensures Docopt([program, "--extended-discovery-file", text], help) == Docopt([program, "-d", text], help)
              == Ready(Base().(extendedDiscoveryFile := Some(text)))
    ensures Docopt([program, "--protocol-translator-name", text], help) == Docopt([program, "-n", text], help)
              == Ready(Base().(protocolTranslatorName := Some(text)))
  {
    hide Docopt;
    TextSets(program, 3, text, help, "--address");
    TextSets(program, 3, text, help, "-a");
    TextSets(program, 4, text, help, "--bluetooth-interface");
    TextSets(program, 4, text, help, "-b");
    TextSets(program, 5, text, help, "--edge-domain-socket");
    TextSets(program, 6, text, help, "--endpoint-postfix");
    TextSets(program, 6, text, help, "-e");
    TextSets(program, 7, text, help, "--extended-discovery-file");
    TextSets(program, 7, text, help, "-d");
    TextSets(program, 8, text, help, "--protocol-translator-name");
    TextSets(program, 8, text, help, "-n");
  }

  /** The same for the options without a text; asked to, the help option stops the program. */
  lemma NamesSetFlags(program: string, help: bool)
    requires |program| < 2 || program[0] != '-'
    ensures Docopt([program, "--clear-cache"], help) == Docopt([program, "-c"], help) == Ready(Base().(clearCache := true))
    ensures Docopt([program, "--color-log"], help) == Ready(Base().(colorLog := true))
    ensures Docopt([program, "--help"], help) == Docopt([program, "-h"], help)
              == if help then ExitSuccess else Ready(Base().(help := true))
  {
    hide Docopt;
    FlagSets(program, 0, help, "--clear-cache");
    FlagSets(program, 0, help, "-c");
    FlagSets(program, 1, help, "--color-log");
    FlagSets(program, 2, help, "--help");
    FlagSets(program, 2, help, "-h");
  }
}
