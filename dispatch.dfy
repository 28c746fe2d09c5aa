/** The per-line decision of the dispatch loop (`MudServer::listen`,
    src/server/mod.rs): skip an empty line, otherwise tokenize it, look up
    the lowercased first token, and either invoke the first matching verb
    with a full context or tell the client the command is unknown. Also what
    a whole run of the loop invokes and sends. */
module Dispatch {
  import opened Wrappers
  import opened Text
  import opened Utf8
  import opened Clients
  import opened Hooks
  import opened Verb

  /** The notice sent back for a line whose verb is not in the table. */
  const UnknownCommand: string := "Unknown command."

  /** What the loop does with one line. */
  datatype Decision = Skip | Unknown | Invoke(call: Invocation)

  /** Looking a name up lowercased finds the same entry as looking it up as
      typed. */
  lemma {:induction false} FirstMatchIgnoresCase(verbs: seq<VerbInfo>, name: string)
    ensures FirstMatch(verbs, Lower(name)) == FirstMatch(verbs, name)
  {
    if verbs != [] {
      MatchIgnoresCase(verbs[0], name);
      FirstMatchIgnoresCase(verbs[1..], name);
    }
  }

  /** What the loop does with one line from `input.client`, given the
      tables and the registry as they are when the line is handled: an empty
      line is skipped; otherwise the first matching entry for the line's
      first token, ignoring case, is invoked with a context carrying the
      client, the full token list and the registry; if no entry matches,
      the line is an unknown command. */
  function DispatchLine(verbs: seq<VerbInfo>, hooks: seq<HookInfo>, registry: seq<Client>, input: ClientInput): Decision
    requires Trimmed(input.raw)
  {
    if input.raw == [] then Skip
    else
      TrimmedLineHasToken(input.raw);
      var tokens := SplitWhitespace(input.raw);
      match FirstMatch(verbs, tokens[0])
      case None => Unknown
      case Some(i) => Invoke(Invocation(i, verbs[i].handler, VerbContext(Some(input.client), Some(tokens), verbs, hooks, Some(registry))))
  }

  /** The name `listen` looks up, the first token lowercased and trimmed,
      finds the same entry as the token itself. */
  lemma NameOfToken(verbs: seq<VerbInfo>, token: string)
    requires NoWhitespace(token)
    ensures FirstMatch(verbs, Trim(Lower(token))) == FirstMatch(verbs, token)
  {
    TrimLowerToken(token);
    FirstMatchIgnoresCase(verbs, token);
  }

  predicate AllTrimmed(inputs: seq<ClientInput>)
  {
    forall i :: 0 <= i < |inputs| ==> Trimmed(inputs[i].raw)
  }

  /** The handler invocations a run of the loop over `inputs` makes, in order. */
  function CallsOf(verbs: seq<VerbInfo>, hooks: seq<HookInfo>, registry: seq<Client>, inputs: seq<ClientInput>): seq<Invocation>
    requires AllTrimmed(inputs)
  {
    if inputs == [] then []
    else
      var rest := CallsOf(verbs, hooks, registry, inputs[..|inputs| - 1]);
      match DispatchLine(verbs, hooks, registry, inputs[|inputs| - 1])
      case Invoke(c) => rest + [c]
      case _ => rest
  }

  /** The payloads a run of the loop over `inputs` enqueues on channel `ch`,
      in order. */
  function RepliesTo(ch: Channel, verbs: seq<VerbInfo>, hooks: seq<HookInfo>, registry: seq<Client>, inputs: seq<ClientInput>): seq<seq<byte>>
    requires AllTrimmed(inputs)
  {
    if inputs == [] then []
    else
      RepliesTo(ch, verbs, hooks, registry, inputs[..|inputs| - 1])
      + NoticeFor(ch, verbs, hooks, registry, inputs[|inputs| - 1])
  }

  /** What handling one line enqueues on channel `ch`: the unknown-command
      notice when the line is an unknown command from that channel's client,
      nothing otherwise. */
  function NoticeFor(ch: Channel, verbs: seq<VerbInfo>, hooks: seq<HookInfo>, registry: seq<Client>, input: ClientInput): seq<seq<byte>>
    requires Trimmed(input.raw)
  {
    if DispatchLine(verbs, hooks, registry, input).Unknown? && input.client.channel == ch
    then [Encode(UnknownCommand)]
    else []
  }

  /** The loop never echoes: everything it sends is the unknown-command notice. */
  lemma {:induction false} OnlyNoticesAreSent(ch: Channel, verbs: seq<VerbInfo>, hooks: seq<HookInfo>, registry: seq<Client>, inputs: seq<ClientInput>)
    requires AllTrimmed(inputs)
    ensures forall k :: 0 <= k < |RepliesTo(ch, verbs, hooks, registry, inputs)| ==>
              RepliesTo(ch, verbs, hooks, registry, inputs)[k] == Encode(UnknownCommand)
  {
    if inputs != [] {
      OnlyNoticesAreSent(ch, verbs, hooks, registry, inputs[..|inputs| - 1]);
    }
  }

  /** Empty lines invoke nothing and send nothing. */
  lemma {:induction false} EmptyLinesDoNothing(ch: Channel, verbs: seq<VerbInfo>, hooks: seq<HookInfo>, registry: seq<Client>, inputs: seq<ClientInput>)
    requires forall i :: 0 <= i < |inputs| ==> inputs[i].raw == []
    ensures CallsOf(verbs, hooks, registry, inputs) == []
    ensures RepliesTo(ch, verbs, hooks, registry, inputs) == []
  {
    if inputs != [] {
      EmptyLinesDoNothing(ch, verbs, hooks, registry, inputs[..|inputs| - 1]);
    }
  }

  /** When every line names a registered verb, each line makes exactly one
      invocation, in line order, and the context of the i-th invocation
      carries the client the i-th line came from. */
  lemma {:induction false} KnownLinesAllInvoked(verbs: seq<VerbInfo>, hooks: seq<HookInfo>, registry: seq<Client>, inputs: seq<ClientInput>)
    requires AllTrimmed(inputs)
    requires forall i :: 0 <= i < |inputs| ==> DispatchLine(verbs, hooks, registry, inputs[i]).Invoke?
    ensures |CallsOf(verbs, hooks, registry, inputs)| == |inputs|
    ensures forall i :: 0 <= i < |inputs| ==>
              CallsOf(verbs, hooks, registry, inputs)[i] == DispatchLine(verbs, hooks, registry, inputs[i]).call
              && CallsOf(verbs, hooks, registry, inputs)[i].ctx.client == Some(inputs[i].client)
  {
    if inputs != [] {
      var n := |inputs| - 1;
      var init := inputs[..n];
      KnownLinesAllInvoked(verbs, hooks, registry, init);
      var d := DispatchLine(verbs, hooks, registry, inputs[n]);
      var calls := CallsOf(verbs, hooks, registry, inputs);
      assert calls == CallsOf(verbs, hooks, registry, init) + [d.call];
      forall i | 0 <= i < |inputs|
        ensures calls[i] == DispatchLine(verbs, hooks, registry, inputs[i]).call
      {
        if i < n {
          assert init[i] == inputs[i];
        }
      }
    }
  }

  /** A line whose verb is unknown gets exactly one notice, on its own
      client's channel, and invokes nothing. */
  lemma UnknownLineGetsOneNotice(verbs: seq<VerbInfo>, hooks: seq<HookInfo>, registry: seq<Client>, input: ClientInput)
    requires Trimmed(input.raw) && input.raw != []
    requires forall j :: 0 <= j < |verbs| ==> !Matches(verbs[j], SplitWhitespace(input.raw)[0])
    ensures CallsOf(verbs, hooks, registry, [input]) == []
    ensures RepliesTo(input.client.channel, verbs, hooks, registry, [input]) == [Encode(UnknownCommand)]
  {
    FirstMatchIsFirst(verbs, SplitWhitespace(input.raw)[0]);
    assert [input][..0] == [];
  }

  /** Against an empty verb table, any non-empty line is an unknown command. */
  lemma EmptyTableUnknown(hooks: seq<HookInfo>, registry: seq<Client>, input: ClientInput)
    requires Trimmed(input.raw) && input.raw != []
    ensures DispatchLine([], hooks, registry, input) == Unknown
  {
  }

  /** "GO up" splits into its two words. */
  lemma GoUpTokens()
    ensures SplitWhitespace("GO up") == ["GO", "up"]
  {
    LetterNotWhitespace('G');
    LetterNotWhitespace('O');
    LetterNotWhitespace('u');
    LetterNotWhitespace('p');
    assert Word(" up") == [];
    assert Word("O up") == "O";
    assert Word("GO up") == "GO";
    assert Word("p") == "p";
    assert Word("up") == "up";
    assert SplitWhitespace("up") == ["up"];
    assert SplitWhitespace(" up") == ["up"];
    assert "GO up"[2..] == " up";
  }

  /** First registered wins: with `go`/`move` registered before a second
      `go`, the line "GO up" invokes the first entry, with both tokens as
      its input. */
  lemma FirstRegisteredWins(hooks: seq<HookInfo>, registry: seq<Client>, c: Client)
    ensures Trimmed("GO up")
    ensures var verbs := [VerbInfo(["go", "move"], 1), VerbInfo(["go"], 2)];
      var d := DispatchLine(verbs, hooks, registry, ClientInput(c, "GO up"));
      d.Invoke? && d.call.entry == 0 && d.call.handler == 1 && d.call.ctx.input == Some(["GO", "up"])
  {
    var verbs := [VerbInfo(["go", "move"], 1), VerbInfo(["go"], 2)];
    GoUpTokens();
    LetterNotWhitespace('G');
    LetterNotWhitespace('p');
    assert Lower("go") == "go";
    assert Lower("GO") == "go";
    assert Matches(verbs[0], "GO");
    assert FirstMatch(verbs, "GO") == Some(0);
  }
}
