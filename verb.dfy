/** The verb table and the invocation context (src/verb.rs): alias
    matching, first-match lookup, the context builder and its accessors, and
    nested dispatch with `run_verb`. */
module Verb {
  import opened Wrappers
  import opened Errors
  import opened Text
  import opened Clients
  import opened Handlers
  import opened Hooks

  /** A registered verb: its aliases and its handler. */
  datatype VerbInfo = VerbInfo(aliases: seq<string>, handler: HandlerId)

  /** Some alias of the entry equals `verb`, ignoring case. */
  predicate Matches(info: VerbInfo, verb: string)
  {
    exists a :: a in info.aliases && Lower(a) == Lower(verb)
  }

  /** `VerbInfo::is_match`: lowercases `verb` once, then compares it with
      each alias lowercased, returning at the first equal one. */
  method IsMatch(info: VerbInfo, verb: string) returns (b: bool)
    ensures b <==> Matches(info, verb)
  {
    var v := Lower(verb);
    for i := 0 to |info.aliases|
      invariant forall j :: 0 <= j < i ==> Lower(info.aliases[j]) != v
    {
      if v == Lower(info.aliases[i]) {
        return true;
      }
    }
    return false;
  }

  /** An entry without aliases matches nothing. */
  lemma NoAliasNoMatch(info: VerbInfo, verb: string)
    requires info.aliases == []
    ensures !Matches(info, verb)
  {
  }

  /** Matching does not depend on the case of the name: lowercasing it
      first changes nothing. */
  lemma MatchIgnoresCase(info: VerbInfo, verb: string)
    ensures Matches(info, Lower(verb)) <==> Matches(info, verb)
  {
    LowerIdempotent(verb);
  }

  /** The position of the first entry, in table order, that matches `name`. */
  function FirstMatch(verbs: seq<VerbInfo>, name: string): (r: Option<nat>)
    ensures r.Some? ==> r.value < |verbs|
  {
    if verbs == [] then None
    else if Matches(verbs[0], name) then Some(0)
    else match FirstMatch(verbs[1..], name)
      case None => None
      case Some(i) => Some(i + 1)
  }

  /** The entry found matches and no earlier entry does; a miss means that
      no entry matches. */
  lemma {:induction false} FirstMatchIsFirst(verbs: seq<VerbInfo>, name: string)
    ensures var r := FirstMatch(verbs, name);
      (r.Some? ==> Matches(verbs[r.value], name) && forall j :: 0 <= j < r.value ==> !Matches(verbs[j], name))
      && (r.None? ==> forall j :: 0 <= j < |verbs| ==> !Matches(verbs[j], name))
  {
    if verbs != [] && !Matches(verbs[0], name) {
      FirstMatchIsFirst(verbs[1..], name);
      forall j | 0 < j < |verbs| ensures verbs[j] == verbs[1..][j - 1] {
      }
    }
  }

  /** `verbs.iter().find(|v| v.is_match(name))`, as a position. */
  method Find(verbs: seq<VerbInfo>, name: string) returns (r: Option<nat>)
    ensures r == FirstMatch(verbs, name)
  {
    for i := 0 to |verbs|
      invariant forall j :: 0 <= j < i ==> !Matches(verbs[j], name)
    {
      var m := IsMatch(verbs[i], name);
      if m {
        FirstMatchAt(verbs, name, i);
        return Some(i);
      }
    }
    FirstMatchIsFirst(verbs, name);
    return None;
  }

  /** The first match is determined by where it is: an entry that matches
      with no match before it is the one found. */
  lemma {:induction false} FirstMatchAt(verbs: seq<VerbInfo>, name: string, i: nat)
    requires i < |verbs| && Matches(verbs[i], name)
    requires forall j :: 0 <= j < i ==> !Matches(verbs[j], name)
    ensures FirstMatch(verbs, name) == Some(i)
  {
    if i > 0 {
      assert !Matches(verbs[0], name);
      FirstMatchAt(verbs[1..], name, i - 1);
    }
  }

  /** Appending entries does not change an existing first match. */
  lemma FirstMatchAppendKeeps(verbs: seq<VerbInfo>, more: seq<VerbInfo>, name: string)
    requires FirstMatch(verbs, name).Some?
    ensures FirstMatch(verbs + more, name) == FirstMatch(verbs, name)
  {
    var all := verbs + more;
    FirstMatchIsFirst(verbs, name);
    var i := FirstMatch(verbs, name).value;
    forall j | 0 <= j < i ensures !Matches(all[j], name) {
      assert all[j] == verbs[j];
    }
    assert all[i] == verbs[i];
    FirstMatchAt(all, name, i);
  }

  /** Without a match among the earlier entries, the first match is the
      first one among the appended entries, shifted past the earlier ones. */
  lemma FirstMatchAppendLater(verbs: seq<VerbInfo>, more: seq<VerbInfo>, name: string)
    requires FirstMatch(verbs, name).None? && FirstMatch(more, name).Some?
    ensures FirstMatch(verbs + more, name) == Some(|verbs| + FirstMatch(more, name).value)
  {
    var all := verbs + more;
    FirstMatchIsFirst(verbs, name);
    FirstMatchIsFirst(more, name);
    var i := FirstMatch(more, name).value;
    var k := |verbs| + i;
    forall j | 0 <= j < k ensures !Matches(all[j], name) {
      if j < |verbs| {
        assert all[j] == verbs[j];
      } else {
        assert all[j] == more[j - |verbs|];
      }
    }
    assert all[k] == more[i];
    FirstMatchAt(all, name, k);
  }

  // ------------------------------------------------------------------ context

  /** The capability bundle a handler receives. `verbs` and `hooks` are the
      tables, `clients` the live-client registry when present. */
  datatype VerbContext = VerbContext(
    client: Option<Client>,
    input: Option<seq<string>>,
    verbs: seq<VerbInfo>,
    hooks: seq<HookInfo>,
    clients: Option<seq<Client>>)

  /** One handler invocation: the table position of the entry, its handler,
      and the context it was given. */
  datatype Invocation = Invocation(entry: nat, handler: HandlerId, ctx: VerbContext)

  /** `VerbContext::client`. */
  function ClientOf(ctx: VerbContext): (r: Result<Client, MudError>)
    ensures r.Ok? <==> ctx.client.Some?
    ensures r.Ok? ==> r.value == ctx.client.value
    ensures r.Err? ==> r.error == VerbNoClient
  {
    if ctx.client.Some? then Ok(ctx.client.value) else Err(VerbNoClient)
  }

  /** `VerbContext::clients`. */
  function ClientsOf(ctx: VerbContext): (r: Result<seq<Client>, MudError>)
    ensures r.Ok? <==> ctx.clients.Some?
    ensures r.Ok? ==> r.value == ctx.clients.value
    ensures r.Err? ==> r.error == VerbnoClients
  {
    if ctx.clients.Some? then Ok(ctx.clients.value) else Err(VerbnoClients)
  }

  /** `VerbContextBuilder`: the three optional payload fields of a context. */
  datatype VerbContextBuilder = VerbContextBuilder(
    client: Option<Client>,
    input: Option<seq<string>>,
    clients: Option<seq<Client>>)

  /** `VerbContextBuilder::new`: every field unset. */
  function NewBuilder(): (b: VerbContextBuilder)
    ensures b.client.None? && b.input.None? && b.clients.None?
  {
    VerbContextBuilder(None, None, None)
  }

  /** `.clients(cs)`: sets the registry and keeps the other fields. */
  function WithClients(b: VerbContextBuilder, cs: seq<Client>): (r: VerbContextBuilder)
    ensures r.clients == Some(cs) && r.client == b.client && r.input == b.input
  {
    b.(clients := Some(cs))
  }

  /** `.client(c)`: sets the client and keeps the other fields. */
  function WithClient(b: VerbContextBuilder, c: Client): (r: VerbContextBuilder)
    ensures r.client == Some(c) && r.input == b.input && r.clients == b.clients
  {
    b.(client := Some(c))
  }

  /** `.input(args)`: sets the tokenized input and keeps the other fields. */
  function WithInput(b: VerbContextBuilder, args: seq<string>): (r: VerbContextBuilder)
    ensures r.input == Some(args) && r.client == b.client && r.clients == b.clients
  {
    b.(input := Some(args))
  }

  /** `.build(verbs, hooks)`: a context with the builder's payload fields
      copied unchanged and the given tables. */
  function Build(b: VerbContextBuilder, verbs: seq<VerbInfo>, hooks: seq<HookInfo>): (ctx: VerbContext)
    ensures ctx.client == b.client && ctx.input == b.input && ctx.clients == b.clients
    ensures ctx.verbs == verbs && ctx.hooks == hooks
  {
    VerbContext(b.client, b.input, verbs, hooks, b.clients)
  }

  /** Setters of different fields commute, and a later call to a setter
      overrides an earlier one. */
  lemma SettersCommute(b: VerbContextBuilder, c: Client, c': Client, args: seq<string>, cs: seq<Client>)
    ensures WithClient(WithInput(b, args), c) == WithInput(WithClient(b, c), args)
    ensures WithClient(WithClients(b, cs), c) == WithClients(WithClient(b, c), cs)
    ensures WithInput(WithClients(b, cs), args) == WithClients(WithInput(b, args), cs)
    ensures WithClient(WithClient(b, c), c') == WithClient(b, c')
  {
  }

  /** What the accessors see in a built context is exactly what the builder
      was given: the set client, or `VerbNoClient`; the set registry, or
      `VerbnoClients`. */
  lemma AccessorsSeeBuilder(b: VerbContextBuilder, verbs: seq<VerbInfo>, hooks: seq<HookInfo>, c: Client, cs: seq<Client>)
    ensures ClientOf(Build(WithClient(b, c), verbs, hooks)) == Ok(c)
    ensures ClientsOf(Build(WithClients(b, cs), verbs, hooks)) == Ok(cs)
    ensures ClientOf(Build(NewBuilder(), verbs, hooks)) == Err(VerbNoClient)
    ensures ClientsOf(Build(NewBuilder(), verbs, hooks)) == Err(VerbnoClients)
  {
  }

  // ---------------------------------------------------------- nested dispatch

  /** `VerbContext::run_verb`: finds the first entry of the context's verb
      table that matches `name` and invokes it with a fresh context that
      carries the caller's client and nothing else (no input, no registry).
      A miss invokes nothing and reports `VerbNotFound`; a hit returns the
      handler's result, success or error, unchanged. The source unwraps the
      caller's client after a hit, so a context without a client must not
      reach a matching verb. */
  method RunVerb(ctx: VerbContext, name: string, outcome: (HandlerId, VerbContext) -> VerbOutput)
    returns (res: VerbOutput, call: Option<Invocation>)
    requires ctx.client.Some? || FirstMatch(ctx.verbs, name).None?
    ensures FirstMatch(ctx.verbs, name).None? ==> res == Err(VerbNotFound) && call.None?
    ensures FirstMatch(ctx.verbs, name).Some? ==>
      var i := FirstMatch(ctx.verbs, name).value;
      call.Some? && call.value.entry == i && call.value.handler == ctx.verbs[i].handler
      && call.value.ctx.client == ctx.client && call.value.ctx.input.None? && call.value.ctx.clients.None?
      && call.value.ctx.verbs == ctx.verbs && call.value.ctx.hooks == ctx.hooks
      && res == outcome(call.value.handler, call.value.ctx)
  {
    var found := Find(ctx.verbs, name);
    if found.None? {
      return Err(VerbNotFound), None;
    }
    var i := found.value;
    var sub := Build(WithClient(NewBuilder(), ctx.client.value), ctx.verbs, ctx.hooks);
    var handler := ctx.verbs[i].handler;
    res := outcome(handler, sub);
    call := Some(Invocation(i, handler, sub));
  }
}
