/** The server (src/server/mod.rs, src/server/hooks.rs,
    src/server/connections.rs): its tables and registry, registration, the
    hook batch, the dispatch loop and the connection-event consumer. The
    channels the loops read from are given as the sequence of items they
    receive; a handler's result is given by `outcome`. */
module Server {
  import opened Wrappers
  import opened Errors
  import opened Text
  import opened Clients
  import opened Handlers
  import opened Hooks
  import opened Verb
  import opened Dispatch
  import opened Connections

  /** The sending end of the connection-event channel, which `setup` creates. */
  datatype EventSender = EventSender

  /** What one hook batch did: its result and the invocations it made. */
  datatype HookRun = HookRun(result: VerbOutput, calls: seq<Invocation>)

  /** The invocations of the entries at positions `idx`, in that order, each
      with context `ctx`. */
  function InvocationsOf(hooks: seq<HookInfo>, idx: seq<nat>, ctx: VerbContext): (r: seq<Invocation>)
    requires forall j :: 0 <= j < |idx| ==> idx[j] < |hooks|
    ensures |r| == |idx|
  {
    if idx == [] then []
    else InvocationsOf(hooks, idx[..|idx| - 1], ctx) + [Invocation(idx[|idx| - 1], hooks[idx[|idx| - 1]].handler, ctx)]
  }

  /** The `j`-th invocation is of entry `idx[j]`, with its handler and `ctx`. */
  lemma {:induction false} InvocationsAt(hooks: seq<HookInfo>, idx: seq<nat>, ctx: VerbContext)
    requires forall j :: 0 <= j < |idx| ==> idx[j] < |hooks|
    ensures forall j :: 0 <= j < |idx| ==>
      InvocationsOf(hooks, idx, ctx)[j] == Invocation(idx[j], hooks[idx[j]].handler, ctx)
  {
    if idx != [] {
      InvocationsAt(hooks, idx[..|idx| - 1], ctx);
    }
  }

  /** The invocations one hook batch makes. */
  function BatchCalls(hooks: seq<HookInfo>, kind: Hook, ctx: VerbContext, outcome: (HandlerId, VerbContext) -> VerbOutput): seq<Invocation>
  {
    InvocationsOf(hooks, BatchInvoked(hooks, kind, ctx, outcome), ctx)
  }

  /** The context every hook of a connection event receives: the event's
      client and the registry as it is before the event is applied. */
  function EventContext(verbs: seq<VerbInfo>, hooks: seq<HookInfo>, registry: seq<Client>, u: ConnectionUpdate): (ctx: VerbContext)
    ensures ctx.client == Some(u.client) && ctx.input.None? && ctx.clients == Some(registry)
    ensures ctx.verbs == verbs && ctx.hooks == hooks
  {
    Build(WithClients(WithClient(NewBuilder(), u.client), registry), verbs, hooks)
  }

  /** The hook batch a connection event runs, against `registry`. */
  function EventRun(verbs: seq<VerbInfo>, hooks: seq<HookInfo>, registry: seq<Client>, u: ConnectionUpdate,
                    outcome: (HandlerId, VerbContext) -> VerbOutput): HookRun
  {
    var ctx := EventContext(verbs, hooks, registry, u);
    HookRun(BatchResult(hooks, KindOf(u.status), ctx, outcome), BatchCalls(hooks, KindOf(u.status), ctx, outcome))
  }

  /** `EventRun` for fixed tables and handler results, as a function of the
      registry and the event. */
  function EventRunner(verbs: seq<VerbInfo>, hooks: seq<HookInfo>, outcome: (HandlerId, VerbContext) -> VerbOutput)
    : (seq<Client>, ConnectionUpdate) -> HookRun
  {
    (registry: seq<Client>, u: ConnectionUpdate) => EventRun(verbs, hooks, registry, u, outcome)
  }

  /** The batches the consumer runs for `updates`, one per event, in order,
      each computed by `run` against the registry as the earlier events left
      it. */
  function Runs(reg: seq<Client>, updates: seq<ConnectionUpdate>, run: (seq<Client>, ConnectionUpdate) -> HookRun)
    : (r: seq<HookRun>)
    ensures |r| == |updates|
  {
    if updates == [] then []
    else
      var n := |updates| - 1;
      Runs(reg, updates[..n], run) + [run(Registry(reg, updates[..n]), updates[n])]
  }

  /** The `i`-th run is event `i`'s batch against the registry after the
      first `i` events. */
  lemma {:induction false} RunsAt(reg: seq<Client>, updates: seq<ConnectionUpdate>,
                                  run: (seq<Client>, ConnectionUpdate) -> HookRun, i: nat)
    requires i < |updates|
    ensures Runs(reg, updates, run)[i] == run(Registry(reg, updates[..i]), updates[i])
  {
    var n := |updates| - 1;
    var prefix := updates[..n];
    assert Runs(reg, updates, run) ==
      Runs(reg, prefix, run) + [run(Registry(reg, prefix), updates[n])];
    if i < n {
      RunsAt(reg, prefix, run, i);
      PrefixOfPrefix(updates, n, i);
    }
  }

  lemma PrefixOfPrefix<T>(s: seq<T>, n: nat, i: nat)
    requires i < n <= |s|
    ensures s[..n][..i] == s[..i] && s[..n][i] == s[i]
  {
  }

  /** The channels of the clients that sent `inputs`. */
  function ChannelsOf(inputs: seq<ClientInput>): set<Channel>
  {
    set i | 0 <= i < |inputs| :: inputs[i].client.channel
  }

  class MudServer {
    var name: string
    var host: string
    var clients: seq<Client>
    var verbs: seq<VerbInfo>
    var hooks: seq<HookInfo>
    var connections: Option<EventSender>

    /** `MudServer::new`: the given name and host, empty registry and
        tables, no event channel yet. */
    constructor (name: string, host: string)
      ensures this.name == name && this.host == host
      ensures clients == [] && verbs == [] && hooks == [] && connections.None?
    {
      this.name := name;
      this.host := host;
      clients := [];
      verbs := [];
      hooks := [];
      connections := None;
    }

    /** `add_verb`: appends one entry at the end; the earlier entries stay
        as they were, nothing is replaced or merged. */
    method AddVerb(aliases: seq<string>, handler: HandlerId)
      modifies this`verbs
      ensures verbs == old(verbs) + [VerbInfo(aliases, handler)]
    {
      verbs := verbs + [VerbInfo(aliases, handler)];
    }

    /** `add_hook`: appends one entry at the end; the earlier entries stay
        as they were, nothing is replaced or merged. */
    method AddHook(hook: Hook, handler: HandlerId)
      modifies this`hooks
      ensures hooks == old(hooks) + [HookInfo(hook, handler)]
    {
      hooks := hooks + [HookInfo(hook, handler)];
    }

    /** `run_hook`: invokes every entry for `kind`, in registration order,
        each with a context built from `builder`, and stops at the first
        handler that fails, returning its error. Without a failure the
        result is `Ok(Null)` if something matched, else `Err(VerbNotFound)`. */
    method RunHook(kind: Hook, builder: VerbContextBuilder, outcome: (HandlerId, VerbContext) -> VerbOutput)
      returns (res: VerbOutput, calls: seq<Invocation>)
      ensures res == BatchResult(hooks, kind, Build(builder, verbs, hooks), outcome)
      ensures calls == BatchCalls(hooks, kind, Build(builder, verbs, hooks), outcome)
    {
      var hs := hooks;
      var ctx := Build(builder, verbs, hs);
      ghost var invoked: seq<nat> := [];
      var matched := false;
      calls := [];
      for i := 0 to |hs|
        invariant BatchLoop(hs, kind, ctx, outcome, i) == Running(matched, invoked)
        invariant forall j :: 0 <= j < |invoked| ==> invoked[j] < i
        invariant calls == InvocationsOf(hs, invoked, ctx)
      {
        if Hooks.IsMatch(hs[i], kind) {
          var r := outcome(hs[i].handler, ctx);
          InvocationsSnoc(hs, invoked, ctx, i);
          calls := calls + [Invocation(i, hs[i].handler, ctx)];
          invoked := invoked + [i];
          if r.Err? {
            BatchLoopStaysStopped(hs, kind, ctx, outcome, i + 1, |hs|);
            BatchLoopAgrees(hs, kind, ctx, outcome);
            res := r;
            return;
          }
          matched := true;
        }
      }
      BatchLoopAgrees(hs, kind, ctx, outcome);
      if matched {
        res := Ok(Null);
      } else {
        res := Err(VerbNotFound);
      }
    }

    /** The body of the `listen` loop for one line: a blank line is
        skipped; otherwise the first token, lowercased, picks the first
        verb entry with a matching alias, whose handler is invoked with the
        sender, the tokens and the registry; when none matches, the sender
        is sent the unknown-command notice. Nothing else is sent. */
    method HandleLine(line: ClientInput) returns (call: Option<Invocation>)
      requires Trimmed(line.raw)
      modifies line.client.channel
      ensures var d := DispatchLine(verbs, hooks, clients, line);
        call == (if d.Invoke? then Some(d.call) else None)
      ensures line.client.channel.queue ==
        old(line.client.channel.queue) + NoticeFor(line.client.channel, verbs, hooks, clients, line)
    {
      var client := line.client;
      var rawInput := line.raw;
      if rawInput == [] {
        return None;
      }
      var input := SplitWhitespace(rawInput);
      var vc := Build(WithInput(WithClients(WithClient(NewBuilder(), client), clients), input), verbs, hooks);
      TrimmedLineHasToken(rawInput);
      var verb := Trim(Lower(vc.input.value[0]));
      NameOfToken(verbs, input[0]);
      var found := Find(verbs, verb);
      if found.None? {
        Send(client, UnknownCommand);
        return None;
      }
      call := Some(Invocation(found.value, verbs[found.value].handler, vc));
    }

    /** `HandleLine` on `inputs[i]`, seen from every channel of `inputs`:
        each gets what `NoticeFor` says, which is nothing for all but the
        sender's. */
    method HandleLineOf(inputs: seq<ClientInput>, i: nat) returns (call: Option<Invocation>)
      requires AllTrimmed(inputs) && i < |inputs|
      modifies ChannelsOf(inputs)
      ensures var d := DispatchLine(verbs, hooks, clients, inputs[i]);
        call == (if d.Invoke? then Some(d.call) else None)
      ensures forall ch :: ch in ChannelsOf(inputs) ==>
                ch.queue == old(ch.queue) + NoticeFor(ch, verbs, hooks, clients, inputs[i])
    {
      var line := inputs[i];
      ghost var sent := line.client.channel;
      call := HandleLine(line);
      forall ch | ch in ChannelsOf(inputs)
        ensures ch.queue == old(ch.queue) + NoticeFor(ch, verbs, hooks, clients, line)
      {
        if ch != sent {
          assert NoticeFor(ch, verbs, hooks, clients, line) == [];
        }
      }
    }

    /** The dispatch loop of `listen` over the lines `inputs`, in arrival
        order, with this server's tables and registry: every line is handled
        as `DispatchLine` says. Returns the handler invocations made (their
        results are discarded, so a failing verb does not stop the loop);
        the only thing sent is the unknown-command notice. */
    method Listen(inputs: seq<ClientInput>) returns (calls: seq<Invocation>)
      requires AllTrimmed(inputs)
      modifies ChannelsOf(inputs)
      ensures calls == CallsOf(verbs, hooks, clients, inputs)
      ensures forall ch :: ch in ChannelsOf(inputs) ==>
                ch.queue == old(ch.queue) + RepliesTo(ch, verbs, hooks, clients, inputs)
    {
      var vs, hs, reg := verbs, hooks, clients;
      calls := [];
      for i := 0 to |inputs|
        invariant calls == CallsOf(vs, hs, reg, inputs[..i])
        invariant forall ch :: ch in ChannelsOf(inputs) ==>
                    ch.queue == old(ch.queue) + RepliesTo(ch, vs, hs, reg, inputs[..i])
      {
        ListenStep(vs, hs, reg, inputs, i);
        var call := HandleLineOf(inputs, i);
        if call.Some? {
          calls := calls + [call.value];
        }
      }
      assert inputs[..|inputs|] == inputs;
    }

    /** The consumer's body for one event: run the hook batch for the
        event's kind with the event's client and the current registry, then,
        whatever the batch returned, Connected appends the client and
        Disconnected drops every entry with its address. */
    method HandleUpdate(update: ConnectionUpdate, outcome: (HandlerId, VerbContext) -> VerbOutput)
      returns (run: HookRun)
      modifies this`clients
      ensures run == EventRun(verbs, hooks, old(clients), update, outcome)
      ensures clients == Apply(old(clients), update)
    {
      var vc := WithServer(WithClient(NewBuilder(), update.client), this);
      assert Build(vc, verbs, hooks) == EventContext(verbs, hooks, clients, update);
      var res, calls;
      match update.status {
        case Connected =>
          res, calls := RunHook(OnPlayerConnect, vc, outcome);
          clients := clients + [update.client];
        case Disconnected =>
          res, calls := RunHook(OnPlayerDisconnect, vc, outcome);
          clients := Retain(clients, update.client.addr);
      }
      run := HookRun(res, calls);
    }

    /** The connection-event consumer over the events `updates`, in arrival
        order: each event's hook batch sees the registry as the earlier
        events left it. */
    method ProcessUpdates(updates: seq<ConnectionUpdate>, outcome: (HandlerId, VerbContext) -> VerbOutput)
      returns (runs: seq<HookRun>)
      modifies this`clients
      ensures clients == Registry(old(clients), updates)
      ensures runs == Runs(old(clients), updates, EventRunner(verbs, hooks, outcome))
    {
      ghost var start := clients;
      runs := [];
      for i := 0 to |updates|
        invariant clients == Registry(start, updates[..i])
        invariant runs == Runs(start, updates[..i], EventRunner(verbs, hooks, outcome))
      {
        RegistryStep(start, updates, i);
        RunsStep(start, updates, EventRunner(verbs, hooks, outcome), i);
        var run := HandleUpdate(updates[i], outcome);
        runs := runs + [run];
      }
      assert updates[..|updates|] == updates;
    }
  }

  /** `VerbContextBuilder::server`: sets the registry to the server's and
      keeps the other fields. */
  function WithServer(b: VerbContextBuilder, server: MudServer): (r: VerbContextBuilder)
    reads server
    ensures r.clients == Some(server.clients) && r.client == b.client && r.input == b.input
    ensures r == WithClients(b, server.clients)
  {
    WithClients(b, server.clients)
  }

  /** Invoking one more entry appends its invocation. */
  lemma InvocationsSnoc(hooks: seq<HookInfo>, idx: seq<nat>, ctx: VerbContext, i: nat)
    requires forall j :: 0 <= j < |idx| ==> idx[j] < |hooks|
    requires i < |hooks|
    ensures InvocationsOf(hooks, idx + [i], ctx) == InvocationsOf(hooks, idx, ctx) + [Invocation(i, hooks[i].handler, ctx)]
  {
    assert (idx + [i])[..|idx|] == idx;
  }

  /** One more line extends what the loop invokes and sends by exactly what
      `DispatchLine` decides for it. */
  lemma ListenStep(verbs: seq<VerbInfo>, hooks: seq<HookInfo>, registry: seq<Client>, inputs: seq<ClientInput>, i: nat)
    requires AllTrimmed(inputs) && i < |inputs|
    ensures var d := DispatchLine(verbs, hooks, registry, inputs[i]);
      CallsOf(verbs, hooks, registry, inputs[..i + 1]) ==
        CallsOf(verbs, hooks, registry, inputs[..i]) + (if d.Invoke? then [d.call] else [])
    ensures forall ch: Channel ::
      RepliesTo(ch, verbs, hooks, registry, inputs[..i + 1]) ==
      RepliesTo(ch, verbs, hooks, registry, inputs[..i]) + NoticeFor(ch, verbs, hooks, registry, inputs[i])
  {
    assert inputs[..i + 1][..i] == inputs[..i];
    assert inputs[..i + 1][i] == inputs[i];
  }

  /** Every invocation of one batch gets the same context: the one the
      batch was built with. */
  lemma BatchCallsContext(hooks: seq<HookInfo>, kind: Hook, ctx: VerbContext, outcome: (HandlerId, VerbContext) -> VerbOutput)
    ensures forall j :: 0 <= j < |BatchCalls(hooks, kind, ctx, outcome)| ==>
      BatchCalls(hooks, kind, ctx, outcome)[j].ctx == ctx
  {
    var inv := BatchInvoked(hooks, kind, ctx, outcome);
    BatchInvokesInOrder(hooks, kind, ctx, outcome);
    InvocationsAt(hooks, inv, ctx);
  }

  /** The hooks of event `i` run before the event is applied: each of them
      gets the event's client and the registry as the first `i` events left
      it, while the registry after the event is that one with the event
      applied. */
  lemma HooksRunBeforeEvent(verbs: seq<VerbInfo>, hooks: seq<HookInfo>, reg: seq<Client>, updates: seq<ConnectionUpdate>,
                            outcome: (HandlerId, VerbContext) -> VerbOutput, i: nat)
    requires i < |updates|
    ensures var calls := Runs(reg, updates, EventRunner(verbs, hooks, outcome))[i].calls;
      forall j :: 0 <= j < |calls| ==>
        calls[j].ctx.client == Some(updates[i].client)
        && calls[j].ctx.clients == Some(Registry(reg, updates[..i]))
    ensures Registry(reg, updates[..i + 1]) == Apply(Registry(reg, updates[..i]), updates[i])
  {
    var before := Registry(reg, updates[..i]);
    var u := updates[i];
    RunsAt(reg, updates, EventRunner(verbs, hooks, outcome), i);
    var ctx := EventContext(verbs, hooks, before, u);
    assert Runs(reg, updates, EventRunner(verbs, hooks, outcome))[i].calls == BatchCalls(hooks, KindOf(u.status), ctx, outcome);
    BatchCallsContext(hooks, KindOf(u.status), ctx, outcome);
    RegistryStep(reg, updates, i);
  }

  /** Whatever order the events arrive in, the disconnect hooks of a client
      that is still connected see its address in the registry. */
  lemma HooksSeeMembership(verbs: seq<VerbInfo>, hooks: seq<HookInfo>, reg: seq<Client>, updates: seq<ConnectionUpdate>,
                           outcome: (HandlerId, VerbContext) -> VerbOutput, i: nat)
    requires i < |updates|
    ensures var calls := Runs(reg, updates, EventRunner(verbs, hooks, outcome))[i].calls;
      var u := updates[i];
      forall j :: 0 <= j < |calls| ==>
        calls[j].ctx.clients.Some?
        && (u.status.Disconnected? && u.client.addr in Live(Addrs(reg), updates[..i]) ==>
              u.client.addr in Addrs(calls[j].ctx.clients.value))
  {
    HooksRunBeforeEvent(verbs, hooks, reg, updates, outcome, i);
    RegistryAddrs(reg, updates[..i]);
  }

  /** When connecting peers are not already live, connect hooks never see the
      connecting client's address in the registry. */
  lemma ConnectHooksMissAddress(verbs: seq<VerbInfo>, hooks: seq<HookInfo>, reg: seq<Client>, updates: seq<ConnectionUpdate>,
                                outcome: (HandlerId, VerbContext) -> VerbOutput, i: nat)
    requires i < |updates|
    requires FreshConnects(reg, updates)
    ensures var calls := Runs(reg, updates, EventRunner(verbs, hooks, outcome))[i].calls;
      var u := updates[i];
      forall j :: 0 <= j < |calls| ==>
        calls[j].ctx.clients.Some?
        && (u.status.Connected? ==> u.client.addr !in Addrs(calls[j].ctx.clients.value))
  {
    HooksRunBeforeEvent(verbs, hooks, reg, updates, outcome, i);
  }

  /** One more event adds exactly that event's batch to the runs. */
  lemma RunsStep(reg: seq<Client>, updates: seq<ConnectionUpdate>, run: (seq<Client>, ConnectionUpdate) -> HookRun, i: nat)
    requires i < |updates|
    ensures Runs(reg, updates[..i + 1], run) ==
      Runs(reg, updates[..i], run) + [run(Registry(reg, updates[..i]), updates[i])]
  {
    assert updates[..i + 1][..i] == updates[..i];
    assert updates[..i + 1][i] == updates[i];
  }

  /** One more event applies exactly that event to the registry. */
  lemma RegistryStep(reg: seq<Client>, updates: seq<ConnectionUpdate>, i: nat)
    requires i < |updates|
    ensures Registry(reg, updates[..i + 1]) == Apply(Registry(reg, updates[..i]), updates[i])
  {
    assert updates[..i + 1][..i] == updates[..i];
    assert updates[..i + 1][i] == updates[i];
  }
}
