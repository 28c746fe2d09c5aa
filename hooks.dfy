/** The hook table (src/server/hooks.rs): lifecycle-event kinds, hook
    entries, and which entries one `run_hook` batch invokes and what it
    returns. The batch is stated for any context type `C`, with the handlers'
    results given as a function `outcome` of handler and context. */
module Hooks {
  import opened Wrappers
  import opened Errors
  import opened Handlers

  datatype Hook = OnPlayerConnect | OnPlayerDisconnect

  /** One registered hook: the event kind it is for and its handler. */
  datatype HookInfo = HookInfo(hook: Hook, handler: HandlerId)

  /** `HookInfo::is_match`: the entry is for this kind. */
  predicate IsMatch(info: HookInfo, hook: Hook)
  {
    hook == info.hook
  }

  /** The positions among the first `n` entries whose kind is `kind`, in
      registration order. */
  function MatchingUpTo(hooks: seq<HookInfo>, kind: Hook, n: nat): (m: seq<nat>)
    requires n <= |hooks|
    ensures forall j :: 0 <= j < |m| ==> m[j] < n && IsMatch(hooks[m[j]], kind)
    ensures forall j, k :: 0 <= j < k < |m| ==> m[j] < m[k]
  {
    if n == 0 then []
    else MatchingUpTo(hooks, kind, n - 1) + (if IsMatch(hooks[n - 1], kind) then [n - 1] else [])
  }

  /** No matching entry among the first `n` is left out. */
  lemma {:induction false} MatchingComplete(hooks: seq<HookInfo>, kind: Hook, n: nat)
    requires n <= |hooks|
    ensures forall i :: 0 <= i < n && IsMatch(hooks[i], kind) ==> i in MatchingUpTo(hooks, kind, n)
  {
    if n > 0 {
      MatchingComplete(hooks, kind, n - 1);
    }
  }

  /** The positions of all entries for `kind`, in registration order. */
  function Matching(hooks: seq<HookInfo>, kind: Hook): (m: seq<nat>)
    ensures forall j :: 0 <= j < |m| ==> m[j] < |hooks| && IsMatch(hooks[m[j]], kind)
    ensures forall j, k :: 0 <= j < k < |m| ==> m[j] < m[k]
  {
    MatchingUpTo(hooks, kind, |hooks|)
  }

  /** Every entry for `kind` is among the matching positions. */
  lemma MatchingFindsAll(hooks: seq<HookInfo>, kind: Hook)
    ensures forall i :: 0 <= i < |hooks| && IsMatch(hooks[i], kind) ==> i in Matching(hooks, kind)
  {
    MatchingComplete(hooks, kind, |hooks|);
  }

  /** The position in `m` of the first entry whose handler fails, or `|m|`. */
  function FirstFailure<C>(hooks: seq<HookInfo>, m: seq<nat>, ctx: C, outcome: (HandlerId, C) -> VerbOutput): (k: nat)
    requires forall j :: 0 <= j < |m| ==> m[j] < |hooks|
    ensures k <= |m|
    ensures k < |m| ==> outcome(hooks[m[k]].handler, ctx).Err?
    ensures forall j :: 0 <= j < k ==> outcome(hooks[m[j]].handler, ctx).Ok?
  {
    if m == [] then 0
    else if outcome(hooks[m[0]].handler, ctx).Err? then 0
    else 1 + FirstFailure(hooks, m[1..], ctx, outcome)
  }

  /** The first failure is at `p` when every handler before `p` succeeds
      and the one at `p` fails. */
  lemma {:induction false} FirstFailureAt<C>(hooks: seq<HookInfo>, m: seq<nat>, ctx: C, outcome: (HandlerId, C) -> VerbOutput, p: nat)
    requires forall j :: 0 <= j < |m| ==> m[j] < |hooks|
    requires p < |m| && outcome(hooks[m[p]].handler, ctx).Err?
    requires forall j :: 0 <= j < p ==> outcome(hooks[m[j]].handler, ctx).Ok?
    ensures FirstFailure(hooks, m, ctx, outcome) == p
  {
    if p > 0 {
      assert outcome(hooks[m[0]].handler, ctx).Ok?;
      FirstFailureAt(hooks, m[1..], ctx, outcome, p - 1);
    }
  }

  /** There is no failure when every handler succeeds. */
  lemma {:induction false} FirstFailureNone<C>(hooks: seq<HookInfo>, m: seq<nat>, ctx: C, outcome: (HandlerId, C) -> VerbOutput)
    requires forall j :: 0 <= j < |m| ==> m[j] < |hooks| && outcome(hooks[m[j]].handler, ctx).Ok?
    ensures FirstFailure(hooks, m, ctx, outcome) == |m|
  {
  }

  /** The entries one batch for `kind` invokes, in the order it invokes
      them: the matching entries up to and including the first that fails. */
  function BatchInvoked<C>(hooks: seq<HookInfo>, kind: Hook, ctx: C, outcome: (HandlerId, C) -> VerbOutput): seq<nat>
  {
    var m := Matching(hooks, kind);
    var k := FirstFailure(hooks, m, ctx, outcome);
    if k < |m| then m[..k + 1] else m
  }

  /** What one batch for `kind` returns: the first failing handler's error;
      otherwise `Ok(Null)` if some entry matched and `Err(VerbNotFound)` if
      none did. */
  function BatchResult<C>(hooks: seq<HookInfo>, kind: Hook, ctx: C, outcome: (HandlerId, C) -> VerbOutput): VerbOutput
  {
    var m := Matching(hooks, kind);
    var k := FirstFailure(hooks, m, ctx, outcome);
    if k < |m| then outcome(hooks[m[k]].handler, ctx)
    else if m == [] then Err(VerbNotFound)
    else Ok(Null)
  }

  /** Where the loop of `run_hook` is after looking at some entries: still
      running (whether anything matched so far, and the positions invoked),
      or stopped by a failing handler with its result. */
  datatype BatchState = Running(matched: bool, invoked: seq<nat>) | Stopped(result: VerbOutput, invoked: seq<nat>)

  /** One step of the loop of `run_hook`, at entry `i`: a stopped loop
      stays stopped and an entry for another kind is passed over; a matching
      entry is invoked, and its handler's failure stops the loop. */
  function Step<C>(hooks: seq<HookInfo>, kind: Hook, ctx: C, outcome: (HandlerId, C) -> VerbOutput, s: BatchState, i: nat): BatchState
    requires i < |hooks|
  {
    if s.Stopped? || !IsMatch(hooks[i], kind) then s
    else
      var r := outcome(hooks[i].handler, ctx);
      if r.Err? then Stopped(r, s.invoked + [i]) else Running(true, s.invoked + [i])
  }

  /** The loop of `run_hook` over the first `n` entries. */
  function BatchLoop<C>(hooks: seq<HookInfo>, kind: Hook, ctx: C, outcome: (HandlerId, C) -> VerbOutput, n: nat): BatchState
    requires n <= |hooks|
  {
    if n == 0 then Running(false, [])
    else Step(hooks, kind, ctx, outcome, BatchLoop(hooks, kind, ctx, outcome, n - 1), n - 1)
  }

  /** What `run_hook` returns from where its loop ended. */
  function StateResult(s: BatchState): VerbOutput
  {
    match s
    case Stopped(r, _) => r
    case Running(matched, _) => if matched then Ok(Null) else Err(VerbNotFound)
  }

  /** Where the loop should be after `n` entries, read off the declarative
      description: stopped at the first failing matching entry, if any. */
  function BatchAt<C>(hooks: seq<HookInfo>, kind: Hook, ctx: C, outcome: (HandlerId, C) -> VerbOutput, n: nat): BatchState
    requires n <= |hooks|
  {
    var m := MatchingUpTo(hooks, kind, n);
    var k := FirstFailure(hooks, m, ctx, outcome);
    if k < |m| then Stopped(outcome(hooks[m[k]].handler, ctx), m[..k + 1]) else Running(m != [], m)
  }

  /** An entry for another kind leaves the description where it was. */
  lemma BatchAtSkip<C>(hooks: seq<HookInfo>, kind: Hook, ctx: C, outcome: (HandlerId, C) -> VerbOutput, n: nat)
    requires 0 < n <= |hooks| && !IsMatch(hooks[n - 1], kind)
    ensures BatchAt(hooks, kind, ctx, outcome, n) == BatchAt(hooks, kind, ctx, outcome, n - 1)
  {
    assert MatchingUpTo(hooks, kind, n) == MatchingUpTo(hooks, kind, n - 1);
  }

  /** Once the description has stopped, a later matching entry changes
      nothing: it is not invoked. */
  lemma BatchAtStopped<C>(hooks: seq<HookInfo>, kind: Hook, ctx: C, outcome: (HandlerId, C) -> VerbOutput, n: nat)
    requires 0 < n <= |hooks| && IsMatch(hooks[n - 1], kind)
    requires BatchAt(hooks, kind, ctx, outcome, n - 1).Stopped?
    ensures BatchAt(hooks, kind, ctx, outcome, n) == BatchAt(hooks, kind, ctx, outcome, n - 1)
  {
    var m0 := MatchingUpTo(hooks, kind, n - 1);
    var k0 := FirstFailure(hooks, m0, ctx, outcome);
    var m := MatchingUpTo(hooks, kind, n);
    assert m == m0 + [n - 1];
    assert m[k0] == m0[k0];
    assert forall j :: 0 <= j < k0 ==> m[j] == m0[j];
    FirstFailureAt(hooks, m, ctx, outcome, k0);
    assert m[..k0 + 1] == m0[..k0 + 1];
  }

  /** While the description is running, a matching entry is invoked and
      its handler's result decides whether the loop goes on. */
  lemma BatchAtRunning<C>(hooks: seq<HookInfo>, kind: Hook, ctx: C, outcome: (HandlerId, C) -> VerbOutput, n: nat)
    requires 0 < n <= |hooks| && IsMatch(hooks[n - 1], kind)
    requires BatchAt(hooks, kind, ctx, outcome, n - 1).Running?
    ensures BatchAt(hooks, kind, ctx, outcome, n) ==
      Step(hooks, kind, ctx, outcome, BatchAt(hooks, kind, ctx, outcome, n - 1), n - 1)
  {
    var m0 := MatchingUpTo(hooks, kind, n - 1);
    assert FirstFailure(hooks, m0, ctx, outcome) == |m0|;
    if outcome(hooks[n - 1].handler, ctx).Err? {
      BatchAtFails(hooks, kind, ctx, outcome, n);
    } else {
      BatchAtSucceeds(hooks, kind, ctx, outcome, n);
    }
  }

  /** A running loop reaching a matching entry whose handler fails stops
      there, with every matching entry so far invoked. */
  lemma BatchAtFails<C>(hooks: seq<HookInfo>, kind: Hook, ctx: C, outcome: (HandlerId, C) -> VerbOutput, n: nat)
    requires 0 < n <= |hooks| && IsMatch(hooks[n - 1], kind)
    requires FirstFailure(hooks, MatchingUpTo(hooks, kind, n - 1), ctx, outcome) == |MatchingUpTo(hooks, kind, n - 1)|
    requires outcome(hooks[n - 1].handler, ctx).Err?
    ensures BatchAt(hooks, kind, ctx, outcome, n) == Stopped(outcome(hooks[n - 1].handler, ctx), MatchingUpTo(hooks, kind, n))
  {
    var m0 := MatchingUpTo(hooks, kind, n - 1);
    var m := MatchingUpTo(hooks, kind, n);
    assert m == m0 + [n - 1];
    assert forall j :: 0 <= j < |m0| ==> m[j] == m0[j];
    FirstFailureAt(hooks, m, ctx, outcome, |m0|);
    assert m[..|m0| + 1] == m;
  }

  /** A running loop reaching a matching entry whose handler succeeds keeps
      running, with every matching entry so far invoked. */
  lemma BatchAtSucceeds<C>(hooks: seq<HookInfo>, kind: Hook, ctx: C, outcome: (HandlerId, C) -> VerbOutput, n: nat)
    requires 0 < n <= |hooks| && IsMatch(hooks[n - 1], kind)
    requires FirstFailure(hooks, MatchingUpTo(hooks, kind, n - 1), ctx, outcome) == |MatchingUpTo(hooks, kind, n - 1)|
    requires outcome(hooks[n - 1].handler, ctx).Ok?
    ensures BatchAt(hooks, kind, ctx, outcome, n) == Running(true, MatchingUpTo(hooks, kind, n))
  {
    var m0 := MatchingUpTo(hooks, kind, n - 1);
    var m := MatchingUpTo(hooks, kind, n);
    assert m == m0 + [n - 1];
    assert forall j :: 0 <= j < |m0| ==> m[j] == m0[j];
    FirstFailureNone(hooks, m, ctx, outcome);
  }

  /** The declarative description advances by one loop step per entry. */
  lemma BatchAtStep<C>(hooks: seq<HookInfo>, kind: Hook, ctx: C, outcome: (HandlerId, C) -> VerbOutput, n: nat)
    requires 0 < n <= |hooks|
    ensures BatchAt(hooks, kind, ctx, outcome, n) ==
      Step(hooks, kind, ctx, outcome, BatchAt(hooks, kind, ctx, outcome, n - 1), n - 1)
  {
    if !IsMatch(hooks[n - 1], kind) {
      BatchAtSkip(hooks, kind, ctx, outcome, n);
    } else if BatchAt(hooks, kind, ctx, outcome, n - 1).Stopped? {
      BatchAtStopped(hooks, kind, ctx, outcome, n);
    } else {
      BatchAtRunning(hooks, kind, ctx, outcome, n);
    }
  }

  /** The loop is always where the declarative description says. */
  lemma {:induction false} BatchLoopInvariant<C>(hooks: seq<HookInfo>, kind: Hook, ctx: C, outcome: (HandlerId, C) -> VerbOutput, n: nat)
    requires n <= |hooks|
    ensures BatchLoop(hooks, kind, ctx, outcome, n) == BatchAt(hooks, kind, ctx, outcome, n)
  {
    if n > 0 {
      BatchLoopInvariant(hooks, kind, ctx, outcome, n - 1);
      BatchAtStep(hooks, kind, ctx, outcome, n);
      assert BatchLoop(hooks, kind, ctx, outcome, n) ==
        Step(hooks, kind, ctx, outcome, BatchLoop(hooks, kind, ctx, outcome, n - 1), n - 1);
      assert BatchLoop(hooks, kind, ctx, outcome, n) == BatchAt(hooks, kind, ctx, outcome, n);
    } else {
      assert MatchingUpTo(hooks, kind, 0) == [];
      assert BatchLoop(hooks, kind, ctx, outcome, n) == BatchAt(hooks, kind, ctx, outcome, n);
    }
  }

  /** The loop computes the batch: it returns `BatchResult` and invokes
      exactly `BatchInvoked`. */
  lemma BatchLoopAgrees<C>(hooks: seq<HookInfo>, kind: Hook, ctx: C, outcome: (HandlerId, C) -> VerbOutput)
    ensures StateResult(BatchLoop(hooks, kind, ctx, outcome, |hooks|)) == BatchResult(hooks, kind, ctx, outcome)
    ensures BatchLoop(hooks, kind, ctx, outcome, |hooks|).invoked == BatchInvoked(hooks, kind, ctx, outcome)
  {
    BatchLoopInvariant(hooks, kind, ctx, outcome, |hooks|);
  }

  /** Once stopped, the loop stays where it stopped. */
  lemma {:induction false} BatchLoopStaysStopped<C>(hooks: seq<HookInfo>, kind: Hook, ctx: C, outcome: (HandlerId, C) -> VerbOutput, n: nat, n': nat)
    requires n <= n' <= |hooks|
    requires BatchLoop(hooks, kind, ctx, outcome, n).Stopped?
    ensures BatchLoop(hooks, kind, ctx, outcome, n') == BatchLoop(hooks, kind, ctx, outcome, n)
    decreases n'
  {
    if n < n' {
      BatchLoopStaysStopped(hooks, kind, ctx, outcome, n, n' - 1);
    }
  }

  /** A batch invokes only entries for its kind, each at most once, in
      registration order, and skips none of them before the last it invokes. */
  lemma BatchInvokesInOrder<C>(hooks: seq<HookInfo>, kind: Hook, ctx: C, outcome: (HandlerId, C) -> VerbOutput)
    ensures var inv := BatchInvoked(hooks, kind, ctx, outcome);
      (forall j :: 0 <= j < |inv| ==> inv[j] < |hooks| && hooks[inv[j]].hook == kind)
      && (forall j, k :: 0 <= j < k < |inv| ==> inv[j] < inv[k])
      && (forall i :: 0 <= i < |hooks| && hooks[i].hook == kind && inv != [] && i <= inv[|inv| - 1] ==> i in inv)
  {
    var m := Matching(hooks, kind);
    var inv := BatchInvoked(hooks, kind, ctx, outcome);
    assert inv == m[..|inv|];
    forall j | 0 <= j < |inv| ensures inv[j] == m[j] {
    }
    MatchingFindsAll(hooks, kind);
    forall i | 0 <= i < |hooks| && hooks[i].hook == kind && inv != [] && i <= inv[|inv| - 1]
      ensures i in inv
    {
      assert IsMatch(hooks[i], kind);
      var p :| 0 <= p < |m| && m[p] == i;
      assert inv[p] == i;
    }
  }

  /** The batch returns `Ok` exactly when some entry matched and every
      matching handler succeeded; its value is then `Null`, and every
      matching entry was invoked. */
  lemma BatchOkIff<C>(hooks: seq<HookInfo>, kind: Hook, ctx: C, outcome: (HandlerId, C) -> VerbOutput)
    ensures var m := Matching(hooks, kind);
      BatchResult(hooks, kind, ctx, outcome).Ok? <==>
        (m != [] && forall j :: 0 <= j < |m| ==> outcome(hooks[m[j]].handler, ctx).Ok?)
    ensures BatchResult(hooks, kind, ctx, outcome).Ok? ==>
      BatchResult(hooks, kind, ctx, outcome) == Ok(Null) && BatchInvoked(hooks, kind, ctx, outcome) == Matching(hooks, kind)
  {
  }

  /** With no entry for the kind, the batch invokes nothing and reports
      `VerbNotFound`. */
  lemma BatchNoMatch<C>(hooks: seq<HookInfo>, kind: Hook, ctx: C, outcome: (HandlerId, C) -> VerbOutput)
    requires forall i :: 0 <= i < |hooks| ==> hooks[i].hook != kind
    ensures BatchInvoked(hooks, kind, ctx, outcome) == []
    ensures BatchResult(hooks, kind, ctx, outcome) == Err(VerbNotFound)
  {
  }

  /** When the handler of a matching entry `i` fails, the batch stops at
      the first failing handler, which is `i` or an earlier one: it returns
      that handler's error unchanged, every invoked entry but the last
      succeeded, and no entry after it is invoked. */
  lemma BatchStopsAtFailure<C>(hooks: seq<HookInfo>, kind: Hook, ctx: C, outcome: (HandlerId, C) -> VerbOutput, i: nat)
    requires i < |hooks| && hooks[i].hook == kind && outcome(hooks[i].handler, ctx).Err?
    ensures var inv := BatchInvoked(hooks, kind, ctx, outcome);
      inv != [] && inv[|inv| - 1] <= i
      && BatchResult(hooks, kind, ctx, outcome) == outcome(hooks[inv[|inv| - 1]].handler, ctx)
      && BatchResult(hooks, kind, ctx, outcome).Err?
      && (forall j :: 0 <= j < |inv| - 1 ==> outcome(hooks[inv[j]].handler, ctx).Ok?)
  {
    var m := Matching(hooks, kind);
    var k := FirstFailure(hooks, m, ctx, outcome);
    MatchingFindsAll(hooks, kind);
    assert IsMatch(hooks[i], kind);
    var p :| 0 <= p < |m| && m[p] == i;
    assert k <= p;
    assert m[k] <= i by {
      if k < p {
        assert m[k] < m[p];
      }
    }
    assert k < |m|;
    var inv := m[..k + 1];
    assert BatchInvoked(hooks, kind, ctx, outcome) == inv;
    assert BatchResult(hooks, kind, ctx, outcome) == outcome(hooks[m[k]].handler, ctx);
    assert inv[|inv| - 1] == m[k];
    forall j | 0 <= j < |inv| - 1
      ensures outcome(hooks[inv[j]].handler, ctx).Ok?
    {
      assert inv[j] == m[j];
    }
  }

  /** `VerbNotFound` does not tell "no hook registered" from "a hook ran and
      failed with VerbNotFound": one registered hook whose handler fails
      that way gives the same result as an empty table. */
  lemma NotFoundIsAmbiguous<C>(kind: Hook, ctx: C, outcome: (HandlerId, C) -> VerbOutput)
    requires outcome(0, ctx) == Err(VerbNotFound)
    ensures BatchResult([HookInfo(kind, 0)], kind, ctx, outcome) == BatchResult([], kind, ctx, outcome)
    ensures BatchInvoked([HookInfo(kind, 0)], kind, ctx, outcome) == [0]
    ensures BatchInvoked([], kind, ctx, outcome) == []
  {
    var hooks := [HookInfo(kind, 0)];
    assert IsMatch(hooks[0], kind);
    MatchingFindsAll(hooks, kind);
    assert 0 in Matching(hooks, kind);
  }
}
