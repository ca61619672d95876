/**
 Rebuilding a Branch (views in API/instance_whole_run.py, `_bootstrap_reach` and `execute` in
 Run/worker_pool.py).

 A Branch is never saved.  It is a map snapshot, a room, an action prefix and, below an event, one
 RNG override pinned to one index of the replay.  The theorem at the end says a worker that starts
 from anything at all and replays these coordinates is in exactly the state the parent's worker
 settled in, at every depth of a chain.
 */
module BranchReplay {
  import opened Wrappers
  import opened LegalActions
  import opened EventRng
  import opened Emulator
  import EventBatch

  type Plan = EventBatch.Plan

  datatype View = View(
    snapshot: Option<string>, roomId: Option<int>, prefix: seq<int>,
    boundary: Boundary, legal: seq<Action>, chainBlocked: bool)

  datatype WorkItem = WorkItem(
    choiceIsMap: bool, snapshot: string, roomId: Option<int>, prefix: seq<int>, target: Boundary,
    resolve: Option<int>, key: Option<(SemanticKey, nat)>, plan: Option<Plan>)

  datatype Outcome<S> =
    | Fault
    | Mismatch
    | Reached(reached: S)
    | Stepped(settled: S, autos: seq<int>)

  /** The override that is due right before entry `n`. */
  function DueAt(plan: Option<Plan>, n: nat): seq<Call> {
    if plan.Some? && plan.value.applyBefore == n then [Override(plan.value.override)] else []
  }

  /** The replay of the first `n` prefix entries, the override spliced in where it belongs. */
  function PrefixCalls(prefix: seq<int>, plan: Option<Plan>, n: nat): seq<Call>
    requires n <= |prefix|
  {
    if n == 0 then []
    else
      PrefixCalls(prefix, plan, n - 1) + DueAt(plan, n - 1) + [Act(prefix[n - 1])]
  }

  /** The whole prefix with the override before entry `applyBefore`, if that entry exists. */
  function Spliced(prefix: seq<int>, plan: Option<Plan>): seq<Call> {
    if plan.None? || plan.value.applyBefore >= |prefix| then Acts(prefix)
    else
      var k := plan.value.applyBefore;
      Acts(prefix[..k]) + [Override(plan.value.override)] + Acts(prefix[k..])
  }

  function BootstrapCalls(w: WorkItem): seq<Call> {
    if w.choiceIsMap || w.roomId.None? then [Load(w.snapshot)]
    else [Load(w.snapshot), Enter(w.roomId.value)] + Spliced(w.prefix, w.plan)
  }

  /** `_bootstrap_reach`; a room is asserted to be known unless the choice is the map itself. */
  function Bootstrap<S>(m: Machine<S>, s: S, w: WorkItem): Option<S> {
    if !w.choiceIsMap && w.roomId.None? then None else Run(m, s, BootstrapCalls(w))
  }

  predicate AppliesAtEnd(w: WorkItem) {
    w.plan.Some? && w.plan.value.applyBefore == |w.prefix|
  }

  /** The action id the worker steps, re-resolved against what it sees when a key is given. */
  function ResolvedId(legal: seq<Action>, w: WorkItem): Option<int> {
    if w.key.Some? then Decode(legal, w.key.value.0, w.key.value.1) else w.resolve
  }

  /** What `execute` does once the target has been reached. */
  function ExecuteFrom<S>(m: Machine<S>, reach: S, w: WorkItem): Outcome<S> {
    if m.boundary(reach) != w.target then Mismatch
    else if AppliesAtEnd(w) && m.boundary(reach) != EventChoice then Fault
    else
      var s := if AppliesAtEnd(w) then m.override(reach, w.plan.value.override) else Some(reach);
      if s.None? then Fault else ResolveFrom(m, m.legal(reach), s.value, w)
  }

  /** Resolves the action against what was reached, steps it and drains. */
  function ResolveFrom<S>(m: Machine<S>, legal: seq<Action>, s: S, w: WorkItem): Outcome<S> {
    if w.resolve.None? then Reached(s)
    else
      var id := ResolvedId(legal, w);
      if id.None? then Fault
      else
        var t := if w.choiceIsMap then m.enter(s, id.value) else m.step(s, id.value);
        if t.None? then Fault
        else
          var d := Drain(m, t.value, DEFAULT_MAX_AUTO_ACTIONS);
          if d.None? then Fault else Stepped(d.value.0, d.value.1)
  }

  function Execute<S>(m: Machine<S>, s: S, w: WorkItem): Outcome<S> {
    var reach := Bootstrap(m, s, w);
    if reach.None? then Fault else ExecuteFrom(m, reach.value, w)
  }

  // ---- The worker's side, step by step ----------------------------------------------------------------

  method BootstrapReach<S>(session: Session<S>, w: WorkItem) returns (ok: bool)
    modifies session
    ensures ok <==> Bootstrap(session.machine, old(session.state), w).Some?
    ensures ok ==>
              && Some(session.state) == Bootstrap(session.machine, old(session.state), w)
              && session.log == old(session.log) + BootstrapCalls(w)
  {
    BootstrapIsStepwise(session.machine, session.state, w);
    ok := LoadEnterReplay(session, w);
  }

  method LoadEnterReplay<S>(session: Session<S>, w: WorkItem) returns (ok: bool)
    modifies session
    ensures ok <==> Stepwise(session.machine, w).Some?
    ensures ok ==> Some(session.state) == Stepwise(session.machine, w)
    ensures ok ==> session.log == old(session.log) + BootstrapCalls(w)
  {
    ok := session.Invoke(Load(w.snapshot));
    if !ok || w.choiceIsMap { return; }
    if w.roomId.None? { return false; }
    ghost var loaded := session.log;
    ok := EnterAndReplay(session, w);
    assert BootstrapCalls(w) == [Load(w.snapshot)] + ([Enter(w.roomId.value)] + Spliced(w.prefix, w.plan));
  }

  method EnterAndReplay<S>(session: Session<S>, w: WorkItem) returns (ok: bool)
    requires w.roomId.Some?
    modifies session
    ensures var e := session.machine.enter(old(session.state), w.roomId.value);
            ok <==> e.Some? && Run(session.machine, e.value, Spliced(w.prefix, w.plan)).Some?
    ensures ok ==>
              && Run(session.machine, session.machine.enter(old(session.state), w.roomId.value).value,
                     Spliced(w.prefix, w.plan)) == Some(session.state)
              && session.log == old(session.log) + ([Enter(w.roomId.value)] + Spliced(w.prefix, w.plan))
  {
    ok := session.Invoke(Enter(w.roomId.value));
    if !ok { return; }
    ok := ReplayPrefix(session, w);
  }

  /** The bootstrap in the order the worker does it: load, enter, replay. */
  function Stepwise<S>(m: Machine<S>, w: WorkItem): Option<S> {
    var l := m.load(w.snapshot);
    if l.None? || w.choiceIsMap then l
    else if w.roomId.None? then None
    else
      var e := m.enter(l.value, w.roomId.value);
      if e.None? then None else Run(m, e.value, Spliced(w.prefix, w.plan))
  }

  lemma BootstrapIsStepwise<S>(m: Machine<S>, s: S, w: WorkItem)
    ensures Bootstrap(m, s, w) == Stepwise(m, w)
  {
    var load := [Load(w.snapshot)];
    assert Run(m, s, load) == m.load(w.snapshot);
    if !w.choiceIsMap && w.roomId.Some? && m.load(w.snapshot).Some? {
      var enter, rest := [Enter(w.roomId.value)], Spliced(w.prefix, w.plan);
      assert BootstrapCalls(w) == load + (enter + rest);
      RunConcat(m, s, load, enter + rest);
      RunConcat(m, m.load(w.snapshot).value, enter, rest);
    } else if !w.choiceIsMap && w.roomId.Some? {
      assert BootstrapCalls(w)[0] == load[0];
    }
  }

  /** Steps the recorded prefix, never draining between its entries. */
  method ReplayPrefix<S>(session: Session<S>, w: WorkItem) returns (ok: bool)
    modifies session
    ensures ok <==> Run(session.machine, old(session.state), Spliced(w.prefix, w.plan)).Some?
    ensures ok ==>
              && Some(session.state) == Run(session.machine, old(session.state), Spliced(w.prefix, w.plan))
              && session.log == old(session.log) + Spliced(w.prefix, w.plan)
  {
    ghost var entered, front := session.state, session.log;
    PrefixCallsAreSpliced(w.prefix, w.plan);
    ok := true;
    for n := 0 to |w.prefix|
      invariant ok
      invariant session.log == front + PrefixCalls(w.prefix, w.plan, n)
      invariant Run(session.machine, entered, PrefixCalls(w.prefix, w.plan, n)) == Some(session.state)
    {
      ok := ReplayEntry(session, w, n, entered, front);
      if !ok { return; }
    }
  }

  /** One prefix entry, preceded by the override when its turn has come. */
  method ReplayEntry<S>(session: Session<S>, w: WorkItem, n: nat, ghost entered: S, ghost front: seq<Call>)
    returns (ok: bool)
    requires n < |w.prefix|
    requires session.log == front + PrefixCalls(w.prefix, w.plan, n)
    requires Run(session.machine, entered, PrefixCalls(w.prefix, w.plan, n)) == Some(session.state)
    modifies session
    ensures ok ==>
              && session.log == front + PrefixCalls(w.prefix, w.plan, n + 1)
              && Run(session.machine, entered, PrefixCalls(w.prefix, w.plan, n + 1)) == Some(session.state)
    ensures !ok ==> Run(session.machine, entered, PrefixCalls(w.prefix, w.plan, |w.prefix|)).None?
  {
    var due := w.plan.Some? && w.plan.value.applyBefore == n;
    ghost var s := session.state;
    ghost var o := DueAt(w.plan, n);
    ghost var calls := PrefixCalls(w.prefix, w.plan, n);
    RunConcat(session.machine, entered, calls + o, [Act(w.prefix[n])]);
    RunConcat(session.machine, entered, calls, o);
    FailedPrefixFails(session.machine, entered, w.prefix, w.plan, n + 1);
    ok := true;
    if due {
      ok := session.Invoke(Override(w.plan.value.override));
    }
    if ok {
      ok := session.Invoke(Act(w.prefix[n]));
    }
  }

  lemma PrefixCallsNext(prefix: seq<int>, plan: Option<Plan>, n: nat)
    requires n < |prefix|
    ensures PrefixCalls(prefix, plan, n + 1) == PrefixCalls(prefix, plan, n) + (DueAt(plan, n) + [Act(prefix[n])])
  {
  }

  lemma FailureIsFinal<S>(m: Machine<S>, s: S, a: seq<Call>, more: seq<Call>)
    requires Run(m, s, a).None?
    ensures Run(m, s, a + more).None?
  {
    RunConcat(m, s, a, more);
  }

  lemma {:induction false} FailedPrefixFails<S>(m: Machine<S>, s: S, prefix: seq<int>, plan: Option<Plan>, n: nat)
    requires n <= |prefix|
    ensures Run(m, s, PrefixCalls(prefix, plan, n)).None? ==> Run(m, s, PrefixCalls(prefix, plan, |prefix|)).None?
    decreases |prefix| - n
  {
    if n < |prefix| && Run(m, s, PrefixCalls(prefix, plan, n)).None? {
      PrefixCallsNext(prefix, plan, n);
      FailureIsFinal(m, s, PrefixCalls(prefix, plan, n), DueAt(plan, n) + [Act(prefix[n])]);
      FailedPrefixFails(m, s, prefix, plan, n + 1);
    }
  }

  /** `_WorkerRuntime.execute` in bootstrap mode. */
  method ExecuteBootstrapStep<S>(session: Session<S>, w: WorkItem) returns (r: Outcome<S>)
    modifies session
    ensures r == Execute(session.machine, old(session.state), w)
    ensures r.Stepped? ==> session.state == r.settled
    ensures r.Stepped? && w.key.None? ==> session.log == old(session.log) + StepCalls(w, r.autos)
  {
    var ok := BootstrapReach(session, w);
    if !ok { return Fault; }
    r := ResolveAndSettle(session, w);
    if r.Stepped? {
      JoinCalls(old(session.log), BootstrapCalls(w), LateOverride(w), LastCalls(w), Acts(r.autos));
    }
  }

  lemma JoinCalls(a: seq<Call>, b: seq<Call>, c: seq<Call>, d: seq<Call>, e: seq<Call>)
    ensures a + b + c + d + e == a + (b + (c + d) + e)
  {
  }

  /** Everything the worker does for an item that settles after `autos`. */
  function StepCalls(w: WorkItem, autos: seq<int>): seq<Call> {
    BootstrapCalls(w) + ResolveCalls(w) + Acts(autos)
  }

  function ResolveCalls(w: WorkItem): seq<Call> {
    LateOverride(w) + LastCalls(w)
  }

  /** An override that was not due inside the prefix comes right before the new action. */
  function LateOverride(w: WorkItem): seq<Call> {
    if AppliesAtEnd(w) then [Override(w.plan.value.override)] else []
  }

  function LastCalls(w: WorkItem): seq<Call> {
    if w.resolve.None? then [] else if w.choiceIsMap then [Enter(w.resolve.value)] else [Act(w.resolve.value)]
  }

  method ResolveAndSettle<S>(session: Session<S>, w: WorkItem) returns (r: Outcome<S>)
    modifies session
    ensures r == ExecuteFrom(session.machine, old(session.state), w)
    ensures r.Stepped? ==> session.state == r.settled
    ensures r.Stepped? && w.key.None? ==>
            session.log == old(session.log) + LateOverride(w) + LastCalls(w) + Acts(r.autos)
  {
    var m, reach := session.machine, session.state;
    if m.boundary(reach) != w.target { return Mismatch; }
    if AppliesAtEnd(w) {
      if m.boundary(reach) != EventChoice { return Fault; }
      var ok := session.Invoke(Override(w.plan.value.override));
      if !ok { return Fault; }
    }
    r := StepAndDrain(session, w, m.legal(reach));
  }

  method StepAndDrain<S>(session: Session<S>, w: WorkItem, legal: seq<Action>) returns (r: Outcome<S>)
    modifies session
    ensures r == ResolveFrom(session.machine, legal, old(session.state), w)
    ensures r.Stepped? ==> session.state == r.settled
    ensures r.Stepped? && w.key.None? ==> session.log == old(session.log) + LastCalls(w) + Acts(r.autos)
  {
    if w.resolve.None? { return Reached(session.state); }
    var id := ResolvedId(legal, w);
    if id.None? { return Fault; }
    var ok := session.Invoke(if w.choiceIsMap then Enter(id.value) else Act(id.value));
    if !ok { return Fault; }
    var autos := DrainTrivialRewardFrontier(session, DEFAULT_MAX_AUTO_ACTIONS);
    r := if autos.None? then Fault else Stepped(session.state, autos.value);
  }

  // ---- What a bootstrap step comes to --------------------------------------------------------------------

  /** The state the new action is taken in: the one reached, overridden if the override is due at its end. */
  ghost predicate Readied<S>(m: Machine<S>, w: WorkItem, reach: S, s: S) {
    && m.boundary(reach) == w.target
    && if w.plan.Some? && w.plan.value.applyBefore == |w.prefix|
       then m.boundary(reach) == EventChoice && m.override(reach, w.plan.value.override) == Some(s)
       else s == reach
  }

  /** The action named: by its id, or by its key and ordinal among what was published where it was reached. */
  ghost predicate Names<S>(m: Machine<S>, w: WorkItem, reach: S, id: int) {
    if w.key.Some? then Decode(m.legal(reach), w.key.value.0, w.key.value.1) == Some(id) else w.resolve == Some(id)
  }

  /** The named action leads from `s` to `t`, and from there the rewards nobody has to decide are taken. */
  ghost predicate Moves<S>(m: Machine<S>, w: WorkItem, reach: S, s: S, id: int, t: S, u: S, autos: seq<int>) {
    && Readied(m, w, reach, s) && Names(m, w, reach, id)
    && (if w.choiceIsMap then m.enter(s, id) else m.step(s, id)) == Some(t)
    && Settles(m, t, u, autos)
  }

  /**
   A bootstrap step reports exactly the settled state: no trivial TAKE is left there, and the hidden
   steps are the forced path from the state the named action leads to.
   */
  lemma SteppedIff<S(!new)>(m: Machine<S>, junk: S, w: WorkItem, u: S, autos: seq<int>)
    ensures Execute(m, junk, w) == Stepped(u, autos) <==>
            && w.resolve.Some? && Bootstrap(m, junk, w).Some?
            && exists s, id, t :: Moves(m, w, Bootstrap(m, junk, w).value, s, id, t, u, autos)
    ensures Execute(m, junk, w) == Stepped(u, autos) ==> Takes(m, u) == []
  {
    if Execute(m, junk, w) == Stepped(u, autos) {
      StepHasMoved(m, junk, w, u, autos);
    }
    if w.resolve.Some? && Bootstrap(m, junk, w).Some? {
      forall s, id, t | Moves(m, w, Bootstrap(m, junk, w).value, s, id, t, u, autos)
        ensures Execute(m, junk, w) == Stepped(u, autos)
      {
        DrainSettles(m, t, u, autos);
      }
    }
  }

  lemma StepHasMoved<S(!new)>(m: Machine<S>, junk: S, w: WorkItem, u: S, autos: seq<int>)
    requires Execute(m, junk, w) == Stepped(u, autos)
    ensures w.resolve.Some? && Bootstrap(m, junk, w).Some? && Takes(m, u) == []
    ensures exists s, id, t :: Moves(m, w, Bootstrap(m, junk, w).value, s, id, t, u, autos)
  {
    var reach := Bootstrap(m, junk, w).value;
    var s := if AppliesAtEnd(w) then m.override(reach, w.plan.value.override).value else reach;
    var id := ResolvedId(m.legal(reach), w).value;
    var t := (if w.choiceIsMap then m.enter(s, id) else m.step(s, id)).value;
    DrainSettles(m, t, u, autos);
    assert Moves(m, w, reach, s, id, t, u, autos);
  }

  /** The other reports: a step is a mismatch exactly at another boundary, and holds exactly without an action. */
  lemma ReachedOrMismatchIff<S>(m: Machine<S>, junk: S, w: WorkItem, s: S)
    ensures Execute(m, junk, w) == Reached(s) <==>
            w.resolve.None? && Bootstrap(m, junk, w).Some? && Readied(m, w, Bootstrap(m, junk, w).value, s)
    ensures Execute(m, junk, w) == Mismatch <==>
            Bootstrap(m, junk, w).Some? && m.boundary(Bootstrap(m, junk, w).value) != w.target
  {
  }

  // ---- The coordinator's side ---------------------------------------------------------------------------

  /** The work item `_prepare_event_branch` builds for `chosen` below `v`. */
  function ItemFor(v: View, chosen: Option<int>, plan: Option<Plan>): WorkItem
    requires v.snapshot.Some?
  {
    WorkItem(v.boundary == MapSelect, v.snapshot.value, v.roomId, v.prefix, v.boundary, chosen, None, plan)
  }

  /** `_build_child_view`. */
  function BuildChildView(parent: View, chosen: int, autos: seq<int>, boundary: Boundary, legal: seq<Action>): View {
    if parent.boundary == MapSelect then
      View(parent.snapshot, Some(chosen), autos, boundary, legal, boundary == MapSelect)
    else
      View(parent.snapshot, parent.roomId, parent.prefix + [chosen] + autos, boundary, legal, boundary == MapSelect)
  }

  /** `v` describes state `s`: its coordinates rebuild `s`, and what it publishes is what `s` shows. */
  ghost predicate Describes<S>(m: Machine<S>, junk: S, v: View, plan: Option<Plan>, s: S) {
    && v.snapshot.Some?
    && Bootstrap(m, junk, ItemFor(v, None, plan)) == Some(s)
    && v.boundary == m.boundary(s) && v.legal == m.legal(s)
  }

  // ---- Where the override lands -------------------------------------------------------------------------

  lemma SplicedSnoc(init: seq<int>, last: int, plan: Option<Plan>)
    ensures Spliced(init + [last], plan) == Spliced(init, plan) + DueAt(plan, |init|) + [Act(last)]
  {
    assert init + [last] == init + [last] + [] && Acts([]) == [];
    if plan.Some? && plan.value.applyBefore > |init| {
      ThreeActs(init, last, []);
    } else {
      PrefixGrows(init, last, [], plan);
    }
  }

  lemma {:induction false} PrefixCallsShape(prefix: seq<int>, plan: Option<Plan>, n: nat)
    requires n <= |prefix|
    ensures PrefixCalls(prefix, plan, n) == Spliced(prefix[..n], plan)
  {
    if n > 0 {
      PrefixCallsShape(prefix, plan, n - 1);
      SplicedSnoc(prefix[..n - 1], prefix[n - 1], plan);
      assert prefix[..n] == prefix[..n - 1] + [prefix[n - 1]];
    } else {
      assert prefix[..0] == [] && Acts([]) == [];
    }
  }

  lemma PrefixCallsAreSpliced(prefix: seq<int>, plan: Option<Plan>)
    ensures PrefixCalls(prefix, plan, |prefix|) == Spliced(prefix, plan)
  {
    PrefixCallsShape(prefix, plan, |prefix|);
    assert prefix[..|prefix|] == prefix;
  }

  /** How many calls are overrides. */
  function Overrides(calls: seq<Call>): nat {
    if calls == [] then 0
    else (if calls[0].Override? then 1 else 0) + Overrides(calls[1..])
  }

  lemma {:induction false} OverridesConcat(a: seq<Call>, b: seq<Call>)
    ensures Overrides(a + b) == Overrides(a) + Overrides(b)
  {
    if a == [] {
      assert a + b == b;
    } else {
      assert (a + b)[1..] == a[1..] + b;
      OverridesConcat(a[1..], b);
    }
  }

  lemma {:induction false} ActsHaveNoOverride(ids: seq<int>)
    ensures Overrides(Acts(ids)) == 0
  {
    if ids != [] {
      assert Acts(ids)[1..] == Acts(ids[1..]);
      ActsHaveNoOverride(ids[1..]);
    }
  }

  /**
   The override is applied exactly once, right before the entry it was established at: inside the
   prefix of a deep Branch, or before the new action of the Branch that establishes it.
   */
  lemma OverrideOnceAtItsIndex(w: WorkItem, autos: seq<int>)
    requires !w.choiceIsMap && w.roomId.Some? && w.resolve.Some?
    requires w.plan.Some? && w.plan.value.applyBefore <= |w.prefix|
    ensures Overrides(StepCalls(w, autos)) == 1
    ensures var at := 2 + w.plan.value.applyBefore;
            at < |StepCalls(w, autos)| && StepCalls(w, autos)[at] == Override(w.plan.value.override)
  {
    var k := w.plan.value.applyBefore;
    var before, after := CallsBefore(w, k), CallsAfter(w, k, autos);
    StepCallsSplit(w, autos);
    NoneBefore(w, k);
    NoneAfter(w, k, autos);
    OnlyTheMiddle(before, Override(w.plan.value.override), after);
  }

  function CallsBefore(w: WorkItem, k: nat): (r: seq<Call>)
    requires w.roomId.Some? && k <= |w.prefix|
    ensures |r| == 2 + k
  {
    [Load(w.snapshot), Enter(w.roomId.value)] + Acts(w.prefix[..k])
  }

  function CallsAfter(w: WorkItem, k: nat, autos: seq<int>): seq<Call>
    requires w.resolve.Some? && k <= |w.prefix|
  {
    Acts(w.prefix[k..]) + [Act(w.resolve.value)] + Acts(autos)
  }

  lemma StepCallsSplit(w: WorkItem, autos: seq<int>)
    requires !w.choiceIsMap && w.roomId.Some? && w.resolve.Some?
    requires w.plan.Some? && w.plan.value.applyBefore <= |w.prefix|
    ensures var k := w.plan.value.applyBefore;
            StepCalls(w, autos) == CallsBefore(w, k) + [Override(w.plan.value.override)] + CallsAfter(w, k, autos)
  {
    var k, o, last := w.plan.value.applyBefore, [Override(w.plan.value.override)], [Act(w.resolve.value)];
    var front := [Load(w.snapshot), Enter(w.roomId.value)];
    if k == |w.prefix| {
      assert w.prefix[..k] == w.prefix && Acts(w.prefix[k..]) == [];
      LateJoin(front + Acts(w.prefix), o, last, Acts(autos));
    } else {
      EarlyJoin(front, Acts(w.prefix[..k]), o, Acts(w.prefix[k..]), last, Acts(autos));
    }
  }

  lemma LateJoin(a: seq<Call>, o: seq<Call>, last: seq<Call>, autos: seq<Call>)
    ensures a + (o + last) + autos == a + o + ([] + last + autos)
  {
  }

  lemma EarlyJoin(front: seq<Call>, a: seq<Call>, o: seq<Call>, b: seq<Call>, last: seq<Call>, autos: seq<Call>)
    ensures (front + (a + o + b)) + ([] + last) + autos == (front + a) + o + (b + last + autos)
  {
  }

  lemma NoneBefore(w: WorkItem, k: nat)
    requires w.roomId.Some? && k <= |w.prefix|
    ensures Overrides(CallsBefore(w, k)) == 0
  {
    var front := [Load(w.snapshot), Enter(w.roomId.value)];
    assert front[1..] == [Enter(w.roomId.value)] && front[1..][1..] == [];
    ActsHaveNoOverride(w.prefix[..k]);
    OverridesConcat(front, Acts(w.prefix[..k]));
  }

  lemma NoneAfter(w: WorkItem, k: nat, autos: seq<int>)
    requires w.resolve.Some? && k <= |w.prefix|
    ensures Overrides(CallsAfter(w, k, autos)) == 0
  {
    var last := [Act(w.resolve.value)];
    assert last[1..] == [];
    ActsHaveNoOverride(w.prefix[k..]);
    ActsHaveNoOverride(autos);
    OverridesConcat(Acts(w.prefix[k..]), last);
    OverridesConcat(Acts(w.prefix[k..]) + last, Acts(autos));
  }

  lemma OnlyTheMiddle(before: seq<Call>, o: Call, after: seq<Call>)
    requires Overrides(before) == 0 && Overrides(after) == 0 && o.Override?
    ensures Overrides(before + [o] + after) == 1 && (before + [o] + after)[|before|] == o
  {
    assert [o][1..] == [];
    OverridesConcat(before, [o]);
    OverridesConcat(before + [o], after);
  }

  // ---- Replay equivalence --------------------------------------------------------------------------------

  /** The child's bootstrap makes exactly the calls its parent's worker made. */
  lemma ChildRepeatsTheCalls(v: View, chosen: int, autos: seq<int>, plan: Option<Plan>, boundary: Boundary,
      legal: seq<Action>)
    requires v.snapshot.Some? && boundary != MapSelect
    requires v.boundary == MapSelect ==> plan.None?
    requires v.boundary != MapSelect ==> v.roomId.Some?
    requires plan.Some? ==> plan.value.applyBefore <= |v.prefix|
    ensures BootstrapCalls(ItemFor(BuildChildView(v, chosen, autos, boundary, legal), None, plan))
         == StepCalls(ItemFor(v, Some(chosen), plan), autos)
  {
    if v.boundary != MapSelect {
      PrefixGrows(v.prefix, chosen, autos, plan);
    }
  }

  /** The child's prefix replays the parent's, then the override if it is due, then the new steps. */
  lemma PrefixGrows(prefix: seq<int>, chosen: int, autos: seq<int>, plan: Option<Plan>)
    requires plan.Some? ==> plan.value.applyBefore <= |prefix|
    ensures Spliced(prefix + [chosen] + autos, plan)
         == Spliced(prefix, plan)
            + ((if plan.Some? && plan.value.applyBefore == |prefix| then [Override(plan.value.override)] else [])
                + [Act(chosen)])
            + Acts(autos)
  {
    var longer := prefix + [chosen] + autos;
    if plan.None? {
      ThreeActs(prefix, chosen, autos);
    } else {
      var k := plan.value.applyBefore;
      assert longer[..k] == prefix[..k];
      assert longer[k..] == prefix[k..] + [chosen] + autos;
      ThreeActs(prefix[k..], chosen, autos);
      if k == |prefix| {
        assert prefix[..k] == prefix && Acts(prefix[k..]) == [];
      }
    }
  }

  lemma ThreeActs(a: seq<int>, id: int, b: seq<int>)
    ensures Acts(a + [id] + b) == Acts(a) + [Act(id)] + Acts(b)
  {
  }

  /** One step down: if the parent's view describes `s`, the child's view describes where it settled. */
  lemma ChildDescribesSettledState<S>(m: Machine<S>, junk: S, v: View, s: S, chosen: int, plan: Option<Plan>)
    requires Describes(m, junk, v, plan, s)
    requires v.boundary == MapSelect ==> plan.None?
    requires plan.Some? ==> plan.value.applyBefore <= |v.prefix|
    requires Execute(m, junk, ItemFor(v, Some(chosen), plan)).Stepped?
    ensures var out := Execute(m, junk, ItemFor(v, Some(chosen), plan));
            var child := BuildChildView(v, chosen, out.autos, m.boundary(out.settled), m.legal(out.settled));
            !child.chainBlocked ==> Describes(m, junk, child, plan, out.settled)
  {
    var w := ItemFor(v, Some(chosen), plan);
    var out := Execute(m, junk, w);
    var child := BuildChildView(v, chosen, out.autos, m.boundary(out.settled), m.legal(out.settled));
    assert BootstrapCalls(w) == BootstrapCalls(ItemFor(v, None, plan));
    if !child.chainBlocked {
      ChildRepeatsTheCalls(v, chosen, out.autos, plan, m.boundary(out.settled), m.legal(out.settled));
      StepCallsRun(m, junk, w, s);
    }
  }

  /** The calls behind a settled outcome do lead to it. */
  lemma StepCallsRun<S>(m: Machine<S>, junk: S, w: WorkItem, s: S)
    requires Bootstrap(m, junk, w) == Some(s) && w.key.None? && w.resolve.Some?
    requires ExecuteFrom(m, s, w).Stepped?
    ensures Run(m, junk, StepCalls(w, ExecuteFrom(m, s, w).autos)) == Some(ExecuteFrom(m, s, w).settled)
  {
    var out := ExecuteFrom(m, s, w);
    var o := if AppliesAtEnd(w) then [Override(w.plan.value.override)] else [];
    var last := if w.choiceIsMap then [Enter(w.resolve.value)] else [Act(w.resolve.value)];
    var s1 := (if AppliesAtEnd(w) then m.override(s, w.plan.value.override) else Some(s)).value;
    var t := (if w.choiceIsMap then m.enter(s1, w.resolve.value) else m.step(s1, w.resolve.value)).value;
    assert Run(m, s, o) == Some(s1);
    assert Run(m, s1, last) == Some(t);
    RunConcat(m, s, o, last);
    DrainedStateIsStepped(m, t, DEFAULT_MAX_AUTO_ACTIONS);
    RunConcat(m, junk, BootstrapCalls(w), ResolveCalls(w));
    RunConcat(m, junk, BootstrapCalls(w) + ResolveCalls(w), Acts(out.autos));
  }

  /**
   A chain of Event Branches below `v`: each level validates that its parent is at an event, runs a
   worker, and publishes the child view.  `None` if any level is refused or faults.
   */
  function Descend<S>(m: Machine<S>, junk: S, v: View, s: S, plan: Plan, actions: seq<int>): Option<(View, S)>
    decreases |actions|
  {
    if actions == [] then Some((v, s))
    else if v.boundary != EventChoice || v.snapshot.None? then None
    else
      var out := Execute(m, junk, ItemFor(v, Some(actions[0]), Some(plan)));
      if !out.Stepped? then None
      else
        var child := BuildChildView(v, actions[0], out.autos, m.boundary(out.settled), m.legal(out.settled));
        Descend(m, junk, child, out.settled, plan, actions[1..])
  }

  lemma {:induction false} DescendDescribes<S>(m: Machine<S>, junk: S, v: View, s: S, plan: Plan, actions: seq<int>)
    requires Describes(m, junk, v, Some(plan), s) && plan.applyBefore <= |v.prefix|
    requires v.boundary != MapSelect
    requires Descend(m, junk, v, s, plan, actions).Some?
    ensures var (leaf, settled) := Descend(m, junk, v, s, plan, actions).value;
            && leaf.boundary == m.boundary(settled)
            && (leaf.boundary != MapSelect ==> Describes(m, junk, leaf, Some(plan), settled))
            && leaf.snapshot == v.snapshot && leaf.roomId == v.roomId
            && v.prefix <= leaf.prefix
            && (actions != [] ==> |v.prefix| < |leaf.prefix|)
    decreases |actions|
  {
    if actions != [] {
      var out := Execute(m, junk, ItemFor(v, Some(actions[0]), Some(plan)));
      var child := BuildChildView(v, actions[0], out.autos, m.boundary(out.settled), m.legal(out.settled));
      ChildDescribesSettledState(m, junk, v, s, actions[0], Some(plan));
      if child.boundary != MapSelect {
        DescendDescribes(m, junk, child, out.settled, plan, actions[1..]);
      } else {
        assert actions[1..] == [];
      }
    }
  }

  /**
   Replay equivalence at every depth.  Take a root view that describes the live event state, the
   plan established there, and any chain of Event Branches whose workers all succeeded.  Then, for a
   worker process in any state whatever: bootstrapping the leaf's coordinates gives exactly the state
   the last worker settled in; that state is also the live state with the override and then the
   chain's own steps applied directly; and branching again from the leaf cannot report a mismatch.
   */
  lemma ReplayAtEveryDepth<S>(m: Machine<S>, junk: S, other: S, root: View, live: S, plan: Plan, actions: seq<int>,
      next: int)
    requires Describes(m, junk, root, None, live) && root.boundary == EventChoice
    requires plan.applyBefore == |root.prefix| && actions != []
    requires Descend(m, junk, root, live, plan, actions).Some?
    ensures var (leaf, settled) := Descend(m, junk, root, live, plan, actions).value;
            leaf.boundary != MapSelect ==>
              && leaf.snapshot.Some?
              && root.prefix <= leaf.prefix
              && Bootstrap(m, other, ItemFor(leaf, Some(next), Some(plan))) == Some(settled)
              && Run(m, live, [Override(plan.override)] + Acts(leaf.prefix[|root.prefix|..])) == Some(settled)
              && Overrides(BootstrapCalls(ItemFor(leaf, Some(next), Some(plan)))) == 1
              && !Execute(m, other, ItemFor(leaf, Some(next), Some(plan))).Mismatch?
  {
    assert Describes(m, junk, root, Some(plan), live);
    DescendDescribes(m, junk, root, live, plan, actions);
    var (leaf, settled) := Descend(m, junk, root, live, plan, actions).value;
    if leaf.boundary != MapSelect {
      var w := ItemFor(leaf, Some(next), Some(plan));
      LoadForgets(m, junk, other, BootstrapCalls(w));
      assert BootstrapCalls(w) == BootstrapCalls(ItemFor(leaf, None, Some(plan)));
      OverrideOnceAtItsIndex(w, []);
      OverridesConcat(BootstrapCalls(w), ResolveCalls(w));
      assert StepCalls(w, []) == BootstrapCalls(w) + ResolveCalls(w);
      assert ResolveCalls(w)[1..] == [];
      DirectRun(m, junk, root, live, plan, leaf, settled);
    }
  }

  lemma DirectRun<S>(m: Machine<S>, junk: S, root: View, live: S, plan: Plan, leaf: View, settled: S)
    requires Describes(m, junk, root, None, live) && root.boundary != MapSelect
    requires plan.applyBefore == |root.prefix| < |leaf.prefix| && root.prefix <= leaf.prefix
    requires leaf.snapshot == root.snapshot && leaf.roomId == root.roomId && leaf.boundary != MapSelect
    requires Bootstrap(m, junk, ItemFor(leaf, None, Some(plan))) == Some(settled)
    ensures Run(m, live, [Override(plan.override)] + Acts(leaf.prefix[|root.prefix|..])) == Some(settled)
  {
    var tail := [Override(plan.override)] + Acts(leaf.prefix[|root.prefix|..]);
    LeafCalls(root, leaf, plan);
    RunConcat(m, junk, BootstrapCalls(ItemFor(root, None, None)), tail);
  }

  /** The leaf's bootstrap is the root's, then the override, then the chain's own steps. */
  lemma LeafCalls(root: View, leaf: View, plan: Plan)
    requires root.snapshot.Some? && root.boundary != MapSelect && leaf.boundary != MapSelect
    requires plan.applyBefore == |root.prefix| < |leaf.prefix| && root.prefix <= leaf.prefix
    requires root.roomId.Some? && leaf.snapshot == root.snapshot && leaf.roomId == root.roomId
    ensures BootstrapCalls(ItemFor(leaf, None, Some(plan)))
         == BootstrapCalls(ItemFor(root, None, None)) + ([Override(plan.override)] + Acts(leaf.prefix[|root.prefix|..]))
  {
    var k := |root.prefix|;
    assert leaf.prefix[..k] == root.prefix;
    JoinFour([Load(root.snapshot.value), Enter(root.roomId.value)], Acts(root.prefix), [Override(plan.override)],
             Acts(leaf.prefix[k..]));
  }

  lemma JoinFour(a: seq<Call>, b: seq<Call>, c: seq<Call>, d: seq<Call>)
    ensures a + (b + c + d) == (a + b) + (c + d)
  {
  }

  /** A small emulator: every state but 0 is an event, stepping adds the id, an override adds 100. */
  const WALK: Machine<int> := Machine(
    (snapshot: string) => Some(0),
    (s: int, room: int) => Some(10),
    (s: int, id: int) => Some(s + id),
    (s: int, o: RngState) => Some(s + 100),
    (s: int) => if s == 0 then MapSelect else EventChoice,
    (s: int) => [],
    (s: int) => "")

  /** The theorem has instances: one Branch below an event, rebuilt from its coordinates. */
  lemma {:induction false} ReplayHappens(plan: Plan)
    requires plan.applyBefore == 0
    ensures var root := View(Some(""), Some(1), [], EventChoice, [], false);
            && Describes(WALK, 0, root, None, 10)
            && Descend(WALK, 0, root, 10, plan, [5]) == Some((root.(prefix := [5]), 115))
            && Bootstrap(WALK, 7, ItemFor(root.(prefix := [5]), Some(3), Some(plan))) == Some(115)
  {
    var root := View(Some(""), Some(1), [], EventChoice, [], false);
    var w := ItemFor(root, Some(5), Some(plan));
    BootstrapIsStepwise(WALK, 0, ItemFor(root, None, None));
    BootstrapIsStepwise(WALK, 0, w);
    assert Acts([]) == [];
    assert Execute(WALK, 0, w) == Stepped(115, []);
    var leaf := BuildChildView(root, 5, [], EventChoice, []);
    assert leaf == View(Some(""), Some(1), [5], EventChoice, [], false);
    assert [5][1..] == [];
    assert Descend(WALK, 0, root, 10, plan, [5]) == Descend(WALK, 0, leaf, 115, plan, []);
    ReplayAtEveryDepth(WALK, 0, 7, root, 10, plan, [5], 3);
  }
}
