/**
 The emulator as an abstract deterministic machine, one session driving it
 (Run/whole_run_session.py), and the drain of trivial reward actions
 (Run/reward_auto_progress.py).

 A machine is a record of functions over some state type; every statement is for all machines.
 A call that raises is `None`.  Sessions keep a ghost log of their calls.
 */
module Emulator {
  import opened Wrappers
  import opened LegalActions
  import opened EventRng

  datatype Boundary =
    | RunTerminal | PendingChoice | EventChoice | RestChoice | ShopChoice | RewardSelect | MapSelect | Stable

  datatype Machine<!S> = Machine(
    load: string -> Option<S>,
    enter: (S, int) -> Option<S>,
    step: (S, int) -> Option<S>,
    override: (S, RngState) -> Option<S>,
    boundary: S -> Boundary,
    legal: S -> seq<Action>,
    save: S -> string)

  datatype Call = Load(snapshot: string) | Enter(room: int) | Act(actionId: int) | Override(state: RngState)

  function Perform<S>(m: Machine<S>, s: S, call: Call): Option<S> {
    match call
    case Load(snapshot) => m.load(snapshot)
    case Enter(room) => m.enter(s, room)
    case Act(actionId) => m.step(s, actionId)
    case Override(state) => m.override(s, state)
  }

  function Run<S>(m: Machine<S>, s: S, calls: seq<Call>): Option<S>
    decreases |calls|
  {
    if calls == [] then Some(s)
    else
      var t := Perform(m, s, calls[0]);
      if t.None? then None else Run(m, t.value, calls[1..])
  }

  lemma {:induction false} RunConcat<S>(m: Machine<S>, s: S, a: seq<Call>, b: seq<Call>)
    ensures Run(m, s, a + b) == (var t := Run(m, s, a); if t.None? then None else Run(m, t.value, b))
    decreases |a|
  {
    if a == [] {
      assert a + b == b;
    } else {
      assert (a + b)[1..] == a[1..] + b;
      var t := Perform(m, s, a[0]);
      if t.Some? {
        RunConcat(m, t.value, a[1..], b);
      }
    }
  }

  /** A run that starts by loading does not depend on what the process did before. */
  lemma LoadForgets<S>(m: Machine<S>, s: S, t: S, calls: seq<Call>)
    requires calls != [] && calls[0].Load?
    ensures Run(m, s, calls) == Run(m, t, calls)
  {
  }

  function Acts(ids: seq<int>): seq<Call> {
    seq(|ids|, i requires 0 <= i < |ids| => Act(ids[i]))
  }

  lemma ActsConcat(a: seq<int>, b: seq<int>)
    ensures Acts(a + b) == Acts(a) + Acts(b)
  {
  }

  class Session<S> {
    const machine: Machine<S>
    var state: S
    ghost var log: seq<Call>

    constructor (m: Machine<S>, initial: S)
      ensures machine == m && state == initial && log == []
    {
      machine, state, log := m, initial, [];
    }

    /** One emulator call.  When it raises, the session must be considered lost. */
    method Invoke(call: Call) returns (ok: bool)
      modifies this
      ensures ok <==> Perform(machine, old(state), call).Some?
      ensures ok ==> Some(state) == Perform(machine, old(state), call) && log == old(log) + [call]
    {
      var next := Perform(machine, state, call);
      if next.None? { return false; }
      log := log + [call];
      state := next.value;
      ok := true;
    }
  }

  // ---- Draining trivial rewards ---------------------------------------------------------------------

  const TRIVIAL_POTION_TAKE_ACTION := "choice_reward_potion_take"
  const DEFAULT_MAX_AUTO_ACTIONS: nat := 32

  predicate IsTake(a: Action) {
    a.available && a.actionType == TRIVIAL_POTION_TAKE_ACTION
  }

  function TakeIds(actions: seq<Action>): seq<int> {
    if actions == [] then []
    else TakeIds(actions[..|actions| - 1]) + if IsTake(actions[|actions| - 1]) then [actions[|actions| - 1].id] else []
  }

  /** The trivial TAKE actions published at a frontier. */
  function Takes<S>(m: Machine<S>, s: S): seq<int> {
    if m.boundary(s) == RewardSelect then TakeIds(m.legal(s)) else []
  }

  lemma {:induction false} TakeIdsAre(actions: seq<Action>, id: int)
    ensures id in TakeIds(actions) <==>
            exists a <- actions :: a.id == id && a.available && a.actionType == "choice_reward_potion_take"
  {
    if actions != [] {
      var n := |actions| - 1;
      TakeIdsAre(actions[..n], id);
      assert actions == actions[..n] + [actions[n]];
    }
  }

  /** An action is taken for trivial exactly if it is an available potion TAKE of a reward frontier. */
  lemma TakesAre<S>(m: Machine<S>, s: S, id: int)
    ensures id in Takes(m, s) <==>
            && m.boundary(s) == RewardSelect
            && exists a <- m.legal(s) :: a.id == id && a.available && a.actionType == "choice_reward_potion_take"
  {
    TakeIdsAre(m.legal(s), id);
  }

  /**
   `autos` is the forced way through a reward frontier: every entry was the only TAKE where it was
   taken, and none is left.
   */
  ghost predicate ForcedPath<S>(m: Machine<S>, s: S, autos: seq<int>)
    decreases |autos|
  {
    if autos == [] then Takes(m, s) == []
    else
      && Takes(m, s) == [autos[0]]
      && m.step(s, autos[0]).Some?
      && ForcedPath(m, m.step(s, autos[0]).value, autos[1..])
  }

  /** What draining returns; `None` when it raises. */
  function Drain<S>(m: Machine<S>, s: S, cap: nat): Option<(S, seq<int>)>
    decreases cap
  {
    var takes := Takes(m, s);
    if takes == [] then Some((s, []))
    else if |takes| != 1 || cap == 0 then None
    else
      var t := m.step(s, takes[0]);
      if t.None? then None
      else
        var rest := Drain(m, t.value, cap - 1);
        if rest.None? then None else Some((rest.value.0, takes + rest.value.1))
  }

  method DrainTrivialRewardFrontier<S>(session: Session<S>, cap: int) returns (r: Option<seq<int>>)
    modifies session
    ensures cap <= 0 ==> r.None? && session.state == old(session.state)
    ensures cap > 0 ==> Drained(Drain(session.machine, old(session.state), cap), r, session, old(session.log))
  {
    if cap <= 0 { return None; }
    var consumed: seq<int> := [];
    ghost var goal, log0 := Drain(session.machine, session.state, cap), session.log;
    PrependTwice([], [], goal);
    for n := 0 to cap
      invariant session.log == log0 + Acts(consumed)
      invariant goal == Prepend(consumed, Drain(session.machine, session.state, cap - n))
    {
      var taken := DrainTurn(session, consumed, cap - n, goal, log0);
      if taken.None? { return None; }
      if taken.value == [] { return Some(consumed); }
      consumed := consumed + taken.value;
    }
    var left := PublishedTakes(session);
    assert consumed + [] == consumed;
    r := if left == [] then Some(consumed) else None;
  }

  /** `r` and the session are what `d` says, and the log grew by exactly the returned steps. */
  ghost predicate Drained<S>(d: Option<(S, seq<int>)>, r: Option<seq<int>>, session: Session<S>, log0: seq<Call>)
    reads session
  {
    && (r.Some? <==> d.Some?)
    && (r.Some? ==> d.value == (session.state, r.value) && session.log == log0 + Acts(r.value))
  }

  /** One turn of the loop: stop (`None` raises, `[]` is settled) or go on with one more step. */
  method DrainTurn<S>(session: Session<S>, consumed: seq<int>, cap: nat,
      ghost goal: Option<(S, seq<int>)>, ghost log0: seq<Call>)
    returns (taken: Option<seq<int>>)
    requires session.log == log0 + Acts(consumed) && cap > 0
    requires goal == Prepend(consumed, Drain(session.machine, session.state, cap))
    modifies session
    ensures taken.None? ==> goal.None?
    ensures taken.Some? ==> session.log == log0 + Acts(consumed + taken.value)
    ensures taken == Some([]) ==> goal == Some((session.state, consumed))
    ensures taken.Some? && taken.value != [] ==>
              goal == Prepend(consumed + taken.value, Drain(session.machine, session.state, cap - 1))
  {
    ghost var before := session.state;
    taken := TakeIfTrivial(session);
    if taken.Some? {
      if taken.value == [] {
        assert consumed + [] == consumed;
      } else {
        DrainUnfolds(session.machine, before, session.state, taken.value[0], cap);
        PrependTwice(consumed, taken.value, Drain(session.machine, session.state, cap - 1));
        ActsConcat(consumed, taken.value);
      }
    }
  }

  /** One turn of the drain: the ids stepped (none or one), or `None` when it raises. */
  method TakeIfTrivial<S>(session: Session<S>) returns (taken: Option<seq<int>>)
    modifies session
    ensures taken.None? ==>
              var takes := Takes(session.machine, old(session.state));
              |takes| > 1 || (|takes| == 1 && session.machine.step(old(session.state), takes[0]).None?)
    ensures taken.Some? ==> taken.value == Takes(session.machine, old(session.state))
    ensures taken == Some([]) ==> session.state == old(session.state) && session.log == old(session.log)
    ensures taken.Some? && taken.value != [] ==>
              && taken.value == [taken.value[0]]
              && session.machine.step(old(session.state), taken.value[0]) == Some(session.state)
              && session.log == old(session.log) + Acts(taken.value)
  {
    var takes := PublishedTakes(session);
    if takes == [] { return Some([]); }
    if |takes| != 1 { return None; }
    var ok := session.Invoke(Act(takes[0]));
    taken := if ok then Some(takes) else None;
  }

  lemma DrainUnfolds<S>(m: Machine<S>, s: S, t: S, id: int, cap: nat)
    requires Takes(m, s) == [id] && m.step(s, id) == Some(t) && cap > 0
    ensures Drain(m, s, cap) == Prepend([id], Drain(m, t, cap - 1))
  {
  }

  method PublishedTakes<S>(session: Session<S>) returns (takes: seq<int>)
    ensures takes == Takes(session.machine, session.state)
  {
    takes := [];
    if session.machine.boundary(session.state) != RewardSelect { return; }
    var actions := session.machine.legal(session.state);
    for n := 0 to |actions|
      invariant takes == TakeIds(actions[..n])
    {
      assert actions[..n + 1][..n] == actions[..n];
      if IsTake(actions[n]) {
        takes := takes + [actions[n].id];
      }
    }
    assert actions[..|actions|] == actions;
  }

  function Prepend<S>(front: seq<int>, d: Option<(S, seq<int>)>): Option<(S, seq<int>)> {
    if d.None? then None else Some((d.value.0, front + d.value.1))
  }

  lemma PrependTwice<S>(a: seq<int>, b: seq<int>, d: Option<(S, seq<int>)>)
    ensures Prepend(a, Prepend(b, d)) == Prepend(a + b, d)
    ensures Prepend([], d) == d
  {
    if d.Some? {
      assert a + (b + d.value.1) == (a + b) + d.value.1;
      assert [] + d.value.1 == d.value.1;
    }
  }

  /**
   The drain takes exactly the forced path, at most `cap` actions long, and leaves no trivial TAKE;
   it raises exactly when there is no such path.
   */
  lemma {:induction false} DrainIsTheForcedPath<S>(m: Machine<S>, s: S, cap: nat, autos: seq<int>)
    ensures ForcedPath(m, s, autos) && |autos| <= cap <==>
            Drain(m, s, cap).Some? && Drain(m, s, cap).value.1 == autos
    ensures ForcedPath(m, s, autos) ==> Run(m, s, Acts(autos)).Some? && Takes(m, Run(m, s, Acts(autos)).value) == []
    decreases cap, |autos|
  {
    if autos != [] && Takes(m, s) == [autos[0]] && m.step(s, autos[0]).Some? {
      assert Acts(autos)[1..] == Acts(autos[1..]);
      var t := m.step(s, autos[0]).value;
      if cap > 0 {
        DrainIsTheForcedPath(m, t, cap - 1, autos[1..]);
        assert autos == [autos[0]] + autos[1..];
      } else {
        DrainIsTheForcedPath(m, t, 0, autos[1..]);
      }
    }
    if cap > 0 && Drain(m, s, cap).Some? && Drain(m, s, cap).value.1 == autos && Takes(m, s) != [] {
      var t := m.step(s, Takes(m, s)[0]).value;
      var rest := Drain(m, t, cap - 1).value.1;
      DrainIsTheForcedPath(m, t, cap - 1, rest);
      assert autos[0] == Takes(m, s)[0] && autos[1..] == rest;
    }
  }

  /** The settled state is the frontier state with the returned actions stepped. */
  lemma {:induction false} DrainedStateIsStepped<S>(m: Machine<S>, s: S, cap: nat)
    requires Drain(m, s, cap).Some?
    ensures Run(m, s, Acts(Drain(m, s, cap).value.1)) == Some(Drain(m, s, cap).value.0)
    ensures Takes(m, Drain(m, s, cap).value.0) == []
    decreases cap
  {
    if Takes(m, s) != [] {
      var t := m.step(s, Takes(m, s)[0]).value;
      DrainedStateIsStepped(m, t, cap - 1);
      assert Acts(Drain(m, s, cap).value.1)[1..] == Acts(Drain(m, t, cap - 1).value.1);
    }
  }

  /** From `t` the only TAKE of each frontier is taken, 32 at most, until `u` publishes none. */
  ghost predicate Settles<S>(m: Machine<S>, t: S, u: S, autos: seq<int>) {
    |autos| <= 32 && ForcedPath(m, t, autos) && Run(m, t, Acts(autos)) == Some(u)
  }

  /** A new frontier is drained to where it settles, and to nowhere if it does not. */
  lemma DrainSettles<S>(m: Machine<S>, t: S, u: S, autos: seq<int>)
    ensures Drain(m, t, DEFAULT_MAX_AUTO_ACTIONS) == Some((u, autos)) <==> Settles(m, t, u, autos)
    ensures Settles(m, t, u, autos) ==> Takes(m, u) == []
  {
    DrainIsTheForcedPath(m, t, DEFAULT_MAX_AUTO_ACTIONS, autos);
    if Drain(m, t, DEFAULT_MAX_AUTO_ACTIONS).Some? { DrainedStateIsStepped(m, t, DEFAULT_MAX_AUTO_ACTIONS); }
  }
}
