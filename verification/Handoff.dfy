/**
 The RUN/COMBAT hand-off of one whole-run instance (lease methods of Run/whole_run_session.py and
 Combat/live_combat_session.py, `enter_combat_phase`, `leave_combat_phase`, `commit_action`,
 `close` and poisoning in API/instance_whole_run.py).

 Every call into foreign code may raise; the arguments of an operation say where.  `After` gives the
 state each operation ends in, by outcome.  The classes do it step by step through `GameAccess`, and
 `HandoffIsALegalLeaseRun` says the same states come out of a legal run of lease calls.
 */
module Handoff {
  import opened Wrappers
  import opened LeaseAccess
  import opened Identifiers
  import TextIds

  /** A combat phase as far as leases go: its session's identity, its lease, its fault gate. */
  datatype Phase = Phase(holder: Holder, lease: Option<GameLease>, sessionFaulted: bool)

  datatype Inst = Inst(
    access: Access, runHolder: Holder, runLease: Option<GameLease>, phase: Option<Phase>,
    faulted: bool, closed: bool, nextHolder: Holder, rootDecision: Option<string>, counter: nat)

  /** Foreign calls inside `enter_combat_phase`; the last one comes after the lease commit. */
  datatype EnterPoint = BuildSession | AdoptBoard | AdoptPhase | PublishDecision | AcceptCombatLease

  /** Foreign calls inside `leave_combat_phase`; the last three come after the lease commit. */
  datatype LeavePoint = ReleaseBranches | ClosePhase | AcceptRunLease | DrainRewards | CaptureMap

  /** How a combat step ends: refused, faulted half-way, advanced but unrecordable, or fine. */
  datatype StepResult = Refused | ActionFaulted | AdvancedThenRaised | Advanced(completed: bool)

  datatype Op =
    /** A root commit outside combat; `raises` if stepping or draining did. */
    | CommitRun(raises: bool)
    /** A root commit that chooses a combat room. */
    | CommitIntoCombat(chooseRaises: bool, enterFaults: set<EnterPoint>)
    | CommitCombat(step: StepResult, leaveFaults: set<LeavePoint>, recordRaises: bool)
    | Close

  /** Between operations: who may mutate the game. */
  predicate HandoffOk(s: Inst) {
    && Shape(s.access)
    && s.access.state != Transferring
    && s.runHolder < s.nextHolder
    && (s.closed ==> s.phase.None? && s.runLease.None? && s.access.holder.None?)
    && (s.faulted ==> s.access.state == Poisoned && s.phase.None? && s.runLease.None?)
    && (!s.closed && s.phase.Some? ==>
          && s.phase.value.holder != s.runHolder && s.phase.value.holder < s.nextHolder
          && s.phase.value.lease == Some(GameLease(s.phase.value.holder, Combat, s.access.generation))
          && Current(s.access, s.phase.value.lease.value)
          && s.runLease.None?)
    && (!s.closed && !s.faulted && s.phase.None? ==>
          && s.runLease == Some(GameLease(s.runHolder, Run, s.access.generation))
          && Current(s.access, s.runLease.value))
  }

  function Issue(s: Inst): Inst {
    s.(rootDecision := Some(TextIds.DecisionId(ROOT_BRANCH_ID, s.counter)), counter := s.counter + 1)
  }

  /** Terminal: nobody may mutate, the phase is gone. */
  function PoisonedAfter(s: Inst, calls: nat): Inst {
    s.(access := Access(LeaseState.Poisoned, None, s.access.generation + calls, None),
       runLease := None, phase := None, faulted := true)
  }

  /** RUN is back with the run session after `calls` accepted lease calls. */
  function BackInRun(s: Inst, calls: nat): Inst {
    var g := s.access.generation + calls;
    s.(access := Access(Run, Some(s.runHolder), g, None), runLease := Some(GameLease(s.runHolder, Run, g)),
        phase := None)
  }

  /** A failure before the lease commit gives RUN back; one after it poisons. */
  function AfterEnter(s: Inst, faults: set<EnterPoint>): Inst {
    if s.faulted || s.phase.Some? then s
    else if BuildSession in faults then BackInRun(s, 2)
    else
      var h := s.nextHolder;
      var built := s.(nextHolder := h + 1);
      if AdoptBoard in faults || AdoptPhase in faults || PublishDecision in faults then BackInRun(built, 2)
      else if AcceptCombatLease in faults then PoisonedAfter(Issue(built), 3)
      else
        var g := s.access.generation + 2;
        Issue(built).(access := Access(Combat, Some(h), g, None), runLease := None,
                      phase := Some(Phase(h, Some(GameLease(h, Combat, g)), false)))
  }

  /** Any failure poisons: the completing step has already changed the game. */
  function AfterLeave(s: Inst, faults: set<LeavePoint>): Inst {
    if s.faulted || s.phase.None? then s
    else if ReleaseBranches in faults || ClosePhase in faults then PoisonedAfter(s, 2)
    else if AcceptRunLease in faults || DrainRewards in faults || CaptureMap in faults then PoisonedAfter(s, 3)
    else BackInRun(s, 2)
  }

  function AfterCombatCommit(s: Inst, step: StepResult, leaveFaults: set<LeavePoint>, recordRaises: bool): Inst
    requires s.phase.Some?
  {
    if s.phase.value.sessionFaulted then s
    else match step
      case Refused => s
      case ActionFaulted => s.(phase := Some(s.phase.value.(sessionFaulted := true)))
      case AdvancedThenRaised => PoisonedAfter(s, 1)
      case Advanced(completed) =>
        var next := if completed then AfterLeave(s, leaveFaults) else s;
        if next.faulted then next
        else if recordRaises then PoisonedAfter(next, 1)
        else Issue(next)
  }

  function AfterClose(s: Inst): Inst {
    if s.closed then s
    else if s.faulted then s.(closed := true)
    else
      s.(closed := true, phase := None, runLease := None,
         access := s.access.(holder := None, generation := s.access.generation + 1))
  }

  function After(s: Inst, op: Op): Inst {
    if op.Close? then AfterClose(s)
    else if s.closed || s.faulted then s
    else match op
      case CommitRun(raises) => if s.phase.Some? || raises then s else Issue(s)
      case CommitIntoCombat(chooseRaises, faults) =>
        if s.phase.Some? || chooseRaises then s else AfterEnter(s, faults)
      case CommitCombat(step, leaveFaults, recordRaises) =>
        if s.phase.None? then s else AfterCombatCommit(s, step, leaveFaults, recordRaises)
      case Close => s
  }

  // ---- The sessions ----------------------------------------------------------------------------------

  class WholeRunSession {
    const access: GameAccess
    const leaseHolder: Holder
    var lease: Option<GameLease>

    constructor (a: GameAccess, h: Holder)
      ensures access == a && leaseHolder == h && lease == None
    {
      access, leaseHolder, lease := a, h, None;
    }

    /** `_mutating_game`: claims RUN on first use, then insists on being current. */
    method MutatingGame() returns (ok: bool)
      modifies this, access
      ensures old(lease).Some? ==>
                ok == old(Current(access.Abs(), lease.value)) && access.Abs() == old(access.Abs())
                    && lease == old(lease)
      ensures old(lease).None? ==>
                var claimed := Apply(old(access.Abs()), Claim(leaseHolder, Run));
                access.Abs() == claimed.next && lease == claimed.issued && ok == lease.Some?
    {
      if lease.None? {
        var r := access.Claim(leaseHolder, Run);
        if r.Err? { return false; }
        lease := Some(r.value);
      }
      ok := access.MutatingGame(lease.value);
    }

    /** Claims RUN on first use as well, then withdraws the lease into a transfer. */
    method BeginLeaseTransfer() returns (r: Result<GameLease, AccessError>)
      modifies this, access
      ensures var held :=
                if old(lease).Some? then Outcome(old(access.Abs()), old(lease), true)
                else Apply(old(access.Abs()), Claim(leaseHolder, Run));
              if held.issued.None? then r.Err? && access.Abs() == old(access.Abs()) && lease == None
              else
                && access.Abs() == Apply(held.next, Begin(held.issued.value)).next
                && r == LeaseResult(Apply(held.next, Begin(held.issued.value)))
                && lease == if r.Ok? then None else held.issued
    {
      if lease.None? {
        var claimed := access.Claim(leaseHolder, Run);
        if claimed.Err? { return claimed; }
        lease := Some(claimed.value);
      }
      r := access.Begin(lease.value);
      if r.Ok? { lease := None; }
    }

    method RollbackLeaseTransfer(transfer: GameLease) returns (ok: bool)
      modifies this, access
      ensures access.Abs() == Apply(old(access.Abs()), Rollback(transfer)).next
      ensures var back := LeaseResult(Apply(old(access.Abs()), Rollback(transfer)));
              && ok == (back.Ok? && back.value.state == Run && back.value.holder == leaseHolder)
              && lease == if ok then Some(back.value) else old(lease)
    {
      var r := access.Rollback(transfer);
      ok := r.Ok? && r.value.state == Run && r.value.holder == leaseHolder;
      if ok { lease := Some(r.value); }
    }

    method AcceptTransferredLease(l: GameLease) returns (ok: bool)
      modifies this
      ensures ok == (l.state == Run && l.holder == leaseHolder && Current(access.Abs(), l))
      ensures lease == if ok then Some(l) else old(lease)
    {
      if l.state != Run || l.holder != leaseHolder { return false; }
      ok := access.MutatingGame(l);
      if ok { lease := Some(l); }
    }

    method PoisonMutations()
      modifies this, access
      ensures access.Abs() == Apply(old(access.Abs()), Poison).next && lease == None
    {
      lease := None;
      access.Poison();
    }

    /** Gives the lease up if it is still ours; a newer holder is left alone. */
    method Close()
      modifies this, access
      ensures lease == None
      ensures access.Abs() ==
              if old(lease).None? then old(access.Abs()) else Apply(old(access.Abs()), Release(old(lease).value)).next
    {
      var l := lease;
      lease := None;
      if l.Some? {
        var _ := access.Release(l.value);
      }
    }
  }

  class LiveCombatSession {
    const access: GameAccess
    const leaseHolder: Holder
    var lease: Option<GameLease>
    var sessionFaulted: bool

    constructor (a: GameAccess, h: Holder)
      ensures access == a && leaseHolder == h && lease == None && !sessionFaulted
    {
      access, leaseHolder, lease, sessionFaulted := a, h, None, false;
    }

    method AcceptTransferredLease(l: GameLease) returns (ok: bool)
      modifies this
      ensures ok == (l.state == Combat && l.holder == leaseHolder && Current(access.Abs(), l))
      ensures lease == (if ok then Some(l) else old(lease)) && sessionFaulted == old(sessionFaulted)
    {
      if l.state != Combat || l.holder != leaseHolder { return false; }
      ok := access.MutatingGame(l);
      if ok { lease := Some(l); }
    }

    method BeginLeaseTransfer() returns (r: Result<GameLease, AccessError>)
      modifies this, access
      ensures old(lease).None? ==> r.Err? && access.Abs() == old(access.Abs()) && lease == None
      ensures old(lease).Some? ==>
                && access.Abs() == Apply(old(access.Abs()), Begin(old(lease).value)).next
                && r == LeaseResult(Apply(old(access.Abs()), Begin(old(lease).value)))
                && lease == if r.Ok? then None else old(lease)
      ensures sessionFaulted == old(sessionFaulted)
    {
      if lease.None? { return Err(NotCurrent); }
      r := access.Begin(lease.value);
      if r.Ok? { lease := None; }
    }

    /** The gate of `step`: a faulted session refuses, a faulting action shuts it. */
    method Step(outcome: StepResult) returns (advanced: bool)
      modifies this`sessionFaulted
      ensures advanced == (!old(sessionFaulted) && (outcome.Advanced? || outcome.AdvancedThenRaised?))
      ensures sessionFaulted == (old(sessionFaulted) || outcome.ActionFaulted?)
    {
      if sessionFaulted { return false; }
      match outcome
      case Refused => advanced := false;
      case ActionFaulted =>
        sessionFaulted := true;
        advanced := false;
      case AdvancedThenRaised => advanced := true;
      case Advanced(_) => advanced := true;
    }

    method Close()
      modifies this, access
      ensures lease == None && sessionFaulted == old(sessionFaulted)
      ensures access.Abs() ==
              if old(lease).None? then old(access.Abs()) else Apply(old(access.Abs()), Release(old(lease).value)).next
    {
      var l := lease;
      lease := None;
      if l.Some? {
        var _ := access.Release(l.value);
      }
    }
  }

  class CombatPhase {
    const session: LiveCombatSession
    var rootCommitAdvanced: bool

    constructor (s: LiveCombatSession)
      ensures session == s && !rootCommitAdvanced
    {
      session, rootCommitAdvanced := s, false;
    }

    /** Marks the point of no return as soon as the live step went through. */
    method CommitRootAction(outcome: StepResult) returns (ok: bool)
      modifies this, session`sessionFaulted
      ensures rootCommitAdvanced == (!old(session.sessionFaulted) && (outcome.Advanced? || outcome.AdvancedThenRaised?))
      ensures session.sessionFaulted == (old(session.sessionFaulted) || outcome.ActionFaulted?)
      ensures ok == (!old(session.sessionFaulted) && outcome.Advanced?)
    {
      rootCommitAdvanced := false;
      var advanced := session.Step(outcome);
      if !advanced { return false; }
      rootCommitAdvanced := true;
      ok := outcome.Advanced?;
    }
  }

  // ---- The instance ----------------------------------------------------------------------------------

  class WholeRunInstance {
    const access: GameAccess
    const session: WholeRunSession
    const decisions: DecisionPointRegistry
    var combatPhase: CombatPhase?
    var faulted: bool
    var closed: bool
    var nextHolder: Holder

    ghost predicate Linked()
      reads this
    {
      && session.access == access
      && (combatPhase != null ==> combatPhase.session.access == access)
    }

    ghost function Abs(): Inst
      reads this, access, session, decisions
      reads if combatPhase == null then {} else {combatPhase, combatPhase.session}
    {
      Inst(access.Abs(), session.leaseHolder, session.lease,
           if combatPhase == null then None
           else Some(Phase(combatPhase.session.leaseHolder, combatPhase.session.lease,
               combatPhase.session.sessionFaulted)),
           faulted, closed, nextHolder,
           if ROOT_BRANCH_ID in decisions.current then Some(decisions.current[ROOT_BRANCH_ID]) else None,
           decisions.counter)
    }

    /** Takes over a process whose access is neither poisoned nor in transfer, and starts the run. */
    constructor (a: GameAccess, holder: Holder)
      requires Shape(a.Abs()) && a.state != LeaseState.Poisoned && a.state != Transferring
      modifies a
      ensures access == a && fresh(session) && fresh(decisions)
      ensures Linked() && HandoffOk(Abs()) && Abs().phase == None && !faulted && !closed
    {
      access := a;
      var s := new WholeRunSession(a, holder);
      session := s;
      decisions := new DecisionPointRegistry();
      combatPhase, faulted, closed, nextHolder := null, false, false, holder + 1;
      new;
      var ok := session.MutatingGame();
      var _ := decisions.Issue(ROOT_BRANCH_ID);
    }

    method EnterCombatPhase(faults: set<EnterPoint>) returns (ok: bool)
      requires Linked() && HandoffOk(Abs()) && !closed
      modifies this`combatPhase, this`faulted, this`nextHolder, access, session, decisions
      ensures Linked() && Abs() == AfterEnter(old(Abs()), faults)
      ensures combatPhase != old(combatPhase) && combatPhase != null ==>
              fresh(combatPhase) && fresh(combatPhase.session)
      ensures ok ==> combatPhase != null
    {
      if faulted || combatPhase != null { return false; }
      var begun := session.BeginLeaseTransfer();
      var transfer := begun.value;
      var prior := if ROOT_BRANCH_ID in decisions.current then Some(decisions.current[ROOT_BRANCH_ID]) else None;
      if BuildSession in faults {
        RollBack(transfer, prior);
        return false;
      }
      var live := new LiveCombatSession(access, nextHolder);
      nextHolder := nextHolder + 1;
      if AdoptBoard in faults || AdoptPhase in faults || PublishDecision in faults {
        RollBack(transfer, prior);
        return false;
      }
      var phase := new CombatPhase(live);
      var _ := decisions.Issue(ROOT_BRANCH_ID);
      ok := CommitToCombat(transfer, phase, AcceptCombatLease in faults);
    }

    /** The lease commit and what follows it; from here on a failure poisons. */
    method CommitToCombat(transfer: GameLease, phase: CombatPhase, acceptRaises: bool) returns (ok: bool)
      requires Linked() && phase.session.access == access && phase.session.lease == None && combatPhase == null
      requires CurrentTransfer(access.Abs(), transfer)
      modifies this`combatPhase, this`faulted, access, session, phase.session
      ensures ok == !acceptRaises && combatPhase == if ok then phase else null
      ensures faulted == (old(faulted) || acceptRaises)
      ensures session.lease == if ok then old(session.lease) else None
      ensures phase.session.sessionFaulted == old(phase.session.sessionFaulted)
      ensures var g := old(access.generation); var h := phase.session.leaseHolder;
              if ok
              then access.Abs() == Access(Combat, Some(h), g + 1, None)
                  && phase.session.lease == Some(GameLease(h, Combat, g + 1))
              else access.Abs() == Access(LeaseState.Poisoned, None, g + 2, None)
    {
      var committed := access.Commit(transfer, Combat, phase.session.leaseHolder);
      if acceptRaises {
        PoisonCombatTransaction(phase);
        return false;
      }
      ok := phase.session.AcceptTransferredLease(committed.value);
      combatPhase := phase;
    }

    /** The pre-commit failure path: RUN, and the published root decision, come back. */
    method RollBack(transfer: GameLease, prior: Option<string>)
      requires session.access == access
      modifies access, session, decisions`current
      ensures access.Abs() == Apply(old(access.Abs()), Rollback(transfer)).next
      ensures var back := LeaseResult(Apply(old(access.Abs()), Rollback(transfer)));
              session.lease ==
                if back.Ok? && back.value.state == Run && back.value.holder == session.leaseHolder
                then Some(back.value) else old(session.lease)
      ensures (if ROOT_BRANCH_ID in decisions.current then Some(decisions.current[ROOT_BRANCH_ID]) else None) == prior
    {
      decisions.RestoreCurrent(ROOT_BRANCH_ID, prior);
      var _ := session.RollbackLeaseTransfer(transfer);
    }

    /** `_poison_combat_transaction`; `phase` is closed as well when it was not folded yet. */
    method PoisonCombatTransaction(phase: CombatPhase?)
      requires Linked() && (phase != null ==> phase.session.access == access)
      modifies this`combatPhase, this`faulted, access, session
      modifies if phase == null then {} else {phase.session}
      ensures Linked() && combatPhase == null && faulted && session.lease == None
      ensures access.Abs() == Apply(old(access.Abs()), Poison).next
      ensures phase != null ==> phase.session.sessionFaulted == old(phase.session.sessionFaulted)
    {
      faulted := true;
      combatPhase := null;
      session.PoisonMutations();
      if phase != null {
        phase.session.Close();
      }
    }

    method LeaveCombatPhase(faults: set<LeavePoint>) returns (ok: bool)
      requires Linked() && HandoffOk(Abs()) && !closed && combatPhase != null
      modifies this`combatPhase, this`faulted, access, session, combatPhase.session
      ensures Linked() && Abs() == AfterLeave(old(Abs()), faults)
      ensures combatPhase == null && ok == !faulted
    {
      var phase := combatPhase;
      var begun := phase.session.BeginLeaseTransfer();
      if ReleaseBranches in faults || ClosePhase in faults {
        PoisonCombatTransaction(phase);
        return false;
      }
      phase.session.Close();
      combatPhase := null;
      var committed := access.Commit(begun.value, Run, session.leaseHolder);
      if AcceptRunLease in faults {
        PoisonCombatTransaction(null);
        return false;
      }
      ok := session.AcceptTransferredLease(committed.value);
      if DrainRewards in faults || CaptureMap in faults {
        PoisonCombatTransaction(null);
        return false;
      }
    }

    /** `commit_action` while a phase is active. */
    method CommitCombatAction(step: StepResult, leaveFaults: set<LeavePoint>, recordRaises: bool)
      requires Linked() && HandoffOk(Abs()) && !closed && combatPhase != null
      modifies this`combatPhase, this`faulted, access, session, decisions, combatPhase, combatPhase.session
      ensures Linked() && Abs() == AfterCombatCommit(old(Abs()), step, leaveFaults, recordRaises)
      ensures combatPhase == null || combatPhase == old(combatPhase)
    {
      var phase := combatPhase;
      var ok := phase.CommitRootAction(step);
      if ok && step.completed {
        ok := LeaveCombatPhase(leaveFaults);
      }
      if ok && !recordRaises {
        var _ := decisions.Issue(ROOT_BRANCH_ID);
        return;
      }
      if phase.rootCommitAdvanced && !faulted {
        PoisonCombatTransaction(if combatPhase == phase then phase else null);
      }
    }

    method CloseInstance()
      requires Linked() && HandoffOk(Abs())
      modifies this`combatPhase, this`closed, access, session
      modifies if combatPhase == null then {} else {combatPhase.session}
      ensures Linked() && Abs() == AfterClose(old(Abs()))
    {
      if closed { return; }
      closed := true;
      if combatPhase != null {
        combatPhase.session.Close();
        combatPhase := null;
      }
      session.Close();
    }
  }

  // ---- Every run -------------------------------------------------------------------------------------

  lemma EnterKeepsHandoff(s: Inst, faults: set<EnterPoint>)
    requires HandoffOk(s) && !s.closed
    ensures HandoffOk(AfterEnter(s, faults)) && AfterEnter(s, faults).access.generation >= s.access.generation
  {
  }

  lemma LeaveKeepsHandoff(s: Inst, faults: set<LeavePoint>)
    requires HandoffOk(s) && !s.closed
    ensures HandoffOk(AfterLeave(s, faults)) && AfterLeave(s, faults).access.generation >= s.access.generation
    ensures !AfterLeave(s, faults).closed
  {
  }

  lemma CombatCommitKeepsHandoff(s: Inst, step: StepResult, faults: set<LeavePoint>, recordRaises: bool)
    requires HandoffOk(s) && !s.closed && !s.faulted && s.phase.Some?
    ensures var t := AfterCombatCommit(s, step, faults, recordRaises);
            HandoffOk(t) && t.access.generation >= s.access.generation
  {
    if step == Advanced(true) { LeaveKeepsHandoff(s, faults); }
  }

  lemma OpKeepsHandoff(s: Inst, op: Op)
    requires HandoffOk(s)
    ensures HandoffOk(After(s, op))
    ensures After(s, op).access.generation >= s.access.generation
    ensures s.faulted ==> After(s, op).access == s.access && After(s, op).faulted
  {
    if !s.closed && !s.faulted {
      match op
      case CommitRun(_) =>
      case CommitIntoCombat(_, faults) => EnterKeepsHandoff(s, faults);
      case CommitCombat(step, faults, raises) =>
        if s.phase.Some? { CombatCommitKeepsHandoff(s, step, faults, raises); }
      case Close =>
    }
  }

  lemma OnlyAccept(faults: set<EnterPoint>)
    ensures faults == {AcceptCombatLease} <==>
            && AcceptCombatLease in faults && BuildSession !in faults && AdoptBoard !in faults
            && AdoptPhase !in faults && PublishDecision !in faults
    ensures faults == {} <==> AcceptCombatLease !in faults && BuildSession !in faults && AdoptBoard !in faults
                              && AdoptPhase !in faults && PublishDecision !in faults
  {
    forall p <- faults ensures p == AcceptCombatLease || p in {BuildSession, AdoptBoard, AdoptPhase, PublishDecision} {
      match p {
        case BuildSession => case AdoptBoard => case AdoptPhase => case PublishDecision =>
        case AcceptCombatLease =>
      }
    }
  }

  lemma SomeLeaveFault(faults: set<LeavePoint>)
    ensures faults == {} <==> ReleaseBranches !in faults && ClosePhase !in faults && AcceptRunLease !in faults
                              && DrainRewards !in faults && CaptureMap !in faults
  {
    forall p <- faults ensures p in {ReleaseBranches, ClosePhase, AcceptRunLease, DrainRewards, CaptureMap} {
      match p {
        case ReleaseBranches => case ClosePhase => case AcceptRunLease => case DrainRewards =>
        case CaptureMap =>
      }
    }
  }

  /** The commit changed the game and everything after it went through. */
  predicate Completes(s: Inst, op: Op) {
    && !s.closed && !s.faulted
    && match op
       case CommitRun(raises) => s.phase.None? && !raises
       case CommitIntoCombat(chooseRaises, faults) => s.phase.None? && !chooseRaises && faults == {}
       case CommitCombat(step, faults, recordRaises) =>
         && s.phase.Some? && !s.phase.value.sessionFaulted && step.Advanced? && !recordRaises
         && (step.completed ==> faults == {})
       case Close => false
  }

  /**
   The root's decision: a commit that completes publishes the next one, and one that fails while the run can
   still go on leaves the published one as it was.
   */
  lemma CompletedCommitDecides(s: Inst, op: Op)
    requires HandoffOk(s)
    ensures Completes(s, op) ==>
              && After(s, op).rootDecision == Some(TextIds.DecisionId(ROOT_BRANCH_ID, s.counter))
              && After(s, op).counter == s.counter + 1 && !After(s, op).faulted
    ensures !Completes(s, op) && !After(s, op).faulted ==>
              After(s, op).rootDecision == s.rootDecision && After(s, op).counter == s.counter
  {
    if op.CommitIntoCombat? { OnlyAccept(op.enterFaults); }
    if op.CommitCombat? { SomeLeaveFault(op.leaveFaults); }
  }

  /** Which failures end the run: any once the board has changed hands or a step has gone through, and none before. */
  lemma FaultsIff(s: Inst, op: Op)
    requires HandoffOk(s) && !s.faulted && !s.closed
    ensures After(s, op).faulted <==>
            match op
            case CommitRun(_) => false
            case CommitIntoCombat(chooseRaises, faults) =>
              s.phase.None? && !chooseRaises && faults == {AcceptCombatLease}
            case CommitCombat(step, faults, recordRaises) =>
              && s.phase.Some? && !s.phase.value.sessionFaulted
              && (|| step.AdvancedThenRaised?
                  || (step.Advanced? && (recordRaises || (step.completed && faults != {}))))
            case Close => false
  {
    if op.CommitIntoCombat? { OnlyAccept(op.enterFaults); }
    if op.CommitCombat? { SomeLeaveFault(op.leaveFaults); }
  }

  /** A combat phase is there exactly if one was entered, or was there and the fight went on. */
  lemma PhaseStandsIff(s: Inst, op: Op)
    requires HandoffOk(s) && !s.faulted && !s.closed
    ensures After(s, op).phase.Some? <==>
            match op
            case CommitRun(_) => s.phase.Some?
            case CommitIntoCombat(chooseRaises, faults) => s.phase.Some? || (!chooseRaises && faults == {})
            case CommitCombat(step, faults, recordRaises) =>
              && s.phase.Some?
              && (|| s.phase.value.sessionFaulted || step.Refused? || step.ActionFaulted?
                  || (step.Advanced? && !step.completed && !recordRaises))
            case Close => false
  {
    if op.CommitIntoCombat? { OnlyAccept(op.enterFaults); }
    if op.CommitCombat? { SomeLeaveFault(op.leaveFaults); }
  }

  /** A faulting action shuts the fight's session: only that changes, and no later commit in combat does anything. */
  lemma FaultedActionShutsTheSession(s: Inst, faults: set<LeavePoint>, recordRaises: bool, later: Op)
    requires !s.faulted && !s.closed && s.phase.Some? && later.CommitCombat?
    ensures var t := After(s, CommitCombat(ActionFaulted, faults, recordRaises));
            && t == s.(phase := Some(s.phase.value.(sessionFaulted := true)))
            && After(t, later) == t
  {
  }

  function RunAll(s: Inst, ops: seq<Op>): Inst
    decreases |ops|
  {
    if ops == [] then s else RunAll(After(s, ops[0]), ops[1..])
  }

  /**
   Whatever fails, wherever it fails: between operations nothing is in transfer, an active phase
   holds COMBAT, a faulted instance is poisoned and phase-less, and otherwise the run holds RUN.
   */
  lemma {:induction false} HandoffHoldsOnEveryRun(s: Inst, ops: seq<Op>)
    requires HandoffOk(s)
    ensures HandoffOk(RunAll(s, ops))
    ensures RunAll(s, ops).access.generation >= s.access.generation
    decreases |ops|
  {
    if ops != [] {
      OpKeepsHandoff(s, ops[0]);
      HandoffHoldsOnEveryRun(After(s, ops[0]), ops[1..]);
    }
  }

  /** The lease calls an operation makes, in order. */
  function LeaseCalls(s: Inst, op: Op): seq<LeaseAccess.Op> {
    var g := s.access.generation;
    var live := !s.closed && !s.faulted;
    match op
    case CommitRun(_) => []
    case CommitIntoCombat(chooseRaises, faults) =>
      if !live || s.phase.Some? || chooseRaises || s.runLease.None? then []
      else
        var t := GameLease(s.runHolder, Transferring, g + 1);
        [Begin(s.runLease.value)] +
        (if BuildSession in faults || AdoptBoard in faults || AdoptPhase in faults || PublishDecision in faults
         then [Rollback(t)]
         else [Commit(t, Combat, s.nextHolder)] + if AcceptCombatLease in faults then [Poison] else [])
    case CommitCombat(step, faults, recordRaises) =>
      if !live || s.phase.None? || s.phase.value.sessionFaulted || s.phase.value.lease.None? then []
      else
        (match step
        case Refused => []
        case ActionFaulted => []
        case AdvancedThenRaised => [Poison]
        case Advanced(completed) =>
          var t := GameLease(s.phase.value.holder, Transferring, g + 1);
          if !completed then if recordRaises then [Poison] else []
          else
            [Begin(s.phase.value.lease.value)] +
            (if ReleaseBranches in faults || ClosePhase in faults then [Poison]
             else
               [Commit(t, Run, s.runHolder)] +
               if AcceptRunLease in faults || DrainRewards in faults || CaptureMap in faults || recordRaises
               then [Poison] else []))
    case Close =>
      if !live then []
      else if s.phase.Some? && s.phase.value.lease.Some? then [Release(s.phase.value.lease.value)]
      else if s.phase.None? && s.runLease.Some? then [Release(s.runLease.value)]
      else []
  }

  /**
   Each operation is a legal run of lease calls, all of them accepted; so everything proved about
   runs of the lease (one mutator, stale stays stale, poison absorbs) holds of whole-run instances.
   */
  lemma HandoffIsALegalLeaseRun(s: Inst, op: Op, issued: seq<GameLease>)
    requires HandoffOk(s)
    ensures AllLegal(LeaseCalls(s, op))
    ensures RunOps(World(s.access, issued), LeaseCalls(s, op)).access == After(s, op).access
    ensures After(s, op).access.generation == s.access.generation + |LeaseCalls(s, op)|
  {
    ShortRun(World(s.access, issued), LeaseCalls(s, op));
    match op
    case CommitRun(_) =>
    case CommitIntoCombat(_, faults) => EnterCallsLead(s, op);
    case CommitCombat(_, _, _) => CombatCallsLead(s, op);
    case Close =>
  }

  /** The state after these calls, by `Apply` alone. */
  function Led(a: Access, ops: seq<LeaseAccess.Op>): Access
    requires |ops| <= 3
  {
    if |ops| == 0 then a
    else if |ops| == 1 then Apply(a, ops[0]).next
    else if |ops| == 2 then Apply(Apply(a, ops[0]).next, ops[1]).next
    else Apply(Apply(Apply(a, ops[0]).next, ops[1]).next, ops[2]).next
  }

  lemma EnterCallsLead(s: Inst, op: Op)
    requires HandoffOk(s) && op.CommitIntoCombat?
    ensures |LeaseCalls(s, op)| <= 3 && AllLegal(LeaseCalls(s, op))
            && Led(s.access, LeaseCalls(s, op)) == After(s, op).access
    ensures After(s, op).access.generation == s.access.generation + |LeaseCalls(s, op)|
  {
  }

  lemma CombatCallsLead(s: Inst, op: Op)
    requires HandoffOk(s) && op.CommitCombat?
    ensures |LeaseCalls(s, op)| <= 3 && AllLegal(LeaseCalls(s, op))
            && Led(s.access, LeaseCalls(s, op)) == After(s, op).access
    ensures After(s, op).access.generation == s.access.generation + |LeaseCalls(s, op)|
  {
  }

  /** Where up to three lease calls lead. */
  lemma ShortRun(w: World, ops: seq<LeaseAccess.Op>)
    requires |ops| <= 3
    ensures RunOps(w, ops).access == Led(w.access, ops)
  {
    if |ops| >= 1 {
      var w1 := LeaseAccess.Step(w, ops[0]);
      assert RunOps(w, ops) == RunOps(w1, ops[1..]);
      if |ops| >= 2 {
        var w2 := LeaseAccess.Step(w1, ops[1]);
        assert RunOps(w1, ops[1..]) == RunOps(w2, ops[1..][1..]);
        if |ops| >= 3 {
          assert RunOps(w2, ops[1..][1..]) == RunOps(LeaseAccess.Step(w2, ops[2]), ops[1..][1..][1..]);
        }
      }
    }
  }
}
