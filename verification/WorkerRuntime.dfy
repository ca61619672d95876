/**
 What one worker process does with a request (`_WorkerRuntime.execute`, the inbox loop of
 `_worker_main`), and the pool as a state machine over sends, executions and respawns
 (Run/worker_pool.py:508-776, 877-903, 982-1011).

 The question is holder safety: may a continuation trust the session it finds?  A process therefore
 carries the log of everything that touched its session.
 */
module WorkerRuntime {
  import opened Wrappers
  import opened WorkerPool

  /** What has run on a session: a completed bootstrap, or something that moved it elsewhere. */
  datatype Ran = Reached(contextId: string, overridden: bool) | BrokeOff | Overridden | Acted | Explored

  datatype Process = Process(generation: nat, current: Option<string>, log: seq<Ran>)

  /** Where an event RNG override is due: nowhere, inside the prefix a bootstrap replays, or right after it. */
  datatype PlanKind = NoPlan | InPrefix | AtEnd

  datatype Request =
    | Choice(mode: Mode, contextId: string, lease: Option<Lease>, plan: PlanKind, resolves: bool)
    | Explore

  /** Where the foreign calls of one execution raise or disappoint. */
  datatype Fate = Fate(reachRaises: bool, boundaryMatches: bool, planRaises: bool, actionFound: bool, stepRaises: bool)

  datatype FaultKind =
    | ReachFault | NoLease | ContextMismatch | GenerationMismatch | ReplayMismatch | PlanFault | ActionFault

  datatype Result = Failed(kind: FaultKind) | Holding(lease: Lease) | Settled | ExploreDone

  predicate Succeeds(r: Result) {
    r.Holding? || r.Settled?
  }

  /** The session has been brought to `current` without an override, and nothing has run on it since. */
  predicate AtContext(p: Process) {
    p.current.Some? ==> p.log != [] && p.log[|p.log| - 1] == Reached(p.current.value, false)
  }

  function Drop(p: Process): Process {
    p.(current := None)
  }

  /** The entry checks; `Ok` is the process ready to observe. */
  function Arrive(p: Process, q: Request, fate: Fate): (Process, Option<FaultKind>)
    requires q.Choice?
  {
    if q.mode == BootstrapStep then
      if fate.reachRaises then (Process(p.generation, None, p.log + [BrokeOff]), Some(ReachFault))
      else (Process(p.generation, Some(q.contextId), p.log + [Reached(q.contextId, q.plan == InPrefix)]), None)
    else if q.lease.None? then (Drop(p), Some(NoLease))
    else if p.current != Some(q.contextId) then (Drop(p), Some(ContextMismatch))
    else if q.lease.value.generation != p.generation then (Drop(p), Some(GenerationMismatch))
    else (p, None)
  }

  function Execute(p: Process, slot: Slot, q: Request, fate: Fate): (Process, Result) {
    if q.Explore? then (p.(log := p.log + [Explored]), ExploreDone)
    else
      var (at, fault) := Arrive(p, q, fate);
      if fault.Some? then (at, Failed(fault.value))
      else if !fate.boundaryMatches then (Drop(at), Failed(ReplayMismatch))
      else if q.plan == AtEnd && fate.planRaises
      then (Process(at.generation, None, at.log + [BrokeOff]), Failed(PlanFault))
      else
        var ready := if q.plan == AtEnd then at.(log := at.log + [Overridden]) else at;
        if !q.resolves then (ready, Holding(Lease(slot, p.generation, q.contextId)))
        else if !fate.actionFound then (Drop(ready), Failed(ActionFault))
        else
          (Process(ready.generation, None, ready.log + [Acted]),
              if fate.stepRaises then Failed(ActionFault) else Settled)
  }

  class WorkerProcess {
    const slot: Slot
    const generation: nat
    var currentContextId: Option<string>
    /** The session's history. */
    ghost var log: seq<Ran>

    ghost function Abs(): Process
      reads this
    {
      Process(generation, currentContextId, log)
    }

    constructor (s: Slot, g: nat)
      ensures slot == s && Abs() == Process(g, None, [])
    {
      slot, generation, currentContextId, log := s, g, None, [];
    }

    /** `execute`: any exception ends in a fault result with the context forgotten. */
    method ExecuteChoice(q: Request, fate: Fate) returns (r: Result)
      requires q.Choice?
      modifies this
      ensures (Abs(), r) == Execute(old(Abs()), slot, q, fate)
    {
      if q.mode == BootstrapStep {
        if fate.reachRaises {
          log := log + [BrokeOff];
          currentContextId := None;
          return Failed(ReachFault);
        }
        log := log + [Reached(q.contextId, q.plan == InPrefix)];
        currentContextId := Some(q.contextId);
      } else {
        var fault :=
          if q.lease.None? then Some(NoLease)
          else if currentContextId != Some(q.contextId) then Some(ContextMismatch)
          else if q.lease.value.generation != generation then Some(GenerationMismatch)
          else None;
        if fault.Some? {
          currentContextId := None;
          return Failed(fault.value);
        }
      }
      if !fate.boundaryMatches {
        currentContextId := None;
        return Failed(ReplayMismatch);
      }
      r := ResolveReached(q, fate);
    }

    /** From a confirmed boundary on: override, then either hold the context or act and give it up. */
    method ResolveReached(q: Request, fate: Fate) returns (r: Result)
      requires q.Choice? && fate.boundaryMatches && currentContextId == Some(q.contextId)
      modifies this
      ensures var was := old(Abs());
              if q.plan == AtEnd && fate.planRaises
              then (Abs(), r) == (Process(was.generation, None, was.log + [BrokeOff]), Failed(PlanFault))
              else
                var ready := if q.plan == AtEnd then was.(log := was.log + [Overridden]) else was;
                if !q.resolves then (Abs(), r) == (ready, Result.Holding(Lease(slot, was.generation, q.contextId)))
                else if !fate.actionFound then (Abs(), r) == (Drop(ready), Failed(ActionFault))
                else (Abs(), r) == (Process(was.generation, None, ready.log + [Acted]),
                                    if fate.stepRaises then Failed(ActionFault) else Settled)
    {
      if q.plan == AtEnd {
        if fate.planRaises {
          log := log + [BrokeOff];
          currentContextId := None;
          return Failed(PlanFault);
        }
        log := log + [Overridden];
      }
      if !q.resolves {
        return Result.Holding(Lease(slot, generation, q.contextId));
      }
      currentContextId := None;
      if !fate.actionFound { return Failed(ActionFault); }
      log := log + [Acted];
      r := if fate.stepRaises then Failed(ActionFault) else Settled;
    }
  }

  // ---- One process -----------------------------------------------------------------------------------

  /**
   A process goes on telling the truth about its context exactly unless a request keeps the context
   after an override of the event RNG, in the replayed prefix or after it.  The context id does not
   cover the override.
   */
  lemma KeepsContextIff(p: Process, slot: Slot, q: Request, fate: Fate)
    requires AtContext(p) && q.Choice?
    ensures AtContext(Execute(p, slot, q, fate).0) <==>
            !(&& Execute(p, slot, q, fate).1.Holding?
              && (q.plan == AtEnd || (q.plan == InPrefix && q.mode == BootstrapStep)))
  {
  }

  /** `explore` keeps the context id while it moves the session: harmless only with no context held. */
  lemma ExploreKeepsContextIff(p: Process, slot: Slot, fate: Fate)
    ensures AtContext(Execute(p, slot, Explore, fate).0) <==> p.current.None?
  {
  }

  /** A continuation succeeds only on a session at its own context, untouched since, in its own generation. */
  lemma HolderStepFindsItsContext(p: Process, slot: Slot, q: Request, fate: Fate)
    requires AtContext(p) && q.Choice? && q.mode == HolderStep
    requires Succeeds(Execute(p, slot, q, fate).1)
    ensures p.current == Some(q.contextId) && p.log != [] && p.log[|p.log| - 1] == Reached(q.contextId, false)
    ensures q.lease.Some? && q.lease.value.generation == p.generation
  {
  }

  /** The request gets to observe the boundary: a bootstrap that does not raise, or a continuation all agrees for. */
  predicate Arrives(p: Process, q: Request, fate: Fate)
    requires q.Choice?
  {
    if q.mode == BootstrapStep then !fate.reachRaises
    else q.lease.Some? && p.current == Some(q.contextId) && q.lease.value.generation == p.generation
  }

  /**
   What a request is answered, check by check: entry, boundary, a late override, and then either the context is
   held for this worker and generation, or the named action is taken and the context given up.
   */
  lemma AnswerIs(p: Process, slot: Slot, q: Request, fate: Fate)
    requires q.Choice?
    ensures var r := Execute(p, slot, q, fate).1;
            var late := q.plan == AtEnd && fate.planRaises;
            && (q.mode == BootstrapStep && fate.reachRaises ==> r == Failed(ReachFault))
            && (q.mode == HolderStep && q.lease.None? ==> r == Failed(NoLease))
            && (q.mode == HolderStep && q.lease.Some? && p.current != Some(q.contextId) ==>
                  r == Failed(ContextMismatch))
            && (q.mode == HolderStep && q.lease.Some? && p.current == Some(q.contextId) && !Arrives(p, q, fate) ==>
                  r == Failed(GenerationMismatch))
            && (Arrives(p, q, fate) && !fate.boundaryMatches ==> r == Failed(ReplayMismatch))
            && (Arrives(p, q, fate) && fate.boundaryMatches && late ==> r == Failed(PlanFault))
            && (Arrives(p, q, fate) && fate.boundaryMatches && !late ==>
                  if !q.resolves then r == Holding(Lease(slot, p.generation, q.contextId))
                  else r == if fate.actionFound && !fate.stepRaises then Settled else Failed(ActionFault))
  {
  }

  /** The context remembered afterwards: the request's own exactly if it is held, none otherwise. */
  lemma RemembersIff(p: Process, slot: Slot, q: Request, fate: Fate)
    requires q.Choice?
    ensures var (after, r) := Execute(p, slot, q, fate);
            after.generation == p.generation && after.current == if r.Holding? then Some(q.contextId) else None
  {
  }

  // ---- The pool ----------------------------------------------------------------------------------------

  datatype Worker = Worker(process: Process, inbox: seq<Request>)

  datatype System = System(workers: map<Slot, Worker>, leases: Leases)

  function Gens(s: System): map<Slot, nat> {
    map w | w in s.workers :: s.workers[w].process.generation
  }

  datatype Op =
    | Send(item: WorkItem, pin: Option<Slot>, next: nat, plan: PlanKind, resolves: bool)
    | SendExplore(slot: Slot)
    /** The worker takes the next request of its queue. */
    | Work(slot: Slot, fate: Fate)
    | Respawn(slot: Slot)
    /** Results and failures may file, overwrite or drop any lease at any time. */
    | File(lease: Lease)
    | Invalidate(contextId: string)

  function Deliver(s: System, slot: Slot, q: Request): System
    requires slot in s.workers
  {
    s.(workers := s.workers[slot := s.workers[slot].(inbox := s.workers[slot].inbox + [q])])
  }

  function After(s: System, slots: seq<Slot>, op: Op): System
    requires slots != []
  {
    match op
    case Send(item, pin, next, plan, resolves) =>
      var r := RouteWorkItem(item, s.leases, slots, Gens(s), next, pin);
      if r.NoHolder? then s.(leases := r.leases)
      else if r.slot !in s.workers then s
      else Deliver(s.(leases := r.leases), r.slot, Choice(r.mode, item.contextId, r.lease, plan, resolves))
    case SendExplore(slot) => if slot in s.workers then Deliver(s, slot, Explore) else s
    case Work(slot, fate) =>
      if slot !in s.workers || s.workers[slot].inbox == [] then s
      else
        var w := s.workers[slot];
        s.(workers := s.workers[slot := Worker(Execute(w.process, slot, w.inbox[0], fate).0, w.inbox[1..])])
    case Respawn(slot) =>
      var was := if slot in s.workers then s.workers[slot].process.generation else 0;
      System(s.workers[slot := Worker(Process(was + 1, None, []), [])], WithoutGeneration(s.leases, slot, was))
    case File(lease) => s.(leases := s.leases[lease.contextId := lease])
    case Invalidate(c) => s.(leases := s.leases - {c})
  }

  /** Plan-free continuations; an override always goes with an action; exploring is for the main worker. */
  predicate Allowed(op: Op) {
    && (op.Send? && op.plan != NoPlan ==> op.resolves && op.item.kind != Continuation)
    && (op.SendExplore? ==> op.slot == Main)
  }

  /** What may lie in the queue of a worker of this slot and generation. */
  predicate Deliverable(q: Request, slot: Slot, generation: nat) {
    if q.Explore? then slot == Main
    else
      && (q.plan != NoPlan ==> q.resolves && q.mode == BootstrapStep)
      && (q.mode == BootstrapStep ==> slot != Main)
      && (q.mode == HolderStep ==>
            q.lease.Some? && q.lease.value.generation == generation && q.lease.value.contextId == q.contextId)
  }

  predicate WorkerOk(w: Worker, slot: Slot) {
    && AtContext(w.process)
    && (slot == Main ==> w.process.current.None?)
    && (forall q <- w.inbox :: Deliverable(q, slot, w.process.generation))
  }

  predicate Inv(s: System, slots: seq<Slot>) {
    && slots != [] && Main !in slots && Filed(s.leases)
    && (forall slot <- slots :: slot in s.workers)
    && (forall slot <- s.workers :: WorkerOk(s.workers[slot], slot))
  }

  lemma WorkKeepsOk(w: Worker, slot: Slot, fate: Fate)
    requires WorkerOk(w, slot) && w.inbox != []
    ensures WorkerOk(Worker(Execute(w.process, slot, w.inbox[0], fate).0, w.inbox[1..]), slot)
  {
    assert w.inbox[0] in w.inbox;
    if w.inbox[0].Choice? {
      KeepsContextIff(w.process, slot, w.inbox[0], fate);
    }
  }

  /** What routing sends may lie in the queue it is sent to. */
  lemma RoutedIsDeliverable(s: System, slots: seq<Slot>, op: Op)
    requires slots != [] && Main !in slots && op.Send? && Allowed(op) && Filed(s.leases)
    ensures var r := RouteWorkItem(op.item, s.leases, slots, Gens(s), op.next, op.pin);
            && Filed(r.leases)
            && (r.Route? && r.slot in s.workers ==>
                  Deliverable(Choice(r.mode, op.item.contextId, r.lease, op.plan, op.resolves), r.slot,
                              s.workers[r.slot].process.generation))
  {
    UnleasedIs(slots, s.leases);
  }

  lemma DeliveryKeepsInv(s: System, slots: seq<Slot>, slot: Slot, q: Request)
    requires Inv(s, slots) && slot in s.workers && Deliverable(q, slot, s.workers[slot].process.generation)
    ensures Inv(Deliver(s, slot, q), slots)
  {
  }

  lemma SendKeepsInv(s: System, slots: seq<Slot>, op: Op)
    requires Inv(s, slots) && op.Send? && Allowed(op)
    ensures Inv(After(s, slots, op), slots)
  {
    var r := RouteWorkItem(op.item, s.leases, slots, Gens(s), op.next, op.pin);
    RoutedIsDeliverable(s, slots, op);
    if r.Route? && r.slot in s.workers {
      DeliveryKeepsInv(s.(leases := r.leases), slots, r.slot,
                       Choice(r.mode, op.item.contextId, r.lease, op.plan, op.resolves));
    }
  }

  lemma OpKeepsInv(s: System, slots: seq<Slot>, op: Op)
    requires Inv(s, slots) && Allowed(op)
    ensures Inv(After(s, slots, op), slots)
  {
    match op
    case Send(_, _, _, _, _) => SendKeepsInv(s, slots, op);
    case Work(slot, fate) =>
      if slot in s.workers && s.workers[slot].inbox != [] { WorkKeepsOk(s.workers[slot], slot, fate); }
    case _ =>
  }

  function Run(s: System, slots: seq<Slot>, ops: seq<Op>): System
    requires slots != []
    decreases |ops|
  {
    if ops == [] then s else Run(After(s, slots, ops[0]), slots, ops[1..])
  }

  lemma {:induction false} RunKeepsInv(s: System, slots: seq<Slot>, ops: seq<Op>)
    requires Inv(s, slots) && forall op <- ops :: Allowed(op)
    ensures Inv(Run(s, slots, ops), slots)
    decreases |ops|
  {
    if ops != [] {
      assert ops[0] in ops;
      OpKeepsInv(s, slots, ops[0]);
      RunKeepsInv(After(s, slots, ops[0]), slots, ops[1..]);
    }
  }

  function Respawns(ops: seq<Op>, slot: Slot): nat {
    if ops == [] then 0 else (if ops[0] == Respawn(slot) then 1 else 0) + Respawns(ops[1..], slot)
  }

  lemma OpCountsRespawn(s: System, slots: seq<Slot>, op: Op, slot: Slot)
    requires slots != [] && slot in s.workers
    ensures slot in After(s, slots, op).workers
    ensures After(s, slots, op).workers[slot].process.generation ==
            s.workers[slot].process.generation + Respawns([op], slot)
  {
    if op.Work? && op.slot == slot && s.workers[slot].inbox != [] {
      var q := s.workers[slot].inbox[0];
      if q.Choice? { RemembersIff(s.workers[slot].process, slot, q, op.fate); }
    }
  }

  /** A worker's generation moves on by one with each of its respawns, and with nothing else. */
  lemma {:induction false} GenerationCountsRespawns(s: System, slots: seq<Slot>, ops: seq<Op>, slot: Slot)
    requires slots != [] && slot in s.workers
    ensures slot in Run(s, slots, ops).workers
    ensures Run(s, slots, ops).workers[slot].process.generation ==
            s.workers[slot].process.generation + Respawns(ops, slot)
    decreases |ops|
  {
    if ops == [] {
    } else {
      OpCountsRespawn(s, slots, ops[0], slot);
      GenerationCountsRespawns(After(s, slots, ops[0]), slots, ops[1..], slot);
    }
  }

  /** A respawned worker starts with nothing: no queue, no context, and no lease of its old generation. */
  lemma RespawnedStartsOver(s: System, slots: seq<Slot>, slot: Slot, c: string)
    requires slots != [] && slot in s.workers
    ensures var t := After(s, slots, Respawn(slot));
            && slot in t.workers && t.workers[slot].inbox == [] && t.workers[slot].process.current == None
            && (forall w <- s.workers :: w in t.workers && (w != slot ==> t.workers[w] == s.workers[w]))
            && (c in t.leases <==>
                c in s.leases
                && s.leases[c] != Lease(slot, s.workers[slot].process.generation, s.leases[c].contextId))
  {
    if c in s.leases {
      var l := s.leases[c];
      assert l == Lease(l.slot, l.generation, l.contextId);
    }
  }

  function FreshPool(slots: seq<Slot>): System {
    System(map slot | slot in slots + [Main] :: Worker(Process(1, None, []), []), map[])
  }

  /**
   Holder safety over every run.  Whatever was sent, executed, faulted, respawned, filed or dropped
   before: the next request a worker takes never fails on the generation check, and if it is a
   continuation that succeeds, the session stands at its context with nothing run since.
   */
  lemma HolderSafety(slots: seq<Slot>, ops: seq<Op>, slot: Slot, fate: Fate)
    requires slots != [] && Main !in slots && forall op <- ops :: Allowed(op)
    requires slot in Run(FreshPool(slots), slots, ops).workers
    requires Run(FreshPool(slots), slots, ops).workers[slot].inbox != []
    ensures var w := Run(FreshPool(slots), slots, ops).workers[slot];
            var q := w.inbox[0];
            var r := Execute(w.process, slot, q, fate).1;
            && r != Failed(GenerationMismatch) && r != Failed(NoLease)
            && (q.Choice? && q.mode == HolderStep && Succeeds(r) ==>
                  && w.process.current == Some(q.contextId)
                  && w.process.log != [] && w.process.log[|w.process.log| - 1] == Reached(q.contextId, false))
  {
    assert Inv(FreshPool(slots), slots);
    RunKeepsInv(FreshPool(slots), slots, ops);
    var w := Run(FreshPool(slots), slots, ops).workers[slot];
    assert WorkerOk(w, slot) && w.inbox[0] in w.inbox;
    var q := w.inbox[0];
    if q.Choice? && q.mode == HolderStep && Succeeds(Execute(w.process, slot, q, fate).1) {
      HolderStepFindsItsContext(w.process, slot, q, fate);
    }
  }

  /**
   Without the override rule the promise fails, for an override in the prefix and for one after it: a
   continuation succeeds on an overridden event.
   */
  lemma OverriddenContextIsTrusted(slot: Slot, ctx: string, plan: PlanKind)
    requires plan != NoPlan
    ensures var fate := Fate(false, true, false, true, false);
            var boot := Choice(BootstrapStep, ctx, None, plan, false);
            var p := Execute(Process(1, None, []), slot, boot, fate).0;
            var next := Choice(HolderStep, ctx, Some(Lease(slot, 1, ctx)), NoPlan, true);
            && Succeeds(Execute(p, slot, next, fate).1)
            && p.log[|p.log| - 1] != Reached(ctx, false)
  {
    var fate := Fate(false, true, false, true, false);
    var boot := Choice(BootstrapStep, ctx, None, plan, false);
    assert Execute(Process(1, None, []), slot, boot, fate).0 ==
           Process(1, Some(ctx), [Reached(ctx, plan == InPrefix)] + if plan == AtEnd then [Overridden] else []);
  }
}
