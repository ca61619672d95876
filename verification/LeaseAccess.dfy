/**
 The process-wide mutation lease (game_access.py).

 `Access` is the state of one `GameAccess` object and `Apply` is one call on it.  The class
 `GameAccess` carries the same state in fields and updates them the way the source does; each of
 its methods is tied to `Apply`, and the lemmas at the end are about whole runs of `Apply`.
 */
module LeaseAccess {
  import opened Wrappers

  /** Identity of the opaque Python object a lease is issued to. */
  type Holder = nat

  datatype LeaseState = Run | Combat | Transferring | Poisoned

  datatype GameLease = GameLease(holder: Holder, state: LeaseState, generation: nat)

  datatype AccessError = NotCurrent | BadTarget

  /** What `begin` remembers so that `rollback` can restore it. */
  datatype Origin = Origin(state: LeaseState, holder: Option<Holder>)

  datatype Access = Access(
    state: LeaseState, holder: Option<Holder>, generation: nat, origin: Option<Origin>)

  const UNCLAIMED := Access(Run, None, 0, None)

  datatype Op =
    | Claim(holder: Holder, state: LeaseState)
    | Release(lease: GameLease)
    | Begin(lease: GameLease)
    | Commit(transfer: GameLease, target: LeaseState, newHolder: Holder)
    | Rollback(transfer: GameLease)
    | Poison

  datatype Outcome = Outcome(next: Access, issued: Option<GameLease>, accepted: bool)

  /** `lease` may mutate the game right now. */
  predicate Current(a: Access, lease: GameLease) {
    && a.state != Poisoned && a.state != Transferring
    && lease.generation == a.generation
    && a.holder == Some(lease.holder)
    && lease.state == a.state
  }

  /** `transfer` may complete the hand-off in progress. */
  predicate CurrentTransfer(a: Access, transfer: GameLease) {
    && a.state == Transferring
    && transfer.state == Transferring
    && transfer.generation == a.generation
    && a.origin.Some?
    && a.origin.value.holder == Some(transfer.holder)
  }

  function Rejected(a: Access): Outcome {
    Outcome(a, None, false)
  }

  /** One call.  A rejected call is the one whose Python counterpart raises. */
  function Apply(a: Access, op: Op): Outcome {
    var g := a.generation + 1;
    match op
    case Claim(h, s) =>
      if a.state == Poisoned || a.state == Transferring then Rejected(a)
      else Outcome(Access(s, Some(h), g, a.origin), Some(GameLease(h, s, g)), true)
    case Release(l) =>
      if !Current(a, l) then Rejected(a)
      else Outcome(a.(holder := None, generation := g), None, true)
    case Begin(l) =>
      if !Current(a, l) then Rejected(a)
      else Outcome(Access(Transferring, a.holder, g, Some(Origin(a.state, a.holder))),
                   Some(GameLease(l.holder, Transferring, g)), true)
    case Commit(t, target, h) =>
      if !CurrentTransfer(a, t) || (target != Run && target != Combat) then Rejected(a)
      else Outcome(Access(target, Some(h), g, None), Some(GameLease(h, target, g)), true)
    case Rollback(t) =>
      if !CurrentTransfer(a, t) then Rejected(a)
      else
        var o := a.origin.value;
        Outcome(Access(o.state, o.holder, g, None), Some(GameLease(t.holder, o.state, g)), true)
    case Poison =>
      Outcome(Access(Poisoned, None, g, None), None, true)
  }

  class GameAccess {
    var state: LeaseState
    var holder: Option<Holder>
    var generation: nat
    var transferOrigin: Option<Origin>

    ghost function Abs(): Access
      reads this
    {
      Access(state, holder, generation, transferOrigin)
    }

    constructor ()
      ensures Abs() == UNCLAIMED
    {
      state, holder, generation, transferOrigin := Run, None, 0, None;
    }

    /** `_validate_current`: does `lease` pass? */
    method ValidateCurrent(lease: GameLease) returns (ok: bool)
      ensures ok == Current(Abs(), lease)
    {
      if state == Poisoned || state == Transferring { return false; }
      ok := lease.generation == generation && holder == Some(lease.holder) && lease.state == state;
    }

    /** `_validate_transfer`: does `transfer` pass? */
    method ValidateTransfer(transfer: GameLease) returns (ok: bool)
      ensures ok == CurrentTransfer(Abs(), transfer)
    {
      if state != Transferring || transfer.state != Transferring { return false; }
      if transfer.generation != generation || transferOrigin.None? { return false; }
      ok := transferOrigin.value.holder == Some(transfer.holder);
    }

    method Claim(newHolder: Holder, newState: LeaseState) returns (r: Result<GameLease, AccessError>)
      modifies this
      ensures Abs() == Apply(old(Abs()), Op.Claim(newHolder, newState)).next
      ensures r == LeaseResult(Apply(old(Abs()), Op.Claim(newHolder, newState)))
    {
      if state == Poisoned || state == Transferring { return Err(NotCurrent); }
      state := newState;
      holder := Some(newHolder);
      generation := generation + 1;
      r := Ok(GameLease(newHolder, newState, generation));
    }

    method Release(lease: GameLease) returns (ok: bool)
      modifies this
      ensures Abs() == Apply(old(Abs()), Op.Release(lease)).next
      ensures ok == old(Current(Abs(), lease))
    {
      ok := ValidateCurrent(lease);
      if !ok { return; }
      holder := None;
      generation := generation + 1;
    }

    /** `mutating_game`: succeeds exactly for the current lease and changes nothing. */
    method MutatingGame(lease: GameLease) returns (ok: bool)
      ensures ok == Current(Abs(), lease)
    {
      ok := ValidateCurrent(lease);
    }

    method Begin(lease: GameLease) returns (r: Result<GameLease, AccessError>)
      modifies this
      ensures Abs() == Apply(old(Abs()), Op.Begin(lease)).next
      ensures r == LeaseResult(Apply(old(Abs()), Op.Begin(lease)))
    {
      var ok := ValidateCurrent(lease);
      if !ok { return Err(NotCurrent); }
      transferOrigin := Some(Origin(state, holder));
      state := Transferring;
      generation := generation + 1;
      r := Ok(GameLease(lease.holder, Transferring, generation));
    }

    method Commit(transfer: GameLease, target: LeaseState, newHolder: Holder)
      returns (r: Result<GameLease, AccessError>)
      modifies this
      ensures Abs() == Apply(old(Abs()), Op.Commit(transfer, target, newHolder)).next
      ensures r.Ok? <==> Apply(old(Abs()), Op.Commit(transfer, target, newHolder)).accepted
      ensures r.Ok? ==> Some(r.value) == Apply(old(Abs()), Op.Commit(transfer, target, newHolder)).issued
      ensures r == Err(BadTarget) <==> old(CurrentTransfer(Abs(), transfer)) && target != Run && target != Combat
    {
      var ok := ValidateTransfer(transfer);
      if !ok { return Err(NotCurrent); }
      if target != Run && target != Combat { return Err(BadTarget); }
      state := target;
      holder := Some(newHolder);
      transferOrigin := None;
      generation := generation + 1;
      r := Ok(GameLease(newHolder, target, generation));
    }

    method Rollback(transfer: GameLease) returns (r: Result<GameLease, AccessError>)
      modifies this
      ensures Abs() == Apply(old(Abs()), Op.Rollback(transfer)).next
      ensures r == LeaseResult(Apply(old(Abs()), Op.Rollback(transfer)))
    {
      var ok := ValidateTransfer(transfer);
      if !ok { return Err(NotCurrent); }
      state := transferOrigin.value.state;
      holder := transferOrigin.value.holder;
      transferOrigin := None;
      generation := generation + 1;
      r := Ok(GameLease(holder.value, state, generation));
    }

    method Poison()
      modifies this
      ensures Abs() == Apply(old(Abs()), Op.Poison).next
    {
      state := Poisoned;
      holder := None;
      transferOrigin := None;
      generation := generation + 1;
    }
  }

  /** How a lease-issuing call reports its outcome. */
  function LeaseResult(o: Outcome): Result<GameLease, AccessError> {
    if o.accepted && o.issued.Some? then Ok(o.issued.value) else Err(NotCurrent)
  }

  // ---- Whole runs ---------------------------------------------------------------------------

  /** An access together with every lease it ever handed out, oldest first. */
  datatype World = World(access: Access, issued: seq<GameLease>)

  const NOTHING_ISSUED := World(UNCLAIMED, [])

  function Step(w: World, op: Op): World {
    var o := Apply(w.access, op);
    World(o.next, if o.issued.Some? then w.issued + [o.issued.value] else w.issued)
  }

  function RunOps(w: World, ops: seq<Op>): World
    decreases |ops|
  {
    if ops == [] then w else RunOps(Step(w, ops[0]), ops[1..])
  }

  /** Callers only ever claim RUN or COMBAT; `claim` itself does not check. */
  predicate Legal(op: Op) {
    op.Claim? ==> op.state == Run || op.state == Combat
  }

  predicate AllLegal(ops: seq<Op>) {
    forall op <- ops :: Legal(op)
  }

  /** The states `begin`, `commit`, `rollback` and `poison` are written for. */
  predicate Shape(a: Access) {
    && (a.state == Transferring <==> a.origin.Some?)
    && (a.state == Poisoned ==> a.holder.None?)
    && (a.origin.Some? ==>
          && a.origin.value.holder.Some?
          && (a.origin.value.state == Run || a.origin.value.state == Combat))
  }

  /** The one lease that is not dead, when there is one. */
  function Newest(a: Access): Option<GameLease> {
    if a.state == Poisoned then None
    else if a.state == Transferring then
      if a.origin.Some? && a.origin.value.holder.Some?
      then Some(GameLease(a.origin.value.holder.value, Transferring, a.generation)) else None
    else if a.holder.Some? then Some(GameLease(a.holder.value, a.state, a.generation))
    else None
  }

  ghost predicate Invariant(w: World) {
    && Shape(w.access)
    && (forall i | 0 <= i < |w.issued| :: w.issued[i].generation <= w.access.generation)
    && (forall i, j | 0 <= i < j < |w.issued| :: w.issued[i].generation < w.issued[j].generation)
    && (Newest(w.access).Some? ==> |w.issued| > 0 && w.issued[|w.issued| - 1] == Newest(w.access).value)
  }

  lemma StepKeepsInvariant(w: World, op: Op)
    requires Invariant(w) && Legal(op)
    ensures Invariant(Step(w, op))
  {
  }

  lemma {:induction false} RunKeepsInvariant(w: World, ops: seq<Op>)
    requires Invariant(w) && AllLegal(ops)
    ensures Invariant(RunOps(w, ops))
    decreases |ops|
  {
    if ops != [] {
      assert ops[0] in ops && AllLegal(ops[1..]);
      StepKeepsInvariant(w, ops[0]);
      RunKeepsInvariant(Step(w, ops[0]), ops[1..]);
    }
  }

  /** How many calls of a run were accepted. */
  function Accepted(w: World, ops: seq<Op>): nat
    decreases |ops|
  {
    if ops == [] then 0
    else (if Apply(w.access, ops[0]).accepted then 1 else 0) + Accepted(Step(w, ops[0]), ops[1..])
  }

  /** The generation is a count of accepted calls, and it alone tells whether anything happened. */
  lemma {:induction false} GenerationCountsAcceptedCalls(w: World, ops: seq<Op>)
    ensures RunOps(w, ops).access.generation == w.access.generation + Accepted(w, ops)
    ensures Accepted(w, ops) == 0 ==> RunOps(w, ops) == w
    decreases |ops|
  {
    if ops != [] {
      GenerationCountsAcceptedCalls(Step(w, ops[0]), ops[1..]);
    }
  }

  /** At most one lease ever issued can mutate, and it is the last one issued. */
  lemma AtMostOneLeaseMutates(ops: seq<Op>, i: nat)
    requires AllLegal(ops)
    requires i < |RunOps(NOTHING_ISSUED, ops).issued|
    requires Current(RunOps(NOTHING_ISSUED, ops).access, RunOps(NOTHING_ISSUED, ops).issued[i])
    ensures i == |RunOps(NOTHING_ISSUED, ops).issued| - 1
  {
    RunKeepsInvariant(NOTHING_ISSUED, ops);
  }

  /** A lease that cannot mutate now never mutates again, whatever is called next. */
  lemma {:induction false} StaleStaysStale(ops: seq<Op>, more: seq<Op>, lease: GameLease)
    requires AllLegal(ops) && AllLegal(more)
    requires lease in RunOps(NOTHING_ISSUED, ops).issued
    requires !Current(RunOps(NOTHING_ISSUED, ops).access, lease)
    ensures !Current(RunOps(RunOps(NOTHING_ISSUED, ops), more).access, lease)
  {
    RunKeepsInvariant(NOTHING_ISSUED, ops);
    DeadForever(RunOps(NOTHING_ISSUED, ops), more, lease);
  }

  lemma {:induction false} DeadForever(w: World, ops: seq<Op>, lease: GameLease)
    requires Invariant(w) && AllLegal(ops)
    requires lease.generation <= w.access.generation && !Current(w.access, lease)
    ensures !Current(RunOps(w, ops).access, lease)
    decreases |ops|
  {
    if ops != [] {
      assert ops[0] in ops && AllLegal(ops[1..]);
      StepKeepsInvariant(w, ops[0]);
      DeadForever(Step(w, ops[0]), ops[1..], lease);
    }
  }

  /** POISONED is absorbing: no later call issues a lease, and no lease mutates. */
  lemma {:induction false} PoisonIsAbsorbing(w: World, ops: seq<Op>)
    requires w.access.state == Poisoned
    ensures RunOps(w, ops).access.state == Poisoned
    ensures RunOps(w, ops).issued == w.issued
    ensures forall lease :: !Current(RunOps(w, ops).access, lease)
    decreases |ops|
  {
    if ops != [] {
      PoisonIsAbsorbing(Step(w, ops[0]), ops[1..]);
    }
  }

  /** During a hand-off nothing mutates, and only its own transfer lease or `poison` ends it. */
  lemma TransferIsExclusive(ops: seq<Op>, op: Op)
    requires AllLegal(ops)
    requires RunOps(NOTHING_ISSUED, ops).access.state == Transferring
    ensures forall lease :: !Current(RunOps(NOTHING_ISSUED, ops).access, lease)
    ensures var w := RunOps(NOTHING_ISSUED, ops);
            |w.issued| > 0 &&
            (Apply(w.access, op).accepted <==>
             || op.Poison?
             || (op.Rollback? && op.transfer == w.issued[|w.issued| - 1])
             || (op.Commit? && op.transfer == w.issued[|w.issued| - 1]
                 && (op.target == Run || op.target == Combat)))
  {
    RunKeepsInvariant(NOTHING_ISSUED, ops);
  }

  /** A failed hand-off restores state and holder exactly, under a new lease of the same holder. */
  lemma RollbackRestoresExactly(w: World, lease: GameLease, more: seq<Op>)
    requires Invariant(w) && AllLegal(more) && Current(w.access, lease)
    ensures var begun := Apply(w.access, Begin(lease));
            begun.issued.Some? &&
            var back := Apply(begun.next, Rollback(begun.issued.value));
            && back.next == w.access.(generation := w.access.generation + 2, origin := None)
            && back.issued.Some? && back.issued.value.holder == lease.holder
            && Current(back.next, back.issued.value)
    ensures !Current(RunOps(w, [Begin(lease),
                     Rollback(GameLease(lease.holder, Transferring, w.access.generation + 1))] + more).access, lease)
  {
    var t := GameLease(lease.holder, Transferring, w.access.generation + 1);
    var ops := [Begin(lease), Rollback(t)] + more;
    var w1 := Step(w, Begin(lease));
    var w2 := Step(w1, Rollback(t));
    assert ops[1..] == [Rollback(t)] + more && ops[1..][1..] == more;
    assert RunOps(w, ops) == RunOps(w1, ops[1..]) == RunOps(w2, more);
    StepKeepsInvariant(w, Begin(lease));
    StepKeepsInvariant(w1, Rollback(t));
    DeadForever(w2, more, lease);
  }

  /**
   `claim` does not check its state argument.  An accepted claim leaves a well-shaped access
   exactly when the argument is RUN or COMBAT.
   */
  lemma ClaimKeepsShapeIff(a: Access, h: Holder, s: LeaseState)
    requires Shape(a) && a.state != Poisoned && a.state != Transferring
    ensures Shape(Apply(a, Claim(h, s)).next) <==> (s == Run || s == Combat)
  {
  }

  /** Claiming TRANSFERRING wedges the access: nothing but `poison` is accepted ever again. */
  lemma {:induction false} ClaimingTransferringWedges(a: Access, h: Holder, ops: seq<Op>)
    requires Shape(a) && a.state != Poisoned && a.state != Transferring
    requires forall op <- ops :: !op.Poison?
    ensures var w := World(Apply(a, Claim(h, Transferring)).next, []);
            RunOps(w, ops) == w
  {
    WedgedStays(World(Apply(a, Claim(h, Transferring)).next, []), ops);
  }

  lemma {:induction false} WedgedStays(w: World, ops: seq<Op>)
    requires w.access.state == Transferring && w.access.origin.None?
    requires forall op <- ops :: !op.Poison?
    ensures RunOps(w, ops) == w
    decreases |ops|
  {
    if ops != [] {
      assert ops[0] in ops;
      assert Step(w, ops[0]) == w;
      WedgedStays(w, ops[1..]);
    }
  }
}
