/**
 Routing, leases and the dispatch loop of the worker pool (Run/worker_pool.py:197-255, 877-1102).

 The shared result queue is a script of arrivals: a message with a request id, or a `get` that times
 out.  A script that has run out keeps timing out.  Results may carry any request id.
 */
module WorkerPool {
  import opened Wrappers

  datatype Slot = Main | Branch(index: nat)

  datatype WorkKind = Continuation | SubBranch

  datatype WorkItem = WorkItem(workId: string, kind: WorkKind, contextId: string)

  datatype Lease = Lease(slot: Slot, generation: nat, contextId: string)

  datatype Mode = BootstrapStep | HolderStep

  datatype BranchResult =
    | Success(slot: Slot, established: Option<Lease>, content: int)
    | Fault(faultSlot: Option<Slot>, generation: Option<nat>, timedOut: bool, content: int)

  type Leases = map<string, Lease>

  predicate ValidFor(l: Lease, item: WorkItem, generation: nat) {
    item.kind == Continuation && l.contextId == item.contextId && l.generation == generation
  }

  // ---- Leases ----------------------------------------------------------------------------------------

  /** A lease is filed under the context it is for. */
  predicate Filed(ls: Leases) {
    forall c <- ls :: ls[c].contextId == c
  }

  function Holding(ls: Leases): set<Slot> {
    set c | c in ls :: ls[c].slot
  }

  function WithoutWorker(ls: Leases, slot: Slot): Leases {
    map c | c in ls && ls[c].slot != slot :: ls[c]
  }

  function WithoutGeneration(ls: Leases, slot: Slot, generation: nat): Leases {
    map c | c in ls && !(ls[c].slot == slot && ls[c].generation == generation) :: ls[c]
  }

  class LeaseRegistry {
    var leases: Leases

    constructor ()
      ensures leases == map[]
    {
      leases := map[];
    }

    method Set(lease: Lease)
      modifies this
      ensures leases == old(leases)[lease.contextId := lease]
      ensures old(Filed(leases)) ==> Filed(leases)
    {
      leases := leases[lease.contextId := lease];
    }

    method Invalidate(contextId: string)
      modifies this
      ensures leases == old(leases) - {contextId}
      ensures old(Filed(leases)) ==> Filed(leases)
    {
      leases := leases - {contextId};
    }

    /** Drops `lease` only while it is still the one on file. */
    method InvalidateLease(lease: Lease)
      modifies this
      ensures leases ==
              if lease.contextId in old(leases) && old(leases)[lease.contextId] == lease
              then old(leases) - {lease.contextId} else old(leases)
      ensures old(Filed(leases)) ==> Filed(leases)
    {
      if lease.contextId in leases && leases[lease.contextId] == lease {
        leases := leases - {lease.contextId};
      }
    }

    method InvalidateWorkerGeneration(slot: Slot, generation: nat)
      modifies this
      ensures leases == WithoutGeneration(old(leases), slot, generation)
      ensures old(Filed(leases)) ==> Filed(leases)
    {
      var todo := leases.Keys;
      while todo != {}
        invariant todo <= leases.Keys <= old(leases).Keys
        invariant forall c <- leases :: leases[c] == old(leases)[c]
        invariant forall c | c in old(leases) && c !in todo ::
                    c in leases <==> !(old(leases)[c].slot == slot && old(leases)[c].generation == generation)
        decreases |todo|
      {
        var c :| c in todo;
        if leases[c].slot == slot && leases[c].generation == generation {
          leases := leases - {c};
        }
        todo := todo - {c};
      }
    }

    method InvalidateWorkerAllGenerations(slot: Slot)
      modifies this
      ensures leases == WithoutWorker(old(leases), slot)
      ensures old(Filed(leases)) ==> Filed(leases)
    {
      var todo := leases.Keys;
      while todo != {}
        invariant todo <= leases.Keys <= old(leases).Keys
        invariant forall c <- leases :: leases[c] == old(leases)[c]
        invariant forall c | c in old(leases) && c !in todo :: c in leases <==> old(leases)[c].slot != slot
        decreases |todo|
      {
        var c :| c in todo;
        if leases[c].slot == slot {
          leases := leases - {c};
        }
        todo := todo - {c};
      }
    }
  }

  // ---- Routing ---------------------------------------------------------------------------------------

  function Unleased(slots: seq<Slot>, ls: Leases): seq<Slot> {
    if slots == [] then []
    else (if slots[0] in Holding(ls) then [] else [slots[0]]) + Unleased(slots[1..], ls)
  }

  function Candidates(slots: seq<Slot>, ls: Leases): (r: seq<Slot>)
    ensures slots != [] ==> r != []
  {
    if Unleased(slots, ls) != [] then Unleased(slots, ls) else slots
  }

  /** `i % size`, by taking whole rounds off; see `PositionIsRemainder`. */
  function Position(i: nat, size: nat): (p: nat)
    requires size > 0
    ensures p < size
  {
    if i < size then i else Position(i - size, size)
  }

  function TurnOf(slots: seq<Slot>, i: nat): (s: Slot)
    requires slots != []
    ensures s in slots
  {
    slots[Position(i, |slots|)]
  }

  function ChooseBootstrapSlot(slots: seq<Slot>, ls: Leases, next: nat): Slot
    requires slots != []
  {
    TurnOf(Candidates(slots, ls), next)
  }

  datatype Routed =
    | Route(mode: Mode, slot: Slot, lease: Option<Lease>, next: nat, leases: Leases)
    | NoHolder(leases: Leases)

  function RouteWorkItem(item: WorkItem, ls: Leases, slots: seq<Slot>, gens: map<Slot, nat>, next: nat,
      pin: Option<Slot>): Routed
    requires slots != []
  {
    if item.kind == Continuation then
      if item.contextId !in ls then NoHolder(ls)
      else
        var lease := ls[item.contextId];
        var slot := if pin.Some? then pin.value else lease.slot;
        if slot in gens && ValidFor(lease, item, gens[slot]) then Route(HolderStep, slot, Some(lease), next, ls)
        else NoHolder(ls - {item.contextId})
    else
      var slot := ChooseBootstrapSlot(slots, ls, next);
      Route(BootstrapStep, slot, None, next + 1, if slot in Holding(ls) then WithoutWorker(ls, slot) else ls)
  }

  /** The slots a batch of sub-branches goes to, one after the other, and the leases left. */
  function RouteSubBranches(n: nat, ls: Leases, slots: seq<Slot>, next: nat): (r: (seq<Slot>, Leases))
    requires slots != []
    ensures |r.0| == n
  {
    if n == 0 then ([], ls)
    else
      var slot := ChooseBootstrapSlot(slots, ls, next);
      var rest := RouteSubBranches(n - 1, if slot in Holding(ls) then WithoutWorker(ls, slot) else ls, slots, next + 1);
      ([slot] + rest.0, rest.1)
  }

  lemma {:induction false} UnleasedIs(slots: seq<Slot>, ls: Leases)
    ensures forall s :: s in Unleased(slots, ls) <==> s in slots && s !in Holding(ls)
    ensures (forall i, j | 0 <= i < j < |slots| :: slots[i] != slots[j]) ==>
              forall i, j | 0 <= i < j < |Unleased(slots, ls)| :: Unleased(slots, ls)[i] != Unleased(slots, ls)[j]
  {
    if slots != [] {
      UnleasedIs(slots[1..], ls);
      assert forall s :: s in slots <==> s == slots[0] || s in slots[1..];
    }
  }

  lemma OnlyTheEvictedIsFree(slots: seq<Slot>, ls: Leases, slot: Slot)
    requires slot in slots && Unleased(slots, ls) == []
    ensures var free := Unleased(slots, WithoutWorker(ls, slot)); free != [] && forall s <- free :: s == slot
  {
    var free := Unleased(slots, WithoutWorker(ls, slot));
    UnleasedIs(slots, ls);
    UnleasedIs(slots, WithoutWorker(ls, slot));
    HoldingWithout(ls, slot);
    assert slot in free;
    forall s <- free ensures s == slot {
      assert s !in Unleased(slots, ls);
    }
  }

  lemma HoldingWithout(ls: Leases, slot: Slot)
    ensures Holding(WithoutWorker(ls, slot)) == Holding(ls) - {slot}
  {
    forall s | s in Holding(ls) && s != slot ensures s in Holding(WithoutWorker(ls, slot)) {
      var c :| c in ls && ls[c].slot == s;
      assert c in WithoutWorker(ls, slot);
    }
  }

  lemma FreeSlotIsNotEvicted(slots: seq<Slot>, ls: Leases, next: nat)
    requires slots != [] && Unleased(slots, ls) != []
    ensures ChooseBootstrapSlot(slots, ls, next) == TurnOf(Unleased(slots, ls), next)
    ensures ChooseBootstrapSlot(slots, ls, next) !in Holding(ls)
  {
    UnleasedIs(slots, ls);
  }

  /** The slots that turns `next`, `next + 1`, ... fall on. */
  function Turns(free: seq<Slot>, next: nat, n: nat): (r: seq<Slot>)
    requires free != []
    ensures |r| == n && forall s <- r :: s in free
    decreases n
  {
    if n == 0 then [] else [TurnOf(free, next)] + Turns(free, next + 1, n - 1)
  }

  lemma {:induction false} TurnsLast(free: seq<Slot>, next: nat, n: nat)
    requires free != [] && n > 0
    ensures Turns(free, next, n) == Turns(free, next, n - 1) + [TurnOf(free, next + n - 1)]
    decreases n
  {
    if n > 1 {
      TurnsLast(free, next + 1, n - 1);
      assert next + 1 + (n - 1) - 1 == next + n - 1;
    }
  }

  /** With an unleased worker about, nothing is evicted and the unleased workers take turns. */
  lemma {:induction false} FreeWorkersTakeTurns(n: nat, ls: Leases, slots: seq<Slot>, next: nat)
    requires slots != [] && Unleased(slots, ls) != []
    ensures RouteSubBranches(n, ls, slots, next) == (Turns(Unleased(slots, ls), next, n), ls)
  {
    if n > 0 {
      FreeSlotIsNotEvicted(slots, ls, next);
      FreeWorkersTakeTurns(n - 1, ls, slots, next + 1);
    }
  }

  /** With every worker leased, one loses its leases and the whole batch goes to it. */
  lemma {:induction false} OneWorkerIsEvicted(n: nat, ls: Leases, slots: seq<Slot>, next: nat)
    requires slots != [] && Unleased(slots, ls) == [] && n > 0
    ensures var r := RouteSubBranches(n, ls, slots, next); var victim := TurnOf(slots, next);
            && r.1 == WithoutWorker(ls, victim) && |r.0| == n
            && (forall s <- r.0 :: s == victim)
  {
    var victim := TurnOf(slots, next);
    assert ChooseBootstrapSlot(slots, ls, next) == victim;
    AllLeased(slots, ls, victim);
    OnlyTheEvictedIsFree(slots, ls, victim);
    var left := WithoutWorker(ls, victim);
    FreeWorkersTakeTurns(n - 1, left, slots, next + 1);
    assert RouteSubBranches(n, ls, slots, next) == ([victim] + Turns(Unleased(slots, left), next + 1, n - 1), left);
  }

  lemma AllLeased(slots: seq<Slot>, ls: Leases, slot: Slot)
    requires Unleased(slots, ls) == [] && slot in slots
    ensures slot in Holding(ls)
  {
    UnleasedIs(slots, ls);
    assert slot !in Unleased(slots, ls);
  }

  /** How many of the first `n` turns, starting at `next`, fall on position `i` of `size`. */
  function Load(i: nat, size: nat, next: nat, n: nat): nat
    requires i < size
  {
    if n == 0 then 0 else Load(i, size, next, n - 1) + if Position(next + n - 1, size) == i then 1 else 0
  }

  lemma {:induction false} ProductAtLeast(a: nat, k: int)
    requires k >= 1
    ensures a * k >= a
    decreases k
  {
    if k > 1 {
      ProductAtLeast(a, k - 1);
      Distribute(a, k - 1, 1);
    }
  }

  lemma Distribute(a: int, b: int, c: int)
    ensures a * (b + c) == a * b + a * c
  {
  }

  lemma RemainderIsUnique(size: nat, q1: int, r1: int, q2: int, r2: int)
    requires size * q1 + r1 == size * q2 + r2
    requires 0 <= r1 < size && 0 <= r2 < size
    ensures r1 == r2
  {
    if q1 > q2 {
      ProductAtLeast(size, q1 - q2);
      Distribute(size, q1 - q2, q2);
    } else if q2 > q1 {
      ProductAtLeast(size, q2 - q1);
      Distribute(size, q2 - q1, q1);
    }
  }

  lemma RemainderIs(i: nat, size: nat, q: int, r: int)
    requires i == size * q + r && 0 <= r < size
    ensures i % size == r
  {
    RemainderIsUnique(size, i / size, i % size, q, r);
  }

  /** The position in the ring is the remainder. */
  lemma {:induction false} PositionIsRemainder(i: nat, size: nat)
    requires size > 0
    ensures Position(i, size) == i % size
  {
    var q := Quotient(i, size);
    RemainderIs(i, size, q, Position(i, size));
  }

  lemma {:induction false} Quotient(i: nat, size: nat) returns (q: int)
    requires size > 0
    ensures i == size * q + Position(i, size)
  {
    if i < size {
      q := 0;
    } else {
      var p := Quotient(i - size, size);
      Distribute(size, p, 1);
      q := p + 1;
    }
  }

  /** The next position is one further, wrapping round. */
  lemma {:induction false} NextTurn(x: nat, size: nat)
    requires size > 0
    ensures Position(x + 1, size) == if Position(x, size) + 1 == size then 0 else Position(x, size) + 1
  {
    if x >= size { NextTurn(x - size, size); }
  }

  /** Full rounds among the first `n` turns. */
  function Rounds(size: nat, next: nat, n: nat): nat
    requires size > 0
  {
    if n == 0 then 0 else Rounds(size, next, n - 1) + if Position(next + n, size) == Position(next, size) then 1 else 0
  }

  /** Position `i` lies between `start` and `stop` on the ring. */
  predicate Between(i: nat, start: nat, stop: nat) {
    if start <= stop then start <= i < stop else i >= start || i < stop
  }

  /** Every position has had a turn in each full round, and those already passed have had one more. */
  lemma {:induction false} LoadIs(i: nat, size: nat, next: nat, n: nat)
    requires i < size
    ensures Load(i, size, next, n)
            == Rounds(size, next, n) + if Between(i, Position(next, size), Position(next + n, size)) then 1 else 0
  {
    if n > 0 {
      LoadIs(i, size, next, n - 1);
      NextTurn(next + n - 1, size);
    }
  }

  /** In a batch, two workers' shares differ by at most one. */
  lemma SharesDifferByAtMostOne(i: nat, j: nat, size: nat, next: nat, n: nat)
    requires i < size && j < size
    ensures Load(i, size, next, n) <= Load(j, size, next, n) + 1
  {
    LoadIs(i, size, next, n);
    LoadIs(j, size, next, n);
  }

  function Share(route: seq<Slot>, slot: Slot): nat {
    if route == [] then 0 else Share(route[..|route| - 1], slot) + if route[|route| - 1] == slot then 1 else 0
  }

  lemma {:induction false} ShareIsLoad(free: seq<Slot>, next: nat, n: nat, i: nat)
    requires i < |free|
    requires forall j, k | 0 <= j < k < |free| :: free[j] != free[k]
    ensures Share(Turns(free, next, n), free[i]) == Load(i, |free|, next, n)
  {
    if n > 0 {
      ShareIsLoad(free, next, n - 1, i);
      TurnsLast(free, next, n);
    }
  }

  lemma FreeSharesAreEven(slots: seq<Slot>, ls: Leases, next: nat, n: nat, a: Slot, b: Slot)
    requires forall i, j | 0 <= i < j < |slots| :: slots[i] != slots[j]
    requires a in Unleased(slots, ls) && b in Unleased(slots, ls)
    ensures var route := Turns(Unleased(slots, ls), next, n); Share(route, a) <= Share(route, b) + 1
  {
    var free := Unleased(slots, ls);
    UnleasedIs(slots, ls);
    var i :| 0 <= i < |free| && free[i] == a;
    var j :| 0 <= j < |free| && free[j] == b;
    ShareIsLoad(free, next, n, i);
    ShareIsLoad(free, next, n, j);
    SharesDifferByAtMostOne(i, j, |free|, next, n);
  }

  lemma EvictedAtMost(ls: Leases, left: Leases, victim: Slot)
    requires left == ls || left == WithoutWorker(ls, victim)
    ensures |Holding(ls) - Holding(left)| <= 1
  {
    if left == ls {
      assert Holding(ls) - Holding(left) == {};
    } else {
      HoldingWithout(ls, victim);
      if victim in Holding(ls) {
        assert Holding(ls) - Holding(left) == {victim};
      } else {
        assert Holding(ls) - Holding(left) == {};
      }
    }
  }

  /**
   A batch of sub-branches evicts the leases of at most one worker, and of none while some branch
   worker holds no lease; then the unleased workers' shares of the batch differ by at most one.
   */
  lemma SubBranchesEvictAtMostOneWorker(n: nat, ls: Leases, slots: seq<Slot>, next: nat)
    requires slots != [] && forall i, j | 0 <= i < j < |slots| :: slots[i] != slots[j]
    ensures var r := RouteSubBranches(n, ls, slots, next);
            var free := Unleased(slots, ls);
            && |Holding(ls) - Holding(r.1)| <= 1 && (forall c <- r.1 :: c in ls && r.1[c] == ls[c])
            && (free != [] ==>
                  && r.1 == ls
                  && (forall k | 0 <= k < |r.0| :: r.0[k] in free)
                  && (forall a, b | a in free && b in free :: Share(r.0, a) <= Share(r.0, b) + 1))
  {
    var r := RouteSubBranches(n, ls, slots, next);
    var free := Unleased(slots, ls);
    if free != [] {
      FreeWorkersTakeTurns(n, ls, slots, next);
      forall a, b | a in free && b in free ensures Share(r.0, a) <= Share(r.0, b) + 1 {
        FreeSharesAreEven(slots, ls, next, n, a, b);
      }
    } else if n > 0 {
      OneWorkerIsEvicted(n, ls, slots, next);
    }
    EvictedAtMost(ls, r.1, TurnOf(slots, next));
  }

  /**
   A sub-branch always routes, with a fresh worker state and the turn moving on by one.  While some worker holds
   no lease the turn falls on one of those and nothing is dropped; otherwise on any, and that one loses its leases.
   */
  lemma BootstrapTakesATurn(item: WorkItem, ls: Leases, slots: seq<Slot>, gens: map<Slot, nat>, next: nat,
      pin: Option<Slot>)
    requires slots != [] && item.kind == SubBranch
    ensures var r, free := RouteWorkItem(item, ls, slots, gens, next, pin), Unleased(slots, ls);
            && r.Route? && r.mode == BootstrapStep && r.lease == None && r.next == next + 1
            && (forall c :: c in r.leases <==> c in ls && ls[c].slot != r.slot)
            && (forall c <- r.leases :: r.leases[c] == ls[c])
            && (free != [] <==> exists s :: s in slots && forall c <- ls :: ls[c].slot != s)
            && if free != [] then r.leases == ls && r.slot == free[next % |free|]
               else r.slot == slots[next % |slots|]
  {
    var free := Unleased(slots, ls);
    UnleasedIs(slots, ls);
    if free != [] {
      PositionIsRemainder(next, |free|);
      FreeSlotIsNotEvicted(slots, ls, next);
      assert free[0] in slots && free[0] !in Holding(ls);
    } else {
      PositionIsRemainder(next, |slots|);
    }
    if s :| s in slots && forall c <- ls :: ls[c].slot != s {
      assert s in free;
    }
  }

  // ---- Routing a batch -------------------------------------------------------------------------------

  datatype Batch = Batch(routes: seq<Routed>, leases: Leases, next: nat, ok: bool)

  function PinOf(pins: map<string, Slot>, item: WorkItem): Option<Slot> {
    if item.workId in pins then Some(pins[item.workId]) else None
  }

  /** Stops at the first continuation nobody holds; what was routed before it has been sent already. */
  function RouteAll(items: seq<WorkItem>, ls: Leases, slots: seq<Slot>, gens: map<Slot, nat>, next: nat,
                    pins: map<string, Slot>): (b: Batch)
    requires slots != []
    ensures |b.routes| <= |items| && (b.ok <==> |b.routes| == |items|)
    ensures forall r <- b.routes :: r.Route?
    decreases |items|
  {
    if items == [] then Batch([], ls, next, true)
    else
      var r := RouteWorkItem(items[0], ls, slots, gens, next, PinOf(pins, items[0]));
      if r.NoHolder? then Batch([], r.leases, next, false)
      else
        var rest := RouteAll(items[1..], r.leases, slots, gens, r.next, pins);
        rest.(routes := [r] + rest.routes)
  }

  /** What batch `b` still has to route from item `k` on. */
  ghost predicate Ahead(items: seq<WorkItem>, k: nat, ls: Leases, slots: seq<Slot>, gens: map<Slot, nat>, next: nat,
                        pins: map<string, Slot>, b: Batch) {
    && slots != [] && k <= |items| && k <= |b.routes|
    && RouteAll(items[k..], ls, slots, gens, next, pins) == b.(routes := b.routes[k..])
  }

  lemma AllRouted(items: seq<WorkItem>, ls: Leases, slots: seq<Slot>, gens: map<Slot, nat>, next: nat,
                  pins: map<string, Slot>, b: Batch)
    requires Ahead(items, |items|, ls, slots, gens, next, pins, b)
    ensures b.ok && b.leases == ls && b.next == next && |b.routes| == |items|
  {
  }

  lemma RouteAllStep(items: seq<WorkItem>, k: nat, ls: Leases, slots: seq<Slot>, gens: map<Slot, nat>, next: nat,
                     pins: map<string, Slot>, b: Batch)
    requires slots != [] && k < |items| && k <= |b.routes|
    requires RouteAll(items[k..], ls, slots, gens, next, pins) == b.(routes := b.routes[k..])
    ensures var r := RouteWorkItem(items[k], ls, slots, gens, next, PinOf(pins, items[k]));
            if r.NoHolder? then |b.routes| == k && b.leases == r.leases && b.next == next && !b.ok
            else |b.routes| > k && b.routes[k] == r
                 && RouteAll(items[k + 1..], r.leases, slots, gens, r.next, pins) == b.(routes := b.routes[k + 1..])
  {
    assert items[k..][0] == items[k] && items[k..][1..] == items[k + 1..];
    var all := RouteAll(items[k..], ls, slots, gens, next, pins);
    assert all.routes == b.routes[k..];
    if RouteWorkItem(items[k], ls, slots, gens, next, PinOf(pins, items[k])).Route? {
      assert b.routes[k] == b.routes[k..][0];
      assert all.routes[1..] == b.routes[k + 1..];
    }
  }

  lemma RouteAllHead(items: seq<WorkItem>, ls: Leases, slots: seq<Slot>, gens: map<Slot, nat>, next: nat,
      pins: map<string, Slot>)
    requires slots != [] && items != []
    ensures var r := RouteWorkItem(items[0], ls, slots, gens, next, PinOf(pins, items[0]));
            RouteAll(items, ls, slots, gens, next, pins) ==
            if r.NoHolder? then Batch([], r.leases, next, false)
            else Led(r, RouteAll(items[1..], r.leases, slots, gens, r.next, pins))
  {
  }

  function Led(r: Routed, b: Batch): Batch {
    b.(routes := [r] + b.routes)
  }

  /** What batch `b` does once the batch `a` has routed. */
  function Followed(a: Batch, b: Batch): Batch {
    b.(routes := a.routes + b.routes)
  }

  lemma LedFollowed(r: Routed, a: Batch, b: Batch)
    ensures Followed(Led(r, a), b) == Led(r, Followed(a, b))
  {
    assert [r] + a.routes + b.routes == [r] + (a.routes + b.routes);
  }

  lemma {:induction false} RouteAllConcat(a: seq<WorkItem>, b: seq<WorkItem>, ls: Leases, slots: seq<Slot>,
      gens: map<Slot, nat>, next: nat, pins: map<string, Slot>)
    requires slots != [] && RouteAll(a, ls, slots, gens, next, pins).ok
    ensures var x := RouteAll(a, ls, slots, gens, next, pins);
            RouteAll(a + b, ls, slots, gens, next, pins) ==
            Followed(x, RouteAll(b, x.leases, slots, gens, x.next, pins))
    decreases |a|
  {
    if a == [] {
      assert a + b == b;
      AfterNothing(ls, next, RouteAll(b, ls, slots, gens, next, pins));
    } else {
      var r := RouteWorkItem(a[0], ls, slots, gens, next, PinOf(pins, a[0]));
      RouteAllHead(a, ls, slots, gens, next, pins);
      var x := RouteAll(a[1..], r.leases, slots, gens, r.next, pins);
      assert (a + b)[0] == a[0] && (a + b)[1..] == a[1..] + b;
      RouteAllHead(a + b, ls, slots, gens, next, pins);
      RouteAllConcat(a[1..], b, r.leases, slots, gens, r.next, pins);
      LedFollowed(r, x, RouteAll(b, x.leases, slots, gens, x.next, pins));
    }
  }

  lemma AfterNothing(ls: Leases, next: nat, b: Batch)
    ensures Followed(Batch([], ls, next, true), b) == b
  {
    assert [] + b.routes == b.routes;
  }

  /** A continuation nobody holds ends the batch there, its lease dropped if it had one; those before it are sent. */
  lemma UnheldEndsTheBatch(items: seq<WorkItem>, k: nat, ls: Leases, slots: seq<Slot>, gens: map<Slot, nat>,
      next: nat, pins: map<string, Slot>)
    requires slots != [] && k < |items|
    requires RouteAll(items[..k], ls, slots, gens, next, pins).ok && items[k].kind == Continuation
    requires var left, slot := RouteAll(items[..k], ls, slots, gens, next, pins).leases, PinOf(pins, items[k]);
             items[k].contextId in left ==>
               var to := if slot.Some? then slot.value else left[items[k].contextId].slot;
               to !in gens || gens[to] != left[items[k].contextId].generation
    ensures var x := RouteAll(items[..k], ls, slots, gens, next, pins);
            var b := RouteAll(items, ls, slots, gens, next, pins);
            !b.ok && b.routes == x.routes && b.leases == x.leases - {items[k].contextId}
  {
    var x := RouteAll(items[..k], ls, slots, gens, next, pins);
    assert items == items[..k] + items[k..];
    RouteAllConcat(items[..k], items[k..], ls, slots, gens, next, pins);
    RouteAllHead(items[k..], x.leases, slots, gens, x.next, pins);
    UnheldIsDropped(items[k], x.leases, slots, gens, x.next, PinOf(pins, items[k]));
    assert x.routes + [] == x.routes;
  }

  lemma UnheldIsDropped(item: WorkItem, ls: Leases, slots: seq<Slot>, gens: map<Slot, nat>, next: nat,
      pin: Option<Slot>)
    requires slots != [] && item.kind == Continuation
    requires item.contextId in ls ==>
               var to := if pin.Some? then pin.value else ls[item.contextId].slot;
               to !in gens || gens[to] != ls[item.contextId].generation
    ensures RouteWorkItem(item, ls, slots, gens, next, pin) == NoHolder(ls - {item.contextId})
  {
    assert item.contextId !in ls ==> ls - {item.contextId} == ls;
  }

  /** A holder step goes out only under a lease of the target's current generation. */
  lemma {:induction false} HolderStepsAreCurrent(
      items: seq<WorkItem>, ls: Leases, slots: seq<Slot>, gens: map<Slot, nat>,
                                                 next: nat, pins: map<string, Slot>, k: nat)
    requires slots != [] && Filed(ls)
    requires k < |RouteAll(items, ls, slots, gens, next, pins).routes|
    ensures var r := RouteAll(items, ls, slots, gens, next, pins).routes[k];
            && (r.mode == HolderStep <==> items[k].kind == Continuation)
            && (r.mode == HolderStep ==>
                  && r.lease.Some? && r.slot in gens
                  && r.lease.value.generation == gens[r.slot] && r.lease.value.contextId == items[k].contextId
                  && (items[k].workId !in pins ==> r.lease.value.slot == r.slot))
            && (r.mode == BootstrapStep ==> r.slot in slots)
    decreases |items|
  {
    var r := RouteWorkItem(items[0], ls, slots, gens, next, PinOf(pins, items[0]));
    if k > 0 {
      HolderStepsAreCurrent(items[1..], r.leases, slots, gens, r.next, pins, k - 1);
    } else if items[0].kind == SubBranch {
      UnleasedIs(slots, ls);
    }
  }

  /** A pin is trusted on the generation alone: the step may go to a worker the lease is not for. */
  lemma PinnedStepLeavesItsHolderIff(item: WorkItem, ls: Leases, slots: seq<Slot>, gens: map<Slot, nat>, next: nat,
      pin: Slot)
    requires slots != [] && item.kind == Continuation && Filed(ls)
    requires item.contextId in ls && ls[item.contextId].slot in gens
             && gens[ls[item.contextId].slot] == ls[item.contextId].generation
    ensures var r := RouteWorkItem(item, ls, slots, gens, next, Some(pin));
            (r.Route? && r.slot != ls[item.contextId].slot) <==>
            (pin != ls[item.contextId].slot && pin in gens && gens[pin] == gens[ls[item.contextId].slot])
  {
  }

  function SlotsIn(routes: seq<Routed>): seq<Slot> {
    if routes == [] then [] else [if routes[0].Route? then routes[0].slot else Main] + SlotsIn(routes[1..])
  }

  /** A batch of sub-branches alone always routes, the way `RouteSubBranches` says. */
  lemma SubBranchBatch(items: seq<WorkItem>, ls: Leases, slots: seq<Slot>, gens: map<Slot, nat>, next: nat,
      pins: map<string, Slot>)
    requires slots != [] && forall it <- items :: it.kind == SubBranch
    ensures MatchesRoute(RouteAll(items, ls, slots, gens, next, pins), RouteSubBranches(|items|, ls, slots, next),
            next + |items|)
  {
    SubBranchesRoute(|items|, items, ls, slots, gens, next, pins, next + |items|);
  }

  lemma {:induction false} SubBranchesRoute(n: nat, items: seq<WorkItem>, ls: Leases, slots: seq<Slot>,
      gens: map<Slot, nat>, next: nat, pins: map<string, Slot>, stop: nat)
    requires slots != [] && n == |items| && stop == next + n
    requires forall k | 0 <= k < n :: items[k].kind == SubBranch
    ensures MatchesRoute(RouteAll(items, ls, slots, gens, next, pins), RouteSubBranches(n, ls, slots, next), stop)
    decreases n
  {
    if n == 0 {
      NoSubBranch(items, ls, slots, gens, next, pins);
    } else {
      var slot := ChooseBootstrapSlot(slots, ls, next);
      var left := if slot in Holding(ls) then WithoutWorker(ls, slot) else ls;
      SubBranchesRoute(n - 1, items[1..], left, slots, gens, next + 1, pins, stop);
      SubBranchFirst(n, items, ls, slots, gens, next, pins, slot, left, stop);
    }
  }

  lemma NoSubBranch(items: seq<WorkItem>, ls: Leases, slots: seq<Slot>, gens: map<Slot, nat>, next: nat,
      pins: map<string, Slot>)
    requires slots != [] && items == []
    ensures MatchesRoute(RouteAll(items, ls, slots, gens, next, pins), RouteSubBranches(0, ls, slots, next), next)
  {
  }

  lemma SubBranchFirst(n: nat, items: seq<WorkItem>, ls: Leases, slots: seq<Slot>, gens: map<Slot, nat>, next: nat,
      pins: map<string, Slot>, slot: Slot, left: Leases, stop: nat)
    requires slots != [] && 0 < n == |items| && items[0].kind == SubBranch
    requires slot == ChooseBootstrapSlot(slots, ls, next)
    requires left == if slot in Holding(ls) then WithoutWorker(ls, slot) else ls
    requires MatchesRoute(RouteAll(items[1..], left, slots, gens, next + 1, pins),
                          RouteSubBranches(n - 1, left, slots, next + 1), stop)
    ensures MatchesRoute(RouteAll(items, ls, slots, gens, next, pins), RouteSubBranches(n, ls, slots, next), stop)
  {
    SubBranchHead(items, ls, slots, gens, next, pins);
    RouteSubBranchesHead(n, ls, slots, next);
    MatchesOneMore(Route(BootstrapStep, slot, None, next + 1, left),
                   RouteAll(items[1..], left, slots, gens, next + 1, pins),
                   RouteSubBranches(n - 1, left, slots, next + 1), stop);
  }

  /** The batch routed to these slots, leaving these leases and this turn. */
  predicate MatchesRoute(b: Batch, r: (seq<Slot>, Leases), next: nat) {
    b.ok && b.leases == r.1 && b.next == next && SlotsIn(b.routes) == r.0
  }

  lemma MatchesOneMore(head: Routed, b: Batch, r: (seq<Slot>, Leases), next: nat)
    requires head.Route? && MatchesRoute(b, r, next)
    ensures MatchesRoute(b.(routes := [head] + b.routes), ([head.slot] + r.0, r.1), next)
  {
    SlotsInHead(head, b.routes);
  }

  lemma SlotsInHead(r: Routed, rest: seq<Routed>)
    requires r.Route?
    ensures SlotsIn([r] + rest) == [r.slot] + SlotsIn(rest)
  {
    assert ([r] + rest)[1..] == rest;
  }

  lemma RouteSubBranchesHead(n: nat, ls: Leases, slots: seq<Slot>, next: nat)
    requires slots != [] && n > 0
    ensures var slot := ChooseBootstrapSlot(slots, ls, next);
            var left := if slot in Holding(ls) then WithoutWorker(ls, slot) else ls;
            var rest := RouteSubBranches(n - 1, left, slots, next + 1);
            RouteSubBranches(n, ls, slots, next) == ([slot] + rest.0, rest.1)
  {
  }

  lemma SubBranchHead(items: seq<WorkItem>, ls: Leases, slots: seq<Slot>, gens: map<Slot, nat>, next: nat,
      pins: map<string, Slot>)
    requires slots != [] && items != [] && items[0].kind == SubBranch
    ensures var slot := ChooseBootstrapSlot(slots, ls, next);
            var left := if slot in Holding(ls) then WithoutWorker(ls, slot) else ls;
            var b := RouteAll(items[1..], left, slots, gens, next + 1, pins);
            RouteAll(items, ls, slots, gens, next, pins) ==
            b.(routes := [Route(BootstrapStep, slot, None, next + 1, left)] + b.routes)
  {
  }

  // ---- Arrivals --------------------------------------------------------------------------------------

  datatype Arrival = Empty | Message(requestId: nat, result: BranchResult)

  datatype Pending = Pending(id: nat, item: WorkItem, slot: Slot, mode: Mode, lease: Option<Lease>)

  /** The first answer to `id` before the queue runs dry. */
  function FirstAnswer(script: seq<Arrival>, id: nat): Option<BranchResult> {
    if script == [] || script[0].Empty? then None
    else if script[0].requestId == id then Some(script[0].result)
    else FirstAnswer(script[1..], id)
  }

  /** How many arrivals come before the first answer to `id`, or before the queue runs dry. */
  function AnswerAt(script: seq<Arrival>, id: nat): nat {
    if script == [] || script[0].Empty? || script[0].requestId == id then 0 else 1 + AnswerAt(script[1..], id)
  }

  function TimedOut(p: Pending, gens: map<Slot, nat>): BranchResult {
    Fault(Some(p.slot), if p.slot in gens then Some(gens[p.slot]) else None, true, 0)
  }

  function OutcomeOf(script: seq<Arrival>, p: Pending, gens: map<Slot, nat>): BranchResult {
    var a := FirstAnswer(script, p.id);
    if a.Some? then a.value else TimedOut(p, gens)
  }

  /** The workers given up on. */
  function Hung(script: seq<Arrival>, pending: map<nat, Pending>): set<Slot> {
    set id | id in pending && FirstAnswer(script, id).None? :: pending[id].slot
  }

  /** An answer to `id` that nothing but answers to other requests comes before. */
  predicate AnsweredAt(script: seq<Arrival>, id: nat, r: BranchResult, j: nat)
    requires j < |script|
  {
    script[j] == Message(id, r) && forall i | 0 <= i < j :: script[i].Message? && script[i].requestId != id
  }

  /** The first answer is the first message with the id, if the queue has not run dry by then. */
  lemma {:induction false} FirstAnswerIs(script: seq<Arrival>, id: nat, r: BranchResult)
    ensures FirstAnswer(script, id) == Some(r) <==> exists j | 0 <= j < |script| :: AnsweredAt(script, id, r, j)
  {
    if script != [] && script[0].Message? && script[0].requestId != id {
      FirstAnswerIs(script[1..], id, r);
      if j :| 0 <= j < |script| && AnsweredAt(script, id, r, j) {
        assert AnsweredAt(script[1..], id, r, j - 1);
      }
      if j :| 0 <= j < |script| - 1 && AnsweredAt(script[1..], id, r, j) {
        assert AnsweredAt(script, id, r, j + 1);
      }
    } else if script != [] && script[0] == Message(id, r) {
      assert AnsweredAt(script, id, r, 0);
    }
  }

  /** It is settled at the arrival that answers it. */
  lemma {:induction false} SettledWhenAnswered(script: seq<Arrival>, id: nat, r: BranchResult, j: nat)
    requires j < |script| && AnsweredAt(script, id, r, j)
    ensures AnswerAt(script, id) == j
  {
    if j > 0 {
      assert script[0].Message? && AnsweredAt(script[1..], id, r, j - 1);
      SettledWhenAnswered(script[1..], id, r, j - 1);
    }
  }

  ghost predicate Unanswered(script: seq<Arrival>, id: nat) {
    forall r, j | 0 <= j < |script| :: !AnsweredAt(script, id, r, j)
  }

  lemma UnansweredIff(script: seq<Arrival>, id: nat)
    ensures Unanswered(script, id) <==> FirstAnswer(script, id).None?
  {
    if FirstAnswer(script, id).Some? {
      FirstAnswerIs(script, id, FirstAnswer(script, id).value);
    } else {
      forall r, j | 0 <= j < |script| ensures !AnsweredAt(script, id, r, j) {
        FirstAnswerIs(script, id, r);
      }
    }
  }

  /** A worker is given up on exactly if one of the requests sent to it has no answer. */
  lemma HungIff(script: seq<Arrival>, pending: map<nat, Pending>, slot: Slot)
    ensures slot in Hung(script, pending) <==>
            exists id :: id in pending && pending[id].slot == slot && Unanswered(script, id)
  {
    forall id | id in pending ensures Unanswered(script, id) <==> FirstAnswer(script, id).None? {
      UnansweredIff(script, id);
    }
  }

  /** What is left of a script once the answers to other requests are taken out. */
  function OnlyFor(script: seq<Arrival>, ids: set<nat>): seq<Arrival> {
    if script == [] then []
    else (if script[0].Empty? || script[0].requestId in ids then [script[0]] else []) + OnlyFor(script[1..], ids)
  }

  /** Answers to requests outside the batch make no difference, however many come and whenever. */
  lemma {:induction false} LateAnswersAreIgnored(script: seq<Arrival>, ids: set<nat>, id: nat)
    requires id in ids
    ensures FirstAnswer(script, id) == FirstAnswer(OnlyFor(script, ids), id)
  {
    if script != [] {
      LateAnswersAreIgnored(script[1..], ids, id);
      var kept := OnlyFor(script, ids);
      if script[0].Empty? || script[0].requestId in ids {
        assert kept[0] == script[0] && kept[1..] == OnlyFor(script[1..], ids);
      } else {
        assert kept == OnlyFor(script[1..], ids);
      }
    }
  }

  /** Nothing that arrives after a first answer, duplicates included, replaces it. */
  lemma {:induction false} DuplicatesAreIgnored(script: seq<Arrival>, more: seq<Arrival>, id: nat)
    requires FirstAnswer(script, id).Some?
    ensures FirstAnswer(script + more, id) == FirstAnswer(script, id)
  {
    assert (script + more)[0] == script[0];
    if script[0].requestId != id {
      assert (script + more)[1..] == script[1..] + more;
      DuplicatesAreIgnored(script[1..], more, id);
    }
  }

  // ---- The pool --------------------------------------------------------------------------------------

  function SettleOne(ls: Leases, item: WorkItem, result: BranchResult): Leases {
    var kept := ls - {item.contextId};
    match result
    case Success(_, Some(lease), _) => kept[lease.contextId := lease]
    case Success(_, None, _) => kept
    case Fault(Some(slot), _, _, _) => WithoutWorker(kept, slot)
    case Fault(None, _, _, _) => kept
  }

  /** After the results: each item's context loses its lease, a success may file one, a fault drops its worker's. */
  function Settle(ls: Leases, items: seq<WorkItem>, results: seq<BranchResult>): Leases
    requires |items| == |results|
  {
    if items == [] then ls
    else
      var n := |items| - 1;
      SettleOne(Settle(ls, items[..n], results[..n]), items[n], results[n])
  }

  lemma SettleOneMore(ls: Leases, items: seq<WorkItem>, k: nat, answers: seq<BranchResult>, result: BranchResult)
    requires k < |items| && |answers| == k
    ensures Settle(ls, items[..k + 1], answers + [result]) ==
            SettleOne(Settle(ls, items[..k], answers), items[k], result)
  {
    assert items[..k + 1][..k] == items[..k] && (answers + [result])[..k] == answers;
  }

  lemma {:induction false} SettleKeepsFiled(ls: Leases, items: seq<WorkItem>, results: seq<BranchResult>)
    requires |items| == |results| && Filed(ls)
    ensures Filed(Settle(ls, items, results))
  {
    if items != [] {
      SettleKeepsFiled(ls, items[..|items| - 1], results[..|items| - 1]);
    }
  }

  // ---- Which lease a context is left with -------------------------------------------------------------

  /** This result establishes a lease for the context. */
  predicate Establishes(r: BranchResult, ctx: string) {
    r.Success? && r.established.Some? && r.established.value.contextId == ctx
  }

  /** The item is of this context, or its result files a lease for it. */
  predicate Touches(items: seq<WorkItem>, results: seq<BranchResult>, j: nat, ctx: string)
    requires j < |items| == |results|
  {
    items[j].contextId == ctx || Establishes(results[j], ctx)
  }

  /** Nothing from item `from` on touches the context or faults on the worker. */
  predicate Undisturbed(items: seq<WorkItem>, results: seq<BranchResult>, from: nat, ctx: string, slot: Slot)
    requires |items| == |results|
  {
    forall i | from <= i < |items| ::
      !Touches(items, results, i, ctx) && !(results[i].Fault? && results[i].faultSlot == Some(slot))
  }

  predicate OnFile(ls: Leases, ctx: string, lease: Lease) {
    ctx in ls && ls[ctx] == lease
  }

  predicate EstablishedAt(items: seq<WorkItem>, results: seq<BranchResult>, j: nat, ctx: string, lease: Lease)
    requires j < |items| == |results|
  {
    && results[j].Success? && results[j].established == Some(lease) && lease.contextId == ctx
    && Undisturbed(items, results, j + 1, ctx, lease.slot)
  }

  /**
   After the results, a context holds a lease exactly if the last result to touch the context established it
   and no later fault names its worker, or it was on file before and nothing disturbed it.
   */
  lemma {:induction false} HoldsAfterIff(ls: Leases, items: seq<WorkItem>, results: seq<BranchResult>, ctx: string,
      lease: Lease)
    requires |items| == |results|
    ensures OnFile(Settle(ls, items, results), ctx, lease) <==>
            || (exists j | 0 <= j < |items| :: EstablishedAt(items, results, j, ctx, lease))
            || (OnFile(ls, ctx, lease) && Undisturbed(items, results, 0, ctx, lease.slot))
  {
    if items != [] {
      var n := |items| - 1;
      HoldsAfterIff(ls, items[..n], results[..n], ctx, lease);
      SettledLastly(Settle(ls, items[..n], results[..n]), items[n], results[n], ctx, lease);
      LastlyUndisturbed(items, results, ctx, lease);
    }
  }

  lemma SettledLastly(ls: Leases, item: WorkItem, result: BranchResult, ctx: string, lease: Lease)
    ensures OnFile(SettleOne(ls, item, result), ctx, lease) <==>
            || (result.Success? && result.established == Some(lease) && lease.contextId == ctx)
            || (OnFile(ls, ctx, lease) && item.contextId != ctx && !Establishes(result, ctx)
                && !(result.Fault? && result.faultSlot == Some(lease.slot)))
  {
  }

  lemma LastlyUndisturbed(items: seq<WorkItem>, results: seq<BranchResult>, ctx: string, lease: Lease)
    requires 0 < |items| == |results|
    ensures var n := |items| - 1;
            var calm := !Touches(items, results, n, ctx)
                        && !(results[n].Fault? && results[n].faultSlot == Some(lease.slot));
            && (Undisturbed(items, results, 0, ctx, lease.slot) <==>
                calm && Undisturbed(items[..n], results[..n], 0, ctx, lease.slot))
            && ((exists j | 0 <= j < |items| :: EstablishedAt(items, results, j, ctx, lease)) <==>
                || (results[n].Success? && results[n].established == Some(lease) && lease.contextId == ctx)
                || (calm && exists j | 0 <= j < n :: EstablishedAt(items[..n], results[..n], j, ctx, lease)))
  {
    var n := |items| - 1;
    forall i | 0 <= i < n
      ensures Touches(items[..n], results[..n], i, ctx) == Touches(items, results, i, ctx)
    {
    }
    forall j | 0 <= j <= n
      ensures Undisturbed(items, results, j, ctx, lease.slot) <==>
              && !Touches(items, results, n, ctx)
              && !(results[n].Fault? && results[n].faultSlot == Some(lease.slot))
              && Undisturbed(items[..n], results[..n], j, ctx, lease.slot)
    {
      UndisturbedInit(items, results, j, ctx, lease.slot);
    }
    if results[n].Success? && results[n].established == Some(lease) && lease.contextId == ctx {
      assert EstablishedAt(items, results, n, ctx, lease);
    }
    forall j | 0 <= j < n
      ensures EstablishedAt(items, results, j, ctx, lease) <==>
              && !Touches(items, results, n, ctx)
              && !(results[n].Fault? && results[n].faultSlot == Some(lease.slot))
              && EstablishedAt(items[..n], results[..n], j, ctx, lease)
    {
    }
  }

  lemma UndisturbedInit(items: seq<WorkItem>, results: seq<BranchResult>, from: nat, ctx: string, slot: Slot)
    requires from < |items| == |results|
    ensures var n := |items| - 1;
            Undisturbed(items, results, from, ctx, slot) <==>
            && !Touches(items, results, n, ctx) && !(results[n].Fault? && results[n].faultSlot == Some(slot))
            && Undisturbed(items[..n], results[..n], from, ctx, slot)
  {
    var n := |items| - 1;
    forall i | from <= i < n
      ensures Touches(items[..n], results[..n], i, ctx) == Touches(items, results, i, ctx)
      ensures results[..n][i] == results[i]
    {
    }
  }

  /**
   A continuation goes out, as a holder step under the lease on file for its context, exactly if that lease's
   generation is the current one of the worker it is sent to; otherwise the lease is dropped.
   */
  lemma ContinuationRoutesIff(item: WorkItem, ls: Leases, slots: seq<Slot>, gens: map<Slot, nat>, next: nat,
      pin: Option<Slot>)
    requires slots != [] && item.kind == Continuation && Filed(ls)
    ensures var r := RouteWorkItem(item, ls, slots, gens, next, pin);
            if item.contextId !in ls then r == NoHolder(ls)
            else
              var lease := ls[item.contextId];
              var slot := if pin.Some? then pin.value else lease.slot;
              r == if slot in gens && gens[slot] == lease.generation
                   then Route(HolderStep, slot, Some(lease), next, ls) else NoHolder(ls - {item.contextId})
  {
  }

  /** An established lease brings the context's next continuation to its worker while the generation stands. */
  lemma EstablishedIsContinued(ls: Leases, items: seq<WorkItem>, results: seq<BranchResult>, j: nat, lease: Lease,
      item: WorkItem, slots: seq<Slot>, gens: map<Slot, nat>, next: nat)
    requires j < |items| == |results| && Filed(ls) && slots != []
    requires results[j].Success? && results[j].established == Some(lease)
    requires Undisturbed(items, results, j + 1, lease.contextId, lease.slot)
    requires item.kind == Continuation && item.contextId == lease.contextId
    requires lease.slot in gens && gens[lease.slot] == lease.generation
    ensures var after := Settle(ls, items, results);
            RouteWorkItem(item, after, slots, gens, next, None) ==
            Route(HolderStep, lease.slot, Some(lease), next, after)
  {
    var after := Settle(ls, items, results);
    assert EstablishedAt(items, results, j, lease.contextId, lease);
    HoldsAfterIff(ls, items, results, lease.contextId, lease);
    SettleKeepsFiled(ls, items, results);
    ContinuationRoutesIff(item, after, slots, gens, next, None);
  }

  /** The request with this id; ids are consecutive, in item order. */
  function RequestOf(items: seq<WorkItem>, routes: seq<Routed>, firstId: nat, id: nat): Pending
    requires firstId < id <= firstId + |routes| <= firstId + |items|
  {
    match routes[id - firstId - 1]
    case Route(mode, slot, lease, _, _) => Pending(id, items[id - firstId - 1], slot, mode, lease)
    case NoHolder(_) => Pending(id, items[id - firstId - 1], Main, HolderStep, None)
  }

  function PendingWithId(pending: seq<Pending>, firstId: nat, id: nat): Pending
    requires firstId < id <= firstId + |pending|
  {
    pending[id - firstId - 1]
  }

  /** Ids of one batch follow each other. */
  function NthId(firstId: nat, k: nat): nat {
    firstId + 1 + k
  }

  datatype Counters = Counters(generations: map<Slot, nat>, nextBootstrapIndex: nat, nextRequestId: nat)

  /** The requests of a batch by id: consecutive ids, in item order. */
  function PendingMap(items: seq<WorkItem>, routes: seq<Routed>, firstId: nat): map<nat, Pending>
    requires |routes| <= |items|
  {
    map id: nat | firstId < id <= firstId + |routes| :: RequestOf(items, routes, firstId, id)
  }

  function SlotsOf(pending: map<nat, Pending>, ids: set<nat>): set<Slot>
    requires ids <= pending.Keys
  {
    set id | id in ids :: pending[id].slot
  }

  predicate PendingFor(pending: seq<Pending>, items: seq<WorkItem>, routes: seq<Routed>, firstId: nat) {
    && |pending| <= |routes| <= |items|
    && (forall k | 0 <= k < |pending| ::
          && routes[k].Route?
          && pending[k] == Pending(NthId(firstId, k), items[k], routes[k].slot, routes[k].mode, routes[k].lease))
  }

  lemma RespawnGrows(gens: map<Slot, nat>, now: map<Slot, nat>, leases: Leases, left: Leases, done: set<Slot>,
      slot: Slot)
    requires Respawned(gens, now, done) && left == Cleared(leases, gens, done) && slot !in done
    ensures GenerationOf(now, slot) == GenerationOf(gens, slot)
    ensures WithoutGeneration(left, slot, GenerationOf(now, slot)) == Cleared(leases, gens, done + {slot})
    ensures slot in gens ==> Respawned(gens, now[slot := GenerationOf(now, slot) + 1], done + {slot})
  {
  }

  /** Each hung worker is one generation on, once however many requests it let down. */
  predicate Respawned(before: map<Slot, nat>, after: map<Slot, nat>, hung: set<Slot>) {
    && after.Keys == before.Keys + hung
    && (forall s <- before :: after[s] == if s in hung then before[s] + 1 else before[s])
  }

  /** The leases of the generations given up on are gone, the others untouched. */
  function Cleared(leases: Leases, before: map<Slot, nat>, hung: set<Slot>): Leases {
    map c | c in leases && !Lost(leases[c], before, hung) :: leases[c]
  }

  predicate Abandoned(before: map<Slot, nat>, after: map<Slot, nat>, leasesBefore: Leases, leasesAfter: Leases,
      hung: set<Slot>) {
    Respawned(before, after, hung) && leasesAfter == Cleared(leasesBefore, before, hung)
  }

  predicate Lost(l: Lease, before: map<Slot, nat>, hung: set<Slot>) {
    l.slot in hung && l.generation == GenerationOf(before, l.slot)
  }

  function GenerationOf(gens: map<Slot, nat>, slot: Slot): nat {
    if slot in gens then gens[slot] else 0
  }

  /**
   A worker one of whose requests has no answer is one generation on afterwards, any other is as it was; what it
   held in the old generation is dropped, and nothing else.
   */
  lemma GivenUpWorkersMoveOn(before: map<Slot, nat>, after: map<Slot, nat>, ls: Leases, left: Leases,
      script: seq<Arrival>, pending: map<nat, Pending>, slot: Slot, c: string)
    requires Abandoned(before, after, ls, left, Hung(script, pending))
    requires slot in before && (c in ls ==> ls[c].slot == slot)
    ensures var hung := exists id :: id in pending && pending[id].slot == slot && Unanswered(script, id);
            && slot in after && after[slot] == (if hung then before[slot] + 1 else before[slot])
            && (c in left <==> c in ls && !(hung && ls[c].generation == before[slot]))
            && (c in left ==> left[c] == ls[c])
  {
    HungIff(script, pending, slot);
  }

  /** A request comes to its first answer, or to a time-out of the worker it went to, in its generation then. */
  lemma OutcomeIs(script: seq<Arrival>, p: Pending, gens: map<Slot, nat>, r: BranchResult)
    requires p.slot in gens
    ensures OutcomeOf(script, p, gens) == r <==>
            || (exists j | 0 <= j < |script| :: AnsweredAt(script, p.id, r, j))
            || (Unanswered(script, p.id) && r == Fault(Some(p.slot), Some(gens[p.slot]), true, 0))
  {
    FirstAnswerIs(script, p.id, r);
    UnansweredIff(script, p.id);
  }

  // ---- Results by work id ----------------------------------------------------------------------------

  /** Of all requests for the same work id, this one is settled last. */
  ghost predicate SettledLast(script: seq<Arrival>, pending: map<nat, Pending>, id: nat) {
    && id in pending
    && (forall j <- pending | pending[j].item.workId == pending[id].item.workId ::
          AnswerAt(script, j) <= AnswerAt(script, id))
  }

  /** `r` is the first answer to, or the timeout of, the last settled request for `work`. */
  ghost predicate ResultFor(script: seq<Arrival>, pending: map<nat, Pending>, gens: map<Slot, nat>, work: string,
                            r: BranchResult) {
    exists id :: SettledLast(script, pending, id) && pending[id].item.workId == work
        && r == OutcomeOf(script, pending[id], gens)
  }

  /** One result per item, in order: what its work id came to. */
  ghost predicate Answered(items: seq<WorkItem>, pending: map<nat, Pending>, gens: map<Slot, nat>,
                           script: seq<Arrival>, answers: seq<BranchResult>) {
    && |answers| == |items|
    && (forall k | 0 <= k < |items| :: ResultFor(script, pending, gens, items[k].workId, answers[k]))
  }

  predicate DistinctWork(items: seq<WorkItem>) {
    forall j, k | 0 <= j < k < |items| :: items[j].workId != items[k].workId
  }

  lemma RequestCarries(items: seq<WorkItem>, routes: seq<Routed>, first: nat, id: nat)
    requires |routes| <= |items| && id in PendingMap(items, routes, first)
    ensures first < id <= first + |routes| && PendingMap(items, routes, first)[id].item == items[id - first - 1]
  {
  }

  lemma SameWorkSameItem(items: seq<WorkItem>, j: int, k: int)
    requires DistinctWork(items) && 0 <= j < |items| && 0 <= k < |items| && items[j].workId == items[k].workId
    ensures j == k
  {
  }

  lemma NthIsPending(items: seq<WorkItem>, routes: seq<Routed>, first: nat, k: nat)
    requires |routes| == |items| && k < |items|
    ensures NthId(first, k) in PendingMap(items, routes, first)
  {
  }

  lemma LastRequest(script: seq<Arrival>, pending: map<nat, Pending>, gens: map<Slot, nat>, work: string,
      r: BranchResult)
    returns (id: nat)
    requires ResultFor(script, pending, gens, work, r)
    ensures id in pending && pending[id].item.workId == work && r == OutcomeOf(script, pending[id], gens)
  {
    id :| SettledLast(script, pending, id) && pending[id].item.workId == work
        && r == OutcomeOf(script, pending[id], gens);
  }

  /** The only request for a work id is the one settled last. */
  lemma OnlyRequestAnswers(items: seq<WorkItem>, pending: map<nat, Pending>, first: nat, gens: map<Slot, nat>,
                           script: seq<Arrival>, r: BranchResult, k: nat)
    requires DistinctWork(items) && k < |items| && NthId(first, k) in pending
    requires forall id <- pending :: first < id <= first + |items| && pending[id].item == items[id - first - 1]
    requires ResultFor(script, pending, gens, items[k].workId, r)
    ensures r == OutcomeOf(script, pending[NthId(first, k)], gens)
  {
    var id := LastRequest(script, pending, gens, items[k].workId, r);
    SameWorkSameItem(items, id - first - 1, k);
  }

  lemma RequestsCarry(items: seq<WorkItem>, routes: seq<Routed>, first: nat)
    requires |routes| == |items|
    ensures var pending := PendingMap(items, routes, first);
            forall id <- pending :: first < id <= first + |items| && pending[id].item == items[id - first - 1]
  {
    var pending := PendingMap(items, routes, first);
    forall id <- pending ensures first < id <= first + |items| && pending[id].item == items[id - first - 1] {
      RequestCarries(items, routes, first, id);
    }
  }

  lemma OwnRequestSettles(items: seq<WorkItem>, routes: seq<Routed>, first: nat, gens: map<Slot, nat>,
                          script: seq<Arrival>, r: BranchResult, k: nat)
    requires |routes| == |items| && DistinctWork(items) && k < |items|
    requires ResultFor(script, PendingMap(items, routes, first), gens, items[k].workId, r)
    ensures NthId(first, k) in PendingMap(items, routes, first)
    ensures r == OutcomeOf(script, PendingMap(items, routes, first)[NthId(first, k)], gens)
  {
    NthIsPending(items, routes, first, k);
    RequestsCarry(items, routes, first);
    OnlyRequestAnswers(items, PendingMap(items, routes, first), first, gens, script, r, k);
  }

  /** With distinct work ids, which `WorkIdsAreDistinct` gives, every item gets its own request's outcome. */
  lemma OwnRequestAnswers(items: seq<WorkItem>, routes: seq<Routed>, first: nat, gens: map<Slot, nat>,
                          script: seq<Arrival>, answers: seq<BranchResult>, k: nat)
    requires |routes| == |items| && DistinctWork(items) && k < |items|
    requires Answered(items, PendingMap(items, routes, first), gens, script, answers)
    ensures NthId(first, k) in PendingMap(items, routes, first)
    ensures answers[k] == OutcomeOf(script, PendingMap(items, routes, first)[NthId(first, k)], gens)
  {
    OwnRequestSettles(items, routes, first, gens, script, answers[k], k);
  }

  /**
   Half-way through a batch: `n` messages have been taken, `remaining` requests are open, and each
   settled work id has the answer of `winner`, its last settled request.
   */
  ghost predicate Collecting(script: seq<Arrival>, pending: map<nat, Pending>, remaining: set<nat>, n: nat,
                             results: map<string, BranchResult>, winner: map<string, nat>) {
    && remaining <= pending.Keys
    && (forall id <- pending | id !in remaining :: Won(script, pending, remaining, n, results, winner, id))
  }

  predicate Won(script: seq<Arrival>, pending: map<nat, Pending>, remaining: set<nat>, n: nat,
                results: map<string, BranchResult>, winner: map<string, nat>, id: nat)
    requires id in pending
  {
    var w := pending[id].item.workId;
    && AnswerAt(script, id) < n && FirstAnswer(script, id).Some?
    && w in winner && winner[w] in pending && winner[w] !in remaining && pending[winner[w]].item.workId == w
    && AnswerAt(script, id) <= AnswerAt(script, winner[w]) && FirstAnswer(script, winner[w]).Some?
    && w in results && results[w] == FirstAnswer(script, winner[w]).value
  }

  /** The open requests see the rest of the script as the whole of it. */
  predicate SeesRest(script: seq<Arrival>, rest: seq<Arrival>, n: nat, id: nat) {
    FirstAnswer(rest, id) == FirstAnswer(script, id) && AnswerAt(script, id) == n + AnswerAt(rest, id)
  }

  lemma TakesAnswer(script: seq<Arrival>, pending: map<nat, Pending>, remaining: set<nat>, n: nat,
                    results: map<string, BranchResult>, winner: map<string, nat>, id: nat, result: BranchResult)
    requires Collecting(script, pending, remaining, n, results, winner) && id in remaining
    requires AnswerAt(script, id) == n && FirstAnswer(script, id) == Some(result)
    ensures var w := pending[id].item.workId;
            Collecting(script, pending, remaining - {id}, n + 1, results[w := result], winner[w := id])
  {
    var w := pending[id].item.workId;
    forall j <- pending | j !in remaining - {id}
      ensures Won(script, pending, remaining - {id}, n + 1, results[w := result], winner[w := id], j)
    {
      if j != id { assert Won(script, pending, remaining, n, results, winner, j); }
    }
  }

  lemma SkipsMessage(script: seq<Arrival>, pending: map<nat, Pending>, remaining: set<nat>, n: nat,
                     results: map<string, BranchResult>, winner: map<string, nat>)
    requires Collecting(script, pending, remaining, n, results, winner)
    ensures Collecting(script, pending, remaining, n + 1, results, winner)
  {
    forall j <- pending | j !in remaining ensures Won(script, pending, remaining, n + 1, results, winner, j) {
      assert Won(script, pending, remaining, n, results, winner, j);
    }
  }

  /** The work ids of these requests. */
  function Works(pending: map<nat, Pending>, ids: set<nat>): set<string>
    requires ids <= pending.Keys
  {
    set id | id in ids :: pending[id].item.workId
  }

  /** Results of other work ids are still what they were. */
  predicate KeptBut(works: set<string>, before: map<string, BranchResult>, after: map<string, BranchResult>) {
    forall w <- before | w !in works :: w in after && after[w] == before[w]
  }

  lemma KeptThrough(works: set<string>, a: map<string, BranchResult>, b: map<string, BranchResult>,
                    c: map<string, BranchResult>)
    requires KeptBut(works, a, b) && KeptBut(works, b, c)
    ensures KeptBut(works, a, c)
  {
  }

  predicate IsTimeoutFor(pending: map<nat, Pending>, ids: set<nat>, gens: map<Slot, nat>, work: string, r: BranchResult)
    requires ids <= pending.Keys
  {
    exists id <- ids :: pending[id].item.workId == work && r == TimedOut(pending[id], gens)
  }

  /** The requests waiting for these workers have timeouts under their work ids. */
  ghost predicate TimeoutsFor(pending: map<nat, Pending>, ids: set<nat>, results: map<string, BranchResult>,
                              gens: map<Slot, nat>, slots: set<Slot>)
    requires ids <= pending.Keys
  {
    forall id <- ids | pending[id].slot in slots ::
      && pending[id].item.workId in results
      && IsTimeoutFor(pending, ids, gens, pending[id].item.workId, results[pending[id].item.workId])
  }

  /** The workers `done` are respawned, and their requests have their timeouts. */
  ghost predicate AbandonedSoFar(pending: map<nat, Pending>, ids: set<nat>, first: map<string, BranchResult>,
      filled: map<string, BranchResult>, gens: map<Slot, nat>, now: map<Slot, nat>, leases: Leases, left: Leases,
      done: set<Slot>)
    requires ids <= pending.Keys
  {
    && Abandoned(gens, now, leases, left, done)
    && TimeoutsFor(pending, ids, filled, gens, done)
    && KeptBut(Works(pending, ids), first, filled)
  }

  lemma NothingAbandoned(pending: map<nat, Pending>, ids: set<nat>, results: map<string, BranchResult>,
      gens: map<Slot, nat>, leases: Leases)
    requires ids <= pending.Keys
    ensures AbandonedSoFar(pending, ids, results, results, gens, gens, leases, leases, {})
  {
  }

  /** Filling in one more worker's timeouts leaves a timeout wherever there was one. */
  lemma TimeoutsGrow(pending: map<nat, Pending>, ids: set<nat>, slot: Slot, gens: map<Slot, nat>, done: set<Slot>,
                     results: map<string, BranchResult>, filled: map<string, BranchResult>, fault: BranchResult)
    requires ids <= pending.Keys && TimeoutsFor(pending, ids, results, gens, done)
    requires forall id <- ids | pending[id].slot == slot ::
               && TimedOut(pending[id], gens) == fault
               && pending[id].item.workId in filled && filled[pending[id].item.workId] == fault
    requires KeptBut(Works(pending, set id | id in ids && pending[id].slot == slot), results, filled)
    ensures TimeoutsFor(pending, ids, filled, gens, done + {slot})
  {
    forall id <- ids | pending[id].slot in done + {slot}
      ensures pending[id].item.workId in filled
      ensures IsTimeoutFor(pending, ids, gens, pending[id].item.workId, filled[pending[id].item.workId])
    {
      var w := pending[id].item.workId;
      if w in Works(pending, set j | j in ids && pending[j].slot == slot) {
        var j :| j in ids && pending[j].slot == slot && pending[j].item.workId == w;
        assert filled[w] == TimedOut(pending[j], gens);
      }
    }
  }

  /** When the queue has run dry, every work id has the outcome of its last settled request. */
  lemma DryIsSettled(script: seq<Arrival>, pending: map<nat, Pending>, remaining: set<nat>, n: nat,
                     results: map<string, BranchResult>, winner: map<string, nat>, gens: map<Slot, nat>,
                     filled: map<string, BranchResult>, id: nat)
    requires Collecting(script, pending, remaining, n, results, winner) && id in pending
    requires forall j <- pending :: pending[j].id == j
    requires forall j <- remaining :: AnswerAt(script, j) == n && FirstAnswer(script, j).None?
    requires TimeoutsFor(pending, remaining, filled, gens, SlotsOf(pending, remaining))
    requires KeptBut(Works(pending, remaining), results, filled)
    ensures pending[id].item.workId in filled
    ensures ResultFor(script, pending, gens, pending[id].item.workId, filled[pending[id].item.workId])
  {
    var w := pending[id].item.workId;
    if w in Works(pending, remaining) {
      var j :| j in remaining && pending[j].item.workId == w;
      assert pending[j].slot in SlotsOf(pending, remaining);
      assert IsTimeoutFor(pending, remaining, gens, w, filled[w]);
      var t :| t in remaining && pending[t].item.workId == w && filled[w] == TimedOut(pending[t], gens);
      LastOfAll(script, pending, remaining, n, results, winner, t);
    } else {
      assert Won(script, pending, remaining, n, results, winner, id);
      WinnerIsLast(script, pending, remaining, n, results, winner, id);
      assert filled[w] == OutcomeOf(script, pending[winner[w]], gens);
    }
  }

  lemma AllSettled(script: seq<Arrival>, rest: seq<Arrival>, pending: map<nat, Pending>, remaining: set<nat>,
                   results: map<string, BranchResult>, winner: map<string, nat>, gens: map<Slot, nat>,
                   filled: map<string, BranchResult>)
    requires |rest| <= |script| && Collecting(script, pending, remaining, |script| - |rest|, results, winner)
    requires forall j <- pending :: pending[j].id == j
    requires forall j <- remaining :: SeesRest(script, rest, |script| - |rest|, j)
    requires remaining == {} || rest == [] || rest[0].Empty?
    requires TimeoutsFor(pending, remaining, filled, gens, SlotsOf(pending, remaining))
    requires KeptBut(Works(pending, remaining), results, filled)
    ensures forall id <- pending ::
              && pending[id].item.workId in filled
              && ResultFor(script, pending, gens, pending[id].item.workId, filled[pending[id].item.workId])
  {
    forall id <- pending
      ensures pending[id].item.workId in filled
      ensures ResultFor(script, pending, gens, pending[id].item.workId, filled[pending[id].item.workId])
    {
      DryIsSettled(script, pending, remaining, |script| - |rest|, results, winner, gens, filled, id);
    }
  }

  lemma LastOfAll(script: seq<Arrival>, pending: map<nat, Pending>, remaining: set<nat>, n: nat,
                  results: map<string, BranchResult>, winner: map<string, nat>, t: nat)
    requires Collecting(script, pending, remaining, n, results, winner) && t in remaining
    requires forall j <- remaining :: AnswerAt(script, j) == n
    ensures SettledLast(script, pending, t)
  {
    forall j <- pending ensures AnswerAt(script, j) <= n {
      if j !in remaining { assert Won(script, pending, remaining, n, results, winner, j); }
    }
  }

  lemma WinnerIsLast(script: seq<Arrival>, pending: map<nat, Pending>, remaining: set<nat>, n: nat,
                     results: map<string, BranchResult>, winner: map<string, nat>, id: nat)
    requires Collecting(script, pending, remaining, n, results, winner) && id in pending
    requires pending[id].item.workId !in Works(pending, remaining) && id !in remaining
    ensures pending[id].item.workId in winner && SettledLast(script, pending, winner[pending[id].item.workId])
  {
    var w := pending[id].item.workId;
    assert Won(script, pending, remaining, n, results, winner, id);
    forall j <- pending | pending[j].item.workId == w
      ensures AnswerAt(script, j) <= AnswerAt(script, winner[w])
    {
      assert j !in remaining;
      assert Won(script, pending, remaining, n, results, winner, j);
    }
  }

  /** The workers given up on are exactly those an open request waits for. */
  lemma HungAreOpen(script: seq<Arrival>, pending: map<nat, Pending>, remaining: set<nat>, n: nat,
                    results: map<string, BranchResult>, winner: map<string, nat>)
    requires Collecting(script, pending, remaining, n, results, winner)
    requires forall j <- remaining :: FirstAnswer(script, j).None?
    ensures Hung(script, pending) == SlotsOf(pending, remaining)
  {
    forall j <- pending ensures FirstAnswer(script, j).None? <==> j in remaining {
      if j !in remaining { assert Won(script, pending, remaining, n, results, winner, j); }
    }
  }

  ghost predicate Dispatched(items: seq<WorkItem>, b: Batch, before: Counters, script: seq<Arrival>,
                             r: Result<seq<BranchResult>, WorkItem>, after: Counters, leases: Leases)
    requires |b.routes| <= |items| && (b.ok <==> |b.routes| == |items|)
  {
    && after.nextRequestId == before.nextRequestId + |b.routes|
    && if b.ok then
         && r.Ok? && after.nextBootstrapIndex == b.next
         && Answered(items, PendingMap(items, b.routes, before.nextRequestId), before.generations, script, r.value)
         && var hung := Hung(script, PendingMap(items, b.routes, before.nextRequestId));
         && Respawned(before.generations, after.generations, hung)
         && leases == Settle(Cleared(b.leases, before.generations, hung), items, r.value)
       else
         && r.Err? && r.error == items[|b.routes|]
         && after.nextBootstrapIndex == before.nextBootstrapIndex
         && after.generations == before.generations && leases == b.leases
  }

  /**
   After a dispatched batch a context holds a lease exactly if one of its results established it last, or it
   survived the routing, its worker was not given up on, and no result disturbed it.
   */
  lemma DispatchLeavesLeaseIff(items: seq<WorkItem>, b: Batch, before: Counters, script: seq<Arrival>,
      r: Result<seq<BranchResult>, WorkItem>, after: Counters, leases: Leases, ctx: string, lease: Lease)
    requires |b.routes| <= |items| && (b.ok <==> |b.routes| == |items|) && b.ok
    requires Dispatched(items, b, before, script, r, after, leases)
    ensures r.Ok? && |r.value| == |items|
    ensures OnFile(leases, ctx, lease) <==>
            || (exists j | 0 <= j < |items| :: EstablishedAt(items, r.value, j, ctx, lease))
            || (&& OnFile(b.leases, ctx, lease)
                && !(&& lease.slot in Hung(script, PendingMap(items, b.routes, before.nextRequestId))
                     && lease.generation == GenerationOf(before.generations, lease.slot))
                && Undisturbed(items, r.value, 0, ctx, lease.slot))
  {
    var hung := Hung(script, PendingMap(items, b.routes, before.nextRequestId));
    HoldsAfterIff(Cleared(b.leases, before.generations, hung), items, r.value, ctx, lease);
  }

  lemma SameRequests(
    items: seq<WorkItem>, pending: seq<Pending>, routes: seq<Routed>, first: nat, byId: map<nat, Pending>,
    gens: map<Slot, nat>)
    requires forall k | 0 <= k < |routes| :: routes[k].Route? && routes[k].slot in gens
    requires |pending| == |items| == |routes| && PendingFor(pending, items, routes, first)
    requires byId == map id: nat | first < id <= first + |pending| :: PendingWithId(pending, first, id)
    ensures byId == PendingMap(items, routes, first)
    ensures forall id <- byId :: byId[id].id == id && byId[id].slot in gens
    ensures forall k | 0 <= k < |items| :: NthId(first, k) in byId && byId[NthId(first, k)].item == items[k]
  {
    forall id: nat | first < id <= first + |pending|
      ensures PendingWithId(pending, first, id) == RequestOf(items, routes, first, id)
    {
      assert pending[id - first - 1].id == id;
    }
    forall id <- byId
      ensures byId[id].id == id && byId[id].item == items[id - first - 1] && byId[id].slot in gens
    {
      assert byId[id] == PendingWithId(pending, first, id);
      assert routes[id - first - 1].slot in gens;
    }
    forall k | 0 <= k < |items| ensures NthId(first, k) in byId && byId[NthId(first, k)].item == items[k] {
      assert byId[NthId(first, k)] == pending[k];
    }
  }

  /** One route further into the batch, or where it stops. */
  lemma StepAhead(items: seq<WorkItem>, k: nat, ls: Leases, slots: seq<Slot>, gens: map<Slot, nat>, next: nat,
                  pins: map<string, Slot>, b: Batch)
    requires k < |items| && Ahead(items, k, ls, slots, gens, next, pins, b)
    ensures var r := RouteWorkItem(items[k], ls, slots, gens, next, PinOf(pins, items[k]));
            if r.NoHolder? then |b.routes| == k && b.leases == r.leases && b.next == next && !b.ok
            else |b.routes| > k && b.routes[k] == r && Ahead(items, k + 1, r.leases, slots, gens, r.next, pins, b)
  {
    RouteAllStep(items, k, ls, slots, gens, next, pins, b);
  }

  lemma PendingGrows(pending: seq<Pending>, items: seq<WorkItem>, routes: seq<Routed>, first: nat, p: Pending)
    requires PendingFor(pending, items, routes, first) && |pending| < |routes|
    requires var r := routes[|pending|];
             r.Route? && p == Pending(NthId(first, |pending|), items[|pending|], r.slot, r.mode, r.lease)
    ensures PendingFor(pending + [p], items, routes, first)
  {
  }

  class WholeRunWorkerPool {
    var generations: map<Slot, nat>
    const branchSlots: seq<Slot>
    var nextBootstrapIndex: nat
    var nextRequestId: nat

    ghost predicate Valid()
      reads this
    {
      branchSlots != [] && forall s <- branchSlots :: s in generations
    }

    constructor (branchWorkers: nat, includeMain: bool)
      requires branchWorkers > 0
      ensures Valid() && nextRequestId == 0 && nextBootstrapIndex == 0
    {
      branchSlots := seq(branchWorkers, i requires 0 <= i => Branch(i));
      var slots := (if includeMain then [Main] else []) + seq(branchWorkers, i requires 0 <= i => Branch(i));
      generations := map s | s in slots :: 1;
      nextBootstrapIndex, nextRequestId := 0, 0;
    }

    /** Request ids strictly increase over the life of the pool. */
    method Submit(item: WorkItem, slot: Slot, mode: Mode, lease: Option<Lease>) returns (p: Pending)
      requires Valid()
      modifies this`nextRequestId
      ensures Valid() && p == Pending(old(nextRequestId) + 1, item, slot, mode, lease)
      ensures nextRequestId == p.id
    {
      nextRequestId := nextRequestId + 1;
      p := Pending(nextRequestId, item, slot, mode, lease);
    }

    /** A fresh process, one generation on; the old generation's leases go. */
    method RespawnWorker(slot: Slot, registry: LeaseRegistry)
      requires Valid()
      modifies this`generations, registry
      ensures Valid() && generations == old(generations)[slot := GenerationOf(old(generations), slot) + 1]
      ensures registry.leases == WithoutGeneration(old(registry.leases), slot, GenerationOf(old(generations), slot))
    {
      var was := GenerationOf(generations, slot);
      generations := generations[slot := was + 1];
      registry.InvalidateWorkerGeneration(slot, was);
    }

    /** Routes and sends item after item; a batch that fails half-way has been sent half-way. */
    method SubmitAll(items: seq<WorkItem>, registry: LeaseRegistry, pins: map<string, Slot>)
      returns (ok: bool, next: nat, pending: seq<Pending>)
      requires Valid() && Filed(registry.leases)
      modifies this`nextRequestId, registry
      ensures Valid() && Filed(registry.leases)
      ensures var b := RouteAll(items, old(registry.leases), branchSlots, generations, nextBootstrapIndex, pins);
              && ok == b.ok && next == b.next && registry.leases == b.leases
              && |pending| == |b.routes| && PendingFor(pending, items, b.routes, old(nextRequestId))
      ensures nextRequestId == old(nextRequestId) + |pending|
    {
      ghost var b := RouteAll(items, registry.leases, branchSlots, generations, nextBootstrapIndex, pins);
      next, pending := nextBootstrapIndex, [];
      assert items[0..] == items;
      assert Ahead(items, 0, registry.leases, branchSlots, generations, next, pins, b);
      for k := 0 to |items|
        invariant Valid() && Filed(registry.leases) && |pending| == k && nextRequestId == old(nextRequestId) + k
        invariant PendingFor(pending, items, b.routes, old(nextRequestId))
        invariant Ahead(items, k, registry.leases, branchSlots, generations, next, pins, b)
      {
        ok, next, pending := SubmitNext(items, registry, next, pins, pending, b, old(nextRequestId));
        if !ok { return; }
      }
      AllRouted(items, registry.leases, branchSlots, generations, next, pins, b);
      ok := true;
    }

    method SubmitNext(items: seq<WorkItem>, registry: LeaseRegistry, next: nat, pins: map<string, Slot>,
                      pending: seq<Pending>, ghost b: Batch, ghost first: nat)
      returns (ok: bool, following: nat, longer: seq<Pending>)
      requires Valid() && Filed(registry.leases) && |pending| < |items| && nextRequestId == first + |pending|
      requires PendingFor(pending, items, b.routes, first)
      requires Ahead(items, |pending|, registry.leases, branchSlots, generations, next, pins, b)
      modifies this`nextRequestId, registry
      ensures Valid() && Filed(registry.leases) && PendingFor(longer, items, b.routes, first)
              && nextRequestId == first + |longer|
      ensures !ok ==> !b.ok && following == b.next && registry.leases == b.leases && |longer| == |pending| == |b.routes|
      ensures ok ==> |longer| == |pending| + 1
      ensures ok ==> Ahead(items, |longer|, registry.leases, branchSlots, generations, following, pins, b)
    {
      var k := |pending|;
      StepAhead(items, k, registry.leases, branchSlots, generations, next, pins, b);
      var mode, slot, lease;
      ok, mode, slot, lease, following := Route(items[k], registry, next, PinOf(pins, items[k]));
      longer := pending;
      if ok {
        var p := Submit(items[k], slot, mode, lease);
        PendingGrows(pending, items, b.routes, first, p);
        longer := pending + [p];
      }
    }

    /** `_route_choice_work_item`: where an item goes, applying what routing does to the leases. */
    method Route(item: WorkItem, registry: LeaseRegistry, next: nat, pin: Option<Slot>)
      returns (ok: bool, mode: Mode, slot: Slot, lease: Option<Lease>, following: nat)
      requires Valid() && Filed(registry.leases)
      modifies registry
      ensures var r := RouteWorkItem(item, old(registry.leases), branchSlots, generations, next, pin);
              && ok == r.Route? && registry.leases == r.leases
              && if ok then r == Routed.Route(mode, slot, lease, following, r.leases) else following == next
      ensures Filed(registry.leases)
    {
      mode, slot, lease, following := HolderStep, Main, None, next;
      if item.kind == Continuation {
        if item.contextId !in registry.leases { return false, mode, slot, lease, following; }
        lease := Some(registry.leases[item.contextId]);
        slot := if pin.Some? then pin.value else lease.value.slot;
        if slot in generations && ValidFor(lease.value, item, generations[slot]) {
          return true, mode, slot, lease, following;
        }
        registry.InvalidateLease(lease.value);
        return false, mode, slot, lease, following;
      }
      mode, following := BootstrapStep, next + 1;
      slot := ChooseBootstrapSlot(branchSlots, registry.leases, next);
      if slot in Holding(registry.leases) {
        registry.InvalidateWorkerAllGenerations(slot);
      }
      ok := true;
    }

    /** Waits until every request of the batch is answered or given up on. */
    method Collect(pending: map<nat, Pending>, script: seq<Arrival>, registry: LeaseRegistry)
      returns (results: map<string, BranchResult>)
      requires Valid()
      requires forall id <- pending :: pending[id].id == id && pending[id].slot in generations
      modifies this`generations, registry
      ensures Valid()
      ensures forall id <- pending ::
                && pending[id].item.workId in results
                && ResultFor(script, pending, old(generations), pending[id].item.workId,
                    results[pending[id].item.workId])
      ensures Abandoned(old(generations), generations, old(registry.leases), registry.leases, Hung(script, pending))
    {
      results := map[];
      var remaining := pending.Keys;
      var rest := script;
      ghost var winner: map<string, nat> := map[];
      while remaining != {} && rest != [] && !rest[0].Empty?
        invariant Valid() && generations == old(generations) && registry.leases == old(registry.leases)
        invariant |rest| <= |script| && Collecting(script, pending, remaining, |script| - |rest|, results, winner)
        invariant forall id <- remaining :: SeesRest(script, rest, |script| - |rest|, id)
        decreases |rest|
      {
        var id, result := rest[0].requestId, rest[0].result;
        if id in remaining {
          assert SeesRest(script, rest, |script| - |rest|, id);
          TakesAnswer(script, pending, remaining, |script| - |rest|, results, winner, id, result);
          results, winner := results[pending[id].item.workId := result], winner[pending[id].item.workId := id];
          remaining := remaining - {id};
        } else {
          SkipsMessage(script, pending, remaining, |script| - |rest|, results, winner);
        }
        rest := rest[1..];
      }
      ghost var before := results;
      if remaining != {} {
        results := AbandonHung(pending, remaining, results, registry);
      }
      HungAreOpen(script, pending, remaining, |script| - |rest|, before, winner);
      AllSettled(script, rest, pending, remaining, before, winner, old(generations), results);
    }

    /** Respawns each hung worker once and answers its requests with a timeout. */
    method AbandonHung(pending: map<nat, Pending>, remaining: set<nat>, results: map<string, BranchResult>,
                       registry: LeaseRegistry)
      returns (filled: map<string, BranchResult>)
      requires Valid() && remaining <= pending.Keys
      requires SlotsOf(pending, remaining) <= generations.Keys
      modifies this`generations, registry
      ensures Valid()
      ensures TimeoutsFor(pending, remaining, filled, old(generations), SlotsOf(pending, remaining))
      ensures KeptBut(Works(pending, remaining), results, filled)
      ensures Abandoned(old(generations), generations, old(registry.leases), registry.leases,
                        SlotsOf(pending, remaining))
    {
      filled := AbandonSlots(pending, remaining, SlotsOf(pending, remaining), results, registry, generations,
                             registry.leases);
    }

    method AbandonSlots(pending: map<nat, Pending>, remaining: set<nat>, slots: set<Slot>,
                        results: map<string, BranchResult>, registry: LeaseRegistry,
                        ghost gens: map<Slot, nat>, ghost leases: Leases)
      returns (filled: map<string, BranchResult>)
      requires Valid() && remaining <= pending.Keys && slots <= gens.Keys
      requires generations == gens && registry.leases == leases
      modifies this`generations, registry
      ensures Valid() && TimeoutsFor(pending, remaining, filled, gens, slots)
      ensures KeptBut(Works(pending, remaining), results, filled)
      ensures Abandoned(gens, generations, leases, registry.leases, slots)
    {
      filled := results;
      var hung := slots;
      NothingAbandoned(pending, remaining, results, gens, leases);
      assert slots - hung == {};
      while hung != {}
        invariant Valid() && hung <= slots
        invariant AbandonedSoFar(pending, remaining, results, filled, gens, generations, leases, registry.leases,
                                 slots - hung)
        decreases |hung|
      {
        var slot :| slot in hung;
        filled := AbandonWorker(pending, remaining, slot, results, filled, registry, gens, leases, slots - hung);
        assert slots - hung + {slot} == slots - (hung - {slot});
        hung := hung - {slot};
      }
      assert slots - hung == slots;
    }

    method AbandonWorker(pending: map<nat, Pending>, remaining: set<nat>, slot: Slot,
                         ghost first: map<string, BranchResult>, results: map<string, BranchResult>,
                         registry: LeaseRegistry,
                         ghost gens: map<Slot, nat>, ghost leases: Leases, ghost done: set<Slot>)
      returns (filled: map<string, BranchResult>)
      requires Valid() && remaining <= pending.Keys && slot !in done && slot in gens
      requires AbandonedSoFar(pending, remaining, first, results, gens, generations, leases, registry.leases, done)
      modifies this`generations, registry
      ensures Valid()
      ensures AbandonedSoFar(pending, remaining, first, filled, gens, generations, leases, registry.leases,
                             done + {slot})
    {
      var ids := set id | id in remaining && pending[id].slot == slot;
      RespawnGrows(gens, generations, leases, registry.leases, done, slot);
      var fault := Fault(Some(slot), Some(GenerationOf(generations, slot)), true, 0);
      filled := FillTimeouts(pending, ids, fault, results);
      TimeoutsGrow(pending, remaining, slot, gens, done, results, filled, fault);
      KeptThrough(Works(pending, remaining), first, results, filled);
      RespawnWorker(slot, registry);
    }

    /** One timeout fault for each outstanding request of one worker. */
    method FillTimeouts(pending: map<nat, Pending>, ids: set<nat>, fault: BranchResult,
                        results: map<string, BranchResult>)
      returns (filled: map<string, BranchResult>)
      requires ids <= pending.Keys
      ensures forall id <- ids :: pending[id].item.workId in filled && filled[pending[id].item.workId] == fault
      ensures KeptBut(Works(pending, ids), results, filled)
    {
      filled := results;
      var todo := ids;
      while todo != {}
        invariant todo <= ids
        invariant forall id <- ids | id !in todo ::
                    pending[id].item.workId in filled && filled[pending[id].item.workId] == fault
        invariant KeptBut(Works(pending, ids), results, filled)
        decreases |todo|
      {
        var id :| id in todo;
        filled := filled[pending[id].item.workId := fault];
        todo := todo - {id};
      }
    }

    /**
     One batch.  `Err` is the routing failure: what was sent stays sent, and the turn counter is not
     stored.  Otherwise there is one result per item, in input order: the first answer to the request
     of its work id that was settled last, or a timeout if the queue ran dry on it.
     */
    method DispatchChoiceWorkItems(items: seq<WorkItem>, registry: LeaseRegistry, pins: map<string, Slot>,
        script: seq<Arrival>)
      returns (r: Result<seq<BranchResult>, WorkItem>)
      requires Valid() && Filed(registry.leases)
      modifies this, registry
      ensures Valid() && Filed(registry.leases)
      ensures Dispatched(items, RouteAll(items, old(registry.leases), branchSlots, old(generations),
                                         old(nextBootstrapIndex), pins),
                         Counters(old(generations), old(nextBootstrapIndex), old(nextRequestId)), script, r,
                         Counters(generations, nextBootstrapIndex, nextRequestId), registry.leases)
    {
      ghost var b := RouteAll(items, registry.leases, branchSlots, generations, nextBootstrapIndex, pins);
      ghost var first, gens := nextRequestId, generations;
      forall k | 0 <= k < |b.routes| ensures b.routes[k].Route? && b.routes[k].slot in generations {
        HolderStepsAreCurrent(items, registry.leases, branchSlots, generations, nextBootstrapIndex, pins, k);
      }
      var ok, next, pending := SubmitAll(items, registry, pins);
      if !ok { return Err(items[|pending|]); }
      var answers := Await(items, pending, registry, script, b.routes, first);
      nextBootstrapIndex := next;
      r := Ok(answers);
    }

    method Await(items: seq<WorkItem>, pending: seq<Pending>, registry: LeaseRegistry, script: seq<Arrival>,
                 ghost routes: seq<Routed>, ghost first: nat)
      returns (answers: seq<BranchResult>)
      requires Valid() && Filed(registry.leases) && first == nextRequestId - |pending|
      requires |pending| == |items| == |routes| && PendingFor(pending, items, routes, first)
      requires forall k | 0 <= k < |routes| :: routes[k].Route? && routes[k].slot in generations
      modifies this`generations, registry
      ensures Valid() && Filed(registry.leases)
      ensures var all := PendingMap(items, routes, first);
              && Answered(items, all, old(generations), script, answers)
              && Respawned(old(generations), generations, Hung(script, all))
              && registry.leases ==
                 Settle(Cleared(old(registry.leases), old(generations), Hung(script, all)), items, answers)
    {
      var from := nextRequestId - |pending|;
      var byId := map id: nat | from < id <= from + |pending| :: PendingWithId(pending, from, id);
      SameRequests(items, pending, routes, first, byId, generations);
      var results := Collect(byId, script, registry);
      forall k | 0 <= k < |items|
        ensures items[k].workId in results
        ensures ResultFor(script, byId, old(generations), items[k].workId, results[items[k].workId])
      {
        assert byId[NthId(first, k)].item == items[k];
      }
      ghost var cleared := registry.leases;
      answers := SettleAll(items, registry, results);
      SettleKeepsFiled(cleared, items, answers);
    }

    /** One result: the item's context loses its lease, a success may file one, a fault drops its worker's. */
    method SettleItem(item: WorkItem, result: BranchResult, registry: LeaseRegistry)
      modifies registry
      ensures registry.leases == SettleOne(old(registry.leases), item, result)
    {
      registry.Invalidate(item.contextId);
      match result {
        case Success(_, established, _) =>
          if established.Some? { registry.Set(established.value); }
        case Fault(slot, _, _, _) =>
          if slot.Some? { registry.InvalidateWorkerAllGenerations(slot.value); }
      }
    }

    /** Results in input order, updating the leases item by item. */
    method SettleAll(items: seq<WorkItem>, registry: LeaseRegistry, results: map<string, BranchResult>)
      returns (answers: seq<BranchResult>)
      requires forall it <- items :: it.workId in results
      modifies registry
      ensures |answers| == |items| && forall k | 0 <= k < |items| :: answers[k] == results[items[k].workId]
      ensures registry.leases == Settle(old(registry.leases), items, answers)
    {
      answers := [];
      for k := 0 to |items|
        invariant |answers| == k && forall j | 0 <= j < k :: answers[j] == results[items[j].workId]
        invariant registry.leases == Settle(old(registry.leases), items[..k], answers)
      {
        assert items[k] in items;
        var result := results[items[k].workId];
        SettleItem(items[k], result, registry);
        SettleOneMore(old(registry.leases), items, k, answers, result);
        answers := answers + [result];
      }
      assert items[..|items|] == items;
    }
  }
}
