/**
 Event Branch transactions (prepare, commit and rollback in API/instance_whole_run.py, the batch in
 API/instance_whole_run_beam.py).

 Preparing reads, committing publishes one Branch at a time, and a batch that fails part-way is
 rolled back in reverse before anybody can see it.  A `Fault` says where a commit raises.
 */
module EventBatch {
  import opened Wrappers
  import opened Identifiers
  import opened EventRng

  /** `EventRngReplayPlan`: the override and the replay index it belongs to. */
  datatype Plan = Plan(key: RngKey, override: RngState, applyBefore: nat)

  datatype Status = Completed | Cancelled | Released | Faulted

  datatype Book = Book(parent: string, rngId: int, plan: Option<Plan>, status: Status)

  /** A validated request with the plan preparation gave it. */
  datatype Prepared = Prepared(branchId: string, parent: string, rngId: int, plan: Plan)

  datatype Request = Request(branchId: string, parent: string, rngId: int, decision: string)

  /** The call inside one commit that raises, if any. */
  datatype Fault = NoFault | AtRegister | AtHypothesis | AtBookkeeping

  datatype Coord = Coord(
    ids: set<string>, current: map<string, string>, books: map<string, Book>, reg: Registry)

  function RefOf(p: Prepared): Reference {
    Reference(p.plan.key, p.plan.override, p.branchId)
  }

  function RefsOf(items: seq<Prepared>): seq<Reference> {
    seq(|items|, i requires 0 <= i < |items| => RefOf(items[i]))
  }

  function BookOf(p: Prepared): Book {
    Book(p.parent, p.rngId, Some(p.plan), Completed)
  }

  /** The Branch is usable and carries hypothesis `k`. */
  predicate Holds(b: Book, k: RngKey) {
    b.status == Completed && b.plan.Some? && b.plan.value.key == k
  }

  function Holders(books: map<string, Book>, k: RngKey): set<string> {
    set id | id in books && Holds(books[id], k)
  }

  /** Registry and bookkeeping describe the same Branches. */
  ghost predicate Coherent(c: Coord) {
    && Sound(c.reg)
    && ROOT_BRANCH_ID in c.ids
    && c.books.Keys <= c.ids
    && c.current.Keys <= c.ids
    && (forall k :: Refs(c.reg, k) == Holders(c.books, k))
    && (forall id | id in c.books && c.books[id].status == Completed && c.books[id].plan.Some? ::
          var p := c.books[id].plan.value;
          p.key in c.reg.entries && c.reg.entries[p.key].state == p.override)
  }

  /**
   `_prepare_event_branch`: a root Branch establishes (or joins) a hypothesis at the end of the
   prefix, a deeper one inherits its parent's plan unchanged.  `None` is the failed assertion.
   */
  function Prepare(c: Coord, r: Request, base: RngState, prefixLength: nat, derive: (RngState, int) -> RngState)
    : Option<Plan>
  {
    if r.parent == ROOT_BRANCH_ID then
      var key := RngKey(r.parent, r.decision, r.rngId);
      Some(Plan(key, PrepareState(c.reg, key, base, r.rngId, derive), prefixLength))
    else if r.parent in c.books then c.books[r.parent].plan
    else None
  }

  /** `item` is what preparing some request against `c` yields. */
  ghost predicate PreparedFrom(c: Coord, item: Prepared, base: RngState, derive: (RngState, int) -> RngState) {
    exists decision, prefixLength ::
      && Prepare(c, Request(item.branchId, item.parent, item.rngId, decision), base, prefixLength, derive)
         == Some(item.plan)
      && (item.parent != ROOT_BRANCH_ID ==> item.parent in c.books && c.books[item.parent].status == Completed)
  }

  /** What validation establishes: unknown ids, pairwise distinct. */
  predicate Fresh(c: Coord, items: seq<Prepared>) {
    && (forall i | 0 <= i < |items| :: items[i].branchId !in c.ids)
    && (forall i, j | 0 <= i < j < |items| :: items[i].branchId != items[j].branchId)
  }

  function Publish(c: Coord, p: Prepared): Coord {
    Coord(c.ids + {p.branchId}, c.current, c.books[p.branchId := BookOf(p)], CommitRef(c.reg, RefOf(p)))
  }

  function PublishAll(c: Coord, items: seq<Prepared>): Coord {
    if items == [] then c
    else Publish(PublishAll(c, items[..|items| - 1]), items[|items| - 1])
  }

  /** `_rollback_prepared_branch`. */
  function Unpublish(c: Coord, p: Prepared): Coord {
    Coord(c.ids - {p.branchId}, c.current - {p.branchId}, c.books - {p.branchId},
          WithoutBranch(c.reg, p.plan.key, p.branchId))
  }

  /** Does the commit of `p` go through? */
  predicate Commits(c: Coord, p: Prepared, fault: Fault) {
    && fault == NoFault
    && p.branchId !in c.ids
    && WithBranch(c.reg, p.plan.key, p.plan.override, p.branchId).Some?
  }

  /** The first `n` commits go through, one after the other. */
  predicate AllCommit(c: Coord, items: seq<Prepared>, faults: seq<Fault>, n: nat)
    requires n <= |items| == |faults|
  {
    n > 0 ==>
      AllCommit(c, items, faults, n - 1) && Commits(PublishAll(c, items[..n - 1]), items[n - 1], faults[n - 1])
  }

  lemma AllCommitNext(c: Coord, items: seq<Prepared>, faults: seq<Fault>, n: nat)
    requires n < |items| == |faults| && AllCommit(c, items, faults, n)
    requires Commits(PublishAll(c, items[..n]), items[n], faults[n])
    ensures AllCommit(c, items, faults, n + 1)
  {
  }

  lemma {:induction false} AllCommitStopsAt(c: Coord, items: seq<Prepared>, faults: seq<Fault>, m: nat, n: nat)
    requires m < n <= |items| == |faults|
    requires !Commits(PublishAll(c, items[..m]), items[m], faults[m])
    ensures !AllCommit(c, items, faults, n)
  {
    if m + 1 < n {
      AllCommitStopsAt(c, items, faults, m, n - 1);
    }
  }

  /** `_commit_prepared_branch`, including what it leaves behind when it raises. */
  function CommitOutcome(c: Coord, p: Prepared, fault: Fault): Coord {
    if Commits(c, p, fault) then Publish(c, p)
    else if p.branchId in c.ids || fault == AtRegister || fault == AtHypothesis
            || WithBranch(c.reg, p.plan.key, p.plan.override, p.branchId).None? then c
    else c.(reg := WithoutBranch(CommitRef(c.reg, RefOf(p)), p.plan.key, p.branchId))
  }

  function Retire(c: Coord, id: string, status: Status): Coord
    requires id in c.books
  {
    var book := c.books[id];
    if book.status == Released || (book.status == Cancelled && status != Released) then c
    else
      c.(books := c.books[id := book.(status := status, plan := None)],
         reg := if book.plan.Some? then WithoutBranch(c.reg, book.plan.value.key, id) else c.reg)
  }

  function Retired(b: Book): Book {
    if b.status == Cancelled || b.status == Released then b else b.(status := Released)
  }

  /** Every public record becomes a tombstone and every hypothesis dies. */
  function RetireAll(c: Coord): Coord {
    Coord(c.ids, c.current - c.books.Keys, map id | id in c.books :: Retired(c.books[id]), WithoutBranches(c.reg))
  }

  /** Commit `n` raised: the ones before it are public, and only generation counters may have moved besides. */
  ghost predicate StoppedAt(c: Coord, items: seq<Prepared>, faults: seq<Fault>, n: nat, d: Coord)
    requires n < |items| == |faults|
  {
    && !Commits(PublishAll(c, items[..n]), items[n], faults[n])
    && SameButGenerations(d, PublishAll(c, items[..n]), c.reg, Keys(RefsOf(items)))
  }

  // ---- The transaction ---------------------------------------------------------------------------

  class EventCoordinator {
    const branchIds: BranchIdRegistry
    const decisionPoints: DecisionPointRegistry
    const registry: EventRngHypothesisRegistry
    var bookkeeping: map<string, Book>

    ghost function Abs(): Coord
      reads this, branchIds, decisionPoints, registry
    {
      Coord(branchIds.everUsed, decisionPoints.current, bookkeeping, registry.Abs())
    }

    constructor ()
      ensures fresh(branchIds) && fresh(decisionPoints) && fresh(registry)
      ensures Coherent(Abs()) && bookkeeping == map[]
    {
      branchIds := new BranchIdRegistry();
      decisionPoints := new DecisionPointRegistry();
      registry := new EventRngHypothesisRegistry();
      bookkeeping := map[];
    }

    method PrepareEventBranch(r: Request, base: RngState, prefixLength: nat, derive: (RngState, int) -> RngState)
      returns (plan: Option<Plan>)
      ensures plan == Prepare(Abs(), r, base, prefixLength, derive)
    {
      if r.parent == ROOT_BRANCH_ID {
        var key := RngKey(r.parent, r.decision, r.rngId);
        var state := if key in registry.entries then registry.entries[key].state else derive(base, r.rngId);
        return Some(Plan(key, state, prefixLength));
      }
      plan := if r.parent in bookkeeping then bookkeeping[r.parent].plan else None;
    }

    /** Publishes one prepared Branch, undoing a partial commit; the generation is not undone. */
    method CommitPreparedBranch(p: Prepared, fault: Fault) returns (ok: bool)
      requires ROOT_BRANCH_ID in branchIds.everUsed
      modifies this`bookkeeping, branchIds, registry
      ensures ok == old(Commits(Abs(), p, fault))
      ensures Abs() == CommitOutcome(old(Abs()), p, fault)
    {
      if fault == AtRegister { return false; }
      ok := branchIds.Register(p.branchId);
      if !ok {
        assert branchIds.everUsed == old(branchIds.everUsed);
        return;
      }
      if fault == AtHypothesis {
        ok := false;
      } else {
        ok := registry.CommitBranch(p.plan.key, p.plan.override, p.branchId);
        if ok && fault == AtBookkeeping {
          registry.ReleaseBranch(p.plan.key, p.branchId);
          ok := false;
        }
      }
      if !ok {
        branchIds.RollbackRegistration(p.branchId);
        assert branchIds.everUsed == old(branchIds.everUsed);
        return;
      }
      bookkeeping := bookkeeping[p.branchId := BookOf(p)];
    }

    method RollbackPreparedBranch(p: Prepared)
      requires p.branchId != ROOT_BRANCH_ID
      modifies this`bookkeeping, branchIds, decisionPoints`current, registry
      ensures Abs() == Unpublish(old(Abs()), p)
    {
      bookkeeping := bookkeeping - {p.branchId};
      decisionPoints.Clear(p.branchId);
      registry.ReleaseBranch(p.plan.key, p.branchId);
      branchIds.RollbackRegistration(p.branchId);
    }

    /** Commits in order until one raises; `n` is how many went through. */
    method CommitInOrder(items: seq<Prepared>, faults: seq<Fault>, ghost c: Coord) returns (n: nat)
      requires Coherent(c) && Fresh(c, items) && |faults| == |items| && Abs() == c
      modifies this`bookkeeping, branchIds, registry
      ensures n <= |items| && AllCommit(c, items, faults, n)
      ensures if n < |items| then StoppedAt(c, items, faults, n, Abs()) else Abs() == PublishAll(c, items)
    {
      assert items[..0] == [] && items[..|items|] == items;
      n := 0;
      while n < |items|
        invariant n <= |items| && AllCommit(c, items, faults, n)
        invariant Abs() == PublishAll(c, items[..n])
      {
        var ok := CommitNext(items, n, faults, c);
        if !ok { return; }
        n := n + 1;
      }
    }

    method CommitNext(items: seq<Prepared>, n: nat, faults: seq<Fault>, ghost c: Coord) returns (ok: bool)
      requires Coherent(c) && Fresh(c, items) && n < |items| == |faults|
      requires Abs() == PublishAll(c, items[..n]) && AllCommit(c, items, faults, n)
      modifies this`bookkeeping, branchIds, registry
      ensures ok == Commits(PublishAll(c, items[..n]), items[n], faults[n])
      ensures ok ==> Abs() == PublishAll(c, items[..n + 1]) && AllCommit(c, items, faults, n + 1)
      ensures !ok ==> StoppedAt(c, items, faults, n, Abs())
    {
      RootStaysKnown(c, items, n);
      ok := CommitPreparedBranch(items[n], faults[n]);
      CommittedNext(c, items, faults, n, Abs());
    }

    /** Rolls the first `count` items back, newest first. */
    method RollbackInReverse(items: seq<Prepared>, count: nat, ghost faults: seq<Fault>, ghost c: Coord)
      requires Coherent(c) && Fresh(c, items) && count <= |items|
      requires |faults| == |items| && AllCommit(c, items, faults, count)
      requires SameButGenerations(Abs(), PublishAll(c, items[..count]), c.reg, Keys(RefsOf(items)))
      modifies this`bookkeeping, branchIds, decisionPoints`current, registry
      ensures SameButGenerations(Abs(), c, c.reg, Keys(RefsOf(items)))
    {
      var n := count;
      while n > 0
        invariant 0 <= n <= count && AllCommit(c, items, faults, n)
        invariant SameButGenerations(Abs(), PublishAll(c, items[..n]), c.reg, Keys(RefsOf(items)))
      {
        n := n - 1;
        UnpublishStep(c, items, n, Abs());
        RollbackPreparedBranch(items[n]);
      }
      assert items[..0] == [];
    }

    /**
     Commits a prepared batch.  Either every Branch is published or the coordinator is exactly as
     it was, generation counters included.
     */
    method CommitBatch(items: seq<Prepared>, faults: seq<Fault>) returns (ok: bool)
      requires Coherent(Abs()) && Fresh(Abs(), items) && |faults| == |items|
      modifies this`bookkeeping, branchIds, decisionPoints`current, registry
      ensures ok ==> Abs() == PublishAll(old(Abs()), items)
      ensures !ok ==> Abs() == old(Abs())
      ensures ok <==> AllCommit(old(Abs()), items, faults, |items|)
    {
      ghost var c := Abs();
      var snapshot := registry.SnapshotGenerations(set i | 0 <= i < |items| :: items[i].plan.key);
      assert snapshot.Keys == Keys(RefsOf(items)) by {
        assert forall i | 0 <= i < |items| :: RefsOf(items)[i].key == items[i].plan.key;
      }
      var n := CommitInOrder(items, faults, c);
      ok := n == |items|;
      if !ok {
        AllCommitStopsAt(c, items, faults, n, |items|);
        RollbackInReverse(items, n, faults, c);
        RestoreCounters(snapshot, c);
      }
    }

    /** One Branch of `cancel_branches`, `release_branches` or a faulted finalization. */
    method RetireBranch(id: string, status: Status)
      requires id in bookkeeping && status != Completed
      modifies this`bookkeeping, registry
      ensures Abs() == Retire(old(Abs()), id, status)
    {
      var book := bookkeeping[id];
      if book.status == Released || (book.status == Cancelled && status != Released) { return; }
      if book.plan.Some? {
        registry.ReleaseBranch(book.plan.value.key, id);
      }
      bookkeeping := bookkeeping[id := book.(status := status, plan := None)];
    }

    /** `_cancel_and_release_all_branches` outside a combat phase. */
    method ReleaseAllBranches()
      modifies this`bookkeeping, decisionPoints`current, registry
      ensures Abs() == RetireAll(old(Abs()))
    {
      ghost var c := Abs();
      var todo := bookkeeping.Keys;
      while todo != {}
        invariant todo <= c.books.Keys == bookkeeping.Keys
        invariant registry.Abs() == c.reg && branchIds.everUsed == c.ids
        invariant decisionPoints.current == c.current - (c.books.Keys - todo)
        invariant forall id | id in bookkeeping ::
                    bookkeeping[id] == if id in todo then c.books[id] else Retired(c.books[id])
        decreases todo
      {
        var id :| id in todo;
        if bookkeeping[id].status != Cancelled && bookkeeping[id].status != Released {
          bookkeeping := bookkeeping[id := bookkeeping[id].(status := Released)];
        }
        decisionPoints.Clear(id);
        todo := todo - {id};
        assert decisionPoints.current == c.current - (c.books.Keys - todo);
      }
      assert bookkeeping == RetireAll(c).books;
      assert c.books.Keys - todo == c.books.Keys;
      registry.ReleaseAll();
    }

    /** The last step of a failed batch: `restore_generations` of the captured counters. */
    method RestoreCounters(snapshot: map<RngKey, nat>, ghost c: Coord)
      requires Sound(c.reg)
      requires forall k | k in snapshot :: snapshot[k] == Generation(c.reg, k)
      requires SameButGenerations(Abs(), c, c.reg, snapshot.Keys)
      modifies registry
      ensures Abs() == c
    {
      var restored := registry.RestoreGenerations(snapshot);
      assert restored;
      forall k
        ensures k in registry.generationCounts <==> k in c.reg.generations
        ensures k in registry.generationCounts && k in c.reg.generations ==>
                  registry.generationCounts[k] == c.reg.generations[k]
      {
        assert Generation(registry.Abs(), k) == Generation(c.reg, k);
      }
      GenerationsAgree(registry.generationCounts, c.reg.generations);
      assert NoGenerations(registry.Abs()) == NoGenerations(c.reg);
    }
  }

  // ---- Why the rollback is exact -----------------------------------------------------------------

  /** Equal up to generation counters, which may have been raised on `keys` only. */
  ghost predicate SameButGenerations(c: Coord, d: Coord, base: Registry, keys: set<RngKey>) {
    && c.ids == d.ids && c.current == d.current && c.books == d.books
    && NoGenerations(c.reg) == NoGenerations(d.reg)
    && (forall k | k in c.reg.generations :: c.reg.generations[k] > 0)
    && (forall k | k !in keys :: Generation(c.reg, k) == Generation(base, k))
    && (forall k :: Generation(c.reg, k) >= Generation(base, k))
  }

  function BranchIds(items: seq<Prepared>): set<string> {
    set p <- items :: p.branchId
  }

  lemma BranchIdsGrow(items: seq<Prepared>)
    requires items != []
    ensures BranchIds(items) == BranchIds(items[..|items| - 1]) + {items[|items| - 1].branchId}
    ensures RefsOf(items)[..|items| - 1] == RefsOf(items[..|items| - 1])
  {
    assert items == items[..|items| - 1] + [items[|items| - 1]];
  }

  lemma {:induction false} PublishAllParts(c: Coord, items: seq<Prepared>)
    ensures var d := PublishAll(c, items);
            && d.ids == c.ids + BranchIds(items) && d.books.Keys == c.books.Keys + BranchIds(items)
            && d.current == c.current
            && d.reg == CommitRefs(c.reg, RefsOf(items))
  {
    if items != [] {
      PublishAllParts(c, items[..|items| - 1]);
      BranchIdsGrow(items);
    }
  }

  lemma PublishAllFacts(c: Coord, items: seq<Prepared>, n: nat)
    requires Coherent(c) && Fresh(c, items) && n < |items|
    ensures var d := PublishAll(c, items[..n]);
            && ROOT_BRANCH_ID in d.ids && items[n].branchId !in d.ids
            && items[n].branchId !in d.books && items[n].branchId !in d.current
            && Sound(d.reg)
            && items[n].branchId !in Refs(d.reg, items[n].plan.key)
            && SameButGenerations(d, d, c.reg, Keys(RefsOf(items)))
  {
    var init := items[..n];
    PublishAllParts(c, init);
    CommitsOnlyRaise(c.reg, RefsOf(init));
    assert items[n].branchId !in Holders(c.books, items[n].plan.key);
    StrangersStayOut(c.reg, RefsOf(init), items[n].plan.key, items[n].branchId);
    forall k | k in Keys(RefsOf(init))
      ensures k in Keys(RefsOf(items))
    {
      var i :| 0 <= i < n && RefsOf(init)[i].key == k;
      assert RefsOf(items)[i].key == k;
    }
  }

  lemma RootStaysKnown(c: Coord, items: seq<Prepared>, n: nat)
    requires Coherent(c) && Fresh(c, items) && n < |items|
    ensures ROOT_BRANCH_ID in PublishAll(c, items[..n]).ids
  {
    PublishAllFacts(c, items, n);
  }

  lemma FailedCommitLeavesOnlyGenerations(c: Coord, items: seq<Prepared>, n: nat, fault: Fault)
    requires Coherent(c) && Fresh(c, items) && n < |items|
    requires !Commits(PublishAll(c, items[..n]), items[n], fault)
    ensures SameButGenerations(CommitOutcome(PublishAll(c, items[..n]), items[n], fault),
                               PublishAll(c, items[..n]), c.reg, Keys(RefsOf(items)))
  {
    PublishAllFacts(c, items, n);
    assert RefsOf(items)[n].key == items[n].plan.key;
    FailedCommitRaisesOneCounter(PublishAll(c, items[..n]), items[n], fault, c.reg, Keys(RefsOf(items)));
  }

  /** What the next commit of a batch leaves, whether it goes through or not. */
  lemma CommittedNext(c: Coord, items: seq<Prepared>, faults: seq<Fault>, n: nat, d: Coord)
    requires Coherent(c) && Fresh(c, items) && n < |items| == |faults| && AllCommit(c, items, faults, n)
    requires d == CommitOutcome(PublishAll(c, items[..n]), items[n], faults[n])
    ensures if Commits(PublishAll(c, items[..n]), items[n], faults[n])
            then d == PublishAll(c, items[..n + 1]) && AllCommit(c, items, faults, n + 1)
            else StoppedAt(c, items, faults, n, d)
  {
    if Commits(PublishAll(c, items[..n]), items[n], faults[n]) {
      assert items[..n + 1][..n] == items[..n];
      AllCommitNext(c, items, faults, n);
    } else {
      FailedCommitLeavesOnlyGenerations(c, items, n, faults[n]);
    }
  }

  lemma FailedCommitRaisesOneCounter(d: Coord, p: Prepared, fault: Fault, base: Registry, keys: set<RngKey>)
    requires Sound(d.reg) && SameButGenerations(d, d, base, keys) && p.plan.key in keys
    requires p.branchId !in d.ids && p.branchId !in d.books && p.branchId !in d.current
    requires p.branchId !in Refs(d.reg, p.plan.key)
    requires !Commits(d, p, fault)
    ensures SameButGenerations(CommitOutcome(d, p, fault), d, base, keys)
  {
    if CommitOutcome(d, p, fault) != d {
      ReleaseUndoesCommit(d.reg, RefOf(p));
      CommitKeepsSound(d.reg, RefOf(p));
    }
  }

  lemma ReleaseOfLookalike(now: Registry, r: Registry, ref: Reference)
    requires Sound(r) && ref.branch !in Refs(r, ref.key)
    requires WithBranch(r, ref.key, ref.state, ref.branch).Some?
    requires NoGenerations(now) == NoGenerations(CommitRef(r, ref))
    ensures NoGenerations(WithoutBranch(now, ref.key, ref.branch)) == NoGenerations(r)
    ensures WithoutBranch(now, ref.key, ref.branch).generations == now.generations
  {
    ReleaseUndoesCommit(r, ref);
    assert NoGenerations(WithoutBranch(now, ref.key, ref.branch))
        == NoGenerations(WithoutBranch(NoGenerations(now), ref.key, ref.branch));
  }

  lemma UnpublishLookalike(d: Coord, p: Prepared, now: Coord, base: Registry, keys: set<RngKey>)
    requires Sound(d.reg) && p.branchId !in Refs(d.reg, p.plan.key)
    requires p.branchId !in d.ids && p.branchId !in d.books && p.branchId !in d.current
    requires WithBranch(d.reg, p.plan.key, p.plan.override, p.branchId).Some?
    requires SameButGenerations(now, Publish(d, p), base, keys)
    ensures SameButGenerations(Unpublish(now, p), d, base, keys)
  {
    ReleaseOfLookalike(now.reg, d.reg, RefOf(p));
    assert now.ids - {p.branchId} == d.ids;
    assert now.books - {p.branchId} == d.books;
    assert now.current - {p.branchId} == d.current;
  }

  lemma UnpublishStep(c: Coord, items: seq<Prepared>, n: nat, now: Coord)
    requires Coherent(c) && Fresh(c, items) && n < |items|
    requires Commits(PublishAll(c, items[..n]), items[n], NoFault)
    requires SameButGenerations(now, PublishAll(c, items[..n + 1]), c.reg, Keys(RefsOf(items)))
    ensures items[n].branchId != ROOT_BRANCH_ID
    ensures SameButGenerations(Unpublish(now, items[n]), PublishAll(c, items[..n]), c.reg, Keys(RefsOf(items)))
  {
    PublishAllFacts(c, items, n);
    assert items[..n + 1][..n] == items[..n];
    UnpublishLookalike(PublishAll(c, items[..n]), items[n], now, c.reg, Keys(RefsOf(items)));
  }

  lemma GenerationsAgree(m: map<RngKey, nat>, n: map<RngKey, nat>)
    requires forall k :: k in m <==> k in n
    requires forall k | k in m && k in n :: m[k] == n[k]
    ensures m == n
  {
  }

  /**
   The singleton path commits without capturing generations.  A failed commit leaves everything as
   it was except when it started a new life and then failed in bookkeeping: that generation is lost.
   */
  lemma SingletonCommitRestoresIff(c: Coord, p: Prepared, fault: Fault)
    requires Coherent(c) && !Commits(c, p, fault)
    ensures CommitOutcome(c, p, fault) == c <==>
            !(fault == AtBookkeeping && p.branchId !in c.ids && p.plan.key !in c.reg.entries)
    ensures CommitOutcome(c, p, fault).(reg := NoGenerations(CommitOutcome(c, p, fault).reg))
         == c.(reg := NoGenerations(c.reg))
  {
    if CommitOutcome(c, p, fault) != c || (fault == AtBookkeeping && p.branchId !in c.ids) {
      assert p.branchId !in Holders(c.books, p.plan.key);
      var ref := RefOf(p);
      if WithBranch(c.reg, ref.key, ref.state, ref.branch).Some? {
        ReleaseUndoesCommit(c.reg, ref);
        var out := CommitOutcome(c, p, fault).reg;
        assert out.entries == NoGenerations(out).entries == c.reg.entries;
        assert out.refs == NoGenerations(out).refs == c.reg.refs;
        if p.plan.key !in c.reg.entries {
          assert Generation(out, p.plan.key) == Generation(c.reg, p.plan.key) + 1;
        }
      }
    }
  }

  // ---- Every reachable coordinator ---------------------------------------------------------------

  lemma PublishKeepsCoherent(c: Coord, p: Prepared)
    requires Coherent(c) && Commits(c, p, NoFault)
    ensures Coherent(Publish(c, p))
  {
    var d := Publish(c, p);
    CommitKeepsSound(c.reg, RefOf(p));
    forall k
      ensures Refs(d.reg, k) == Holders(d.books, k)
    {
      assert Refs(c.reg, k) == Holders(c.books, k);
      assert Holders(d.books, k) == Holders(c.books, k) + if k == p.plan.key then {p.branchId} else {};
    }
  }

  lemma RetireKeepsCoherent(c: Coord, id: string, status: Status)
    requires Coherent(c) && id in c.books && status != Completed
    ensures Coherent(Retire(c, id, status))
  {
    var d := Retire(c, id, status);
    if d != c {
      var book := c.books[id];
      forall k
        ensures Refs(d.reg, k) == Holders(d.books, k)
      {
        assert Refs(c.reg, k) == Holders(c.books, k);
        assert Holders(d.books, k) == Holders(c.books, k) - {id};
      }
      forall other | other in d.books && d.books[other].status == Completed && d.books[other].plan.Some?
        ensures d.books[other].plan.value.key in d.reg.entries
      {
        var k := d.books[other].plan.value.key;
        assert other in Holders(d.books, k);
        assert other in Refs(d.reg, k);
      }
    }
  }

  lemma RetireAllKeepsCoherent(c: Coord)
    requires Coherent(c)
    ensures Coherent(RetireAll(c))
  {
    var d := RetireAll(c);
    forall k
      ensures Refs(d.reg, k) == Holders(d.books, k)
    {
      assert Holders(d.books, k) == {};
    }
  }

  /** The state every item prepared for key `k` carries. */
  function Canonical(c: Coord, k: RngKey, base: RngState, derive: (RngState, int) -> RngState): RngState {
    PrepareState(c.reg, k, base, k.rngId, derive)
  }

  lemma PreparedIsCanonical(c: Coord, p: Prepared, base: RngState, derive: (RngState, int) -> RngState)
    requires Coherent(c) && PreparedFrom(c, p, base, derive)
    ensures p.plan.override == Canonical(c, p.plan.key, base, derive)
  {
    var decision, prefixLength :|
      && Prepare(c, Request(p.branchId, p.parent, p.rngId, decision), base, prefixLength, derive) == Some(p.plan)
      && (p.parent != ROOT_BRANCH_ID ==> p.parent in c.books && c.books[p.parent].status == Completed);
  }

  ghost predicate EntriesCanonical(d: Coord, c: Coord, base: RngState, derive: (RngState, int) -> RngState) {
    forall k | k in d.reg.entries :: d.reg.entries[k].state == Canonical(c, k, base, derive)
  }

  lemma CanonicalItemCommits(d: Coord, c: Coord, p: Prepared, base: RngState, derive: (RngState, int) -> RngState)
    requires EntriesCanonical(d, c, base, derive) && p.branchId !in d.ids
    requires p.plan.override == Canonical(c, p.plan.key, base, derive)
    ensures Commits(d, p, NoFault)
    ensures EntriesCanonical(Publish(d, p), c, base, derive)
  {
  }

  lemma {:induction false} CanonicalBatchCommits(c: Coord, items: seq<Prepared>, faults: seq<Fault>, n: nat,
      base: RngState, derive: (RngState, int) -> RngState)
    requires Coherent(c) && Fresh(c, items) && n <= |items| == |faults|
    requires forall i | 0 <= i < n ::
               faults[i] == NoFault && items[i].plan.override == Canonical(c, items[i].plan.key, base, derive)
    ensures AllCommit(c, items, faults, n)
    ensures Coherent(PublishAll(c, items[..n]))
    ensures EntriesCanonical(PublishAll(c, items[..n]), c, base, derive)
    decreases n
  {
    if n == 0 {
      assert items[..0] == [];
    } else {
      CanonicalBatchCommits(c, items, faults, n - 1, base, derive);
      PublishAllFacts(c, items, n - 1);
      CanonicalItemCommits(PublishAll(c, items[..n - 1]), c, items[n - 1], base, derive);
      PublishOneMore(c, items, n);
    }
  }

  lemma PublishOneMore(c: Coord, items: seq<Prepared>, n: nat)
    requires 0 < n <= |items| && Coherent(PublishAll(c, items[..n - 1]))
    requires Commits(PublishAll(c, items[..n - 1]), items[n - 1], NoFault)
    ensures PublishAll(c, items[..n]) == Publish(PublishAll(c, items[..n - 1]), items[n - 1])
    ensures Coherent(PublishAll(c, items[..n]))
  {
    PublishKeepsCoherent(PublishAll(c, items[..n - 1]), items[n - 1]);
    assert items[..n][..n - 1] == items[..n - 1];
  }

  /**
   A batch prepared from one coherent coordinator never meets a mismatched hypothesis: without an
   injected fault all its commits go through, even when items share keys, and the result is coherent.
   */
  lemma PreparedBatchCommits(c: Coord, items: seq<Prepared>, faults: seq<Fault>, base: RngState,
      derive: (RngState, int) -> RngState)
    requires Coherent(c) && Fresh(c, items) && |items| == |faults|
    requires forall i | 0 <= i < |items| :: faults[i] == NoFault && PreparedFrom(c, items[i], base, derive)
    ensures AllCommit(c, items, faults, |items|)
    ensures Coherent(PublishAll(c, items))
  {
    forall i | 0 <= i < |items|
      ensures items[i].plan.override == Canonical(c, items[i].plan.key, base, derive)
    {
      PreparedIsCanonical(c, items[i], base, derive);
    }
    CanonicalBatchCommits(c, items, faults, |items|, base, derive);
    assert items[..|items|] == items;
  }

  // ---- What each operation leaves, said of the dictionaries ----------------------------------------

  /**
   A Branch below the root gets a hypothesis of its own decision and rng id, drawn for that rng id
   unless it is live already, due at the end of the prefix.  A deeper one gets its parent's, unchanged.
   */
  lemma PlanIs(c: Coord, r: Request, base: RngState, prefixLength: nat, derive: (RngState, int) -> RngState)
    ensures r.parent == ROOT_BRANCH_ID ==>
              var key := RngKey(ROOT_BRANCH_ID, r.decision, r.rngId);
              var override := if key in c.reg.entries then c.reg.entries[key].state else derive(base, r.rngId);
              Prepare(c, r, base, prefixLength, derive) == Some(Plan(key, override, prefixLength))
    ensures r.parent != ROOT_BRANCH_ID ==>
              Prepare(c, r, base, prefixLength, derive) == if r.parent in c.books then c.books[r.parent].plan else None
  {
  }

  lemma {:induction false} PublishedBook(c: Coord, items: seq<Prepared>, k: nat)
    requires k < |items| && forall i, j | 0 <= i < j < |items| :: items[i].branchId != items[j].branchId
    ensures items[k].branchId in PublishAll(c, items).books
    ensures var p := items[k];
            PublishAll(c, items).books[p.branchId] == Book(p.parent, p.rngId, Some(p.plan), Completed)
  {
    var n := |items| - 1;
    if k < n { PublishedBook(c, items[..n], k); }
  }

  lemma {:induction false} OlderBook(c: Coord, items: seq<Prepared>, b: string)
    requires b in c.books && b !in BranchIds(items)
    ensures b in PublishAll(c, items).books && PublishAll(c, items).books[b] == c.books[b]
  {
    if items != [] {
      BranchIdsGrow(items);
      OlderBook(c, items[..|items| - 1], b);
    }
  }

  /** The item's Branch is public under its own parent, rng id and plan. */
  predicate PublishedAs(d: Coord, p: Prepared) {
    p.branchId in d.books && d.books[p.branchId] == Book(p.parent, p.rngId, Some(p.plan), Completed)
  }

  /** A published batch: its ids are taken, each Branch is public as it was prepared, no older one has changed. */
  lemma PublishedBatchIs(c: Coord, items: seq<Prepared>)
    requires Coherent(c) && Fresh(c, items)
    ensures var d := PublishAll(c, items);
            && d.ids == c.ids + BranchIds(items) && d.current == c.current
            && d.books.Keys == c.books.Keys + BranchIds(items)
            && (forall k | 0 <= k < |items| :: PublishedAs(d, items[k]))
            && (forall b <- c.books :: d.books[b] == c.books[b])
  {
    PublishAllParts(c, items);
    forall k | 0 <= k < |items| ensures PublishedAs(PublishAll(c, items), items[k]) {
      PublishedBook(c, items, k);
    }
    forall b <- c.books ensures b !in BranchIds(items) && PublishAll(c, items).books[b] == c.books[b] {
      assert b in c.ids;
      OlderBook(c, items, b);
    }
  }

  /** The plan item `p` was prepared with, on either path. */
  ghost predicate OwnPlan(c: Coord, p: Prepared, base: RngState, derive: (RngState, int) -> RngState) {
    if p.parent == ROOT_BRANCH_ID then
      && p.plan.key.parent == ROOT_BRANCH_ID && p.plan.key.rngId == p.rngId
      && p.plan.override == if p.plan.key in c.reg.entries then c.reg.entries[p.plan.key].state
                            else derive(base, p.rngId)
    else p.parent in c.books && c.books[p.parent].plan == Some(p.plan)
  }

  /** Every Branch of a published batch carries the draw of its own rng id, or its parent's plan. */
  lemma PublishedCarryTheirDraws(c: Coord, items: seq<Prepared>, base: RngState,
      derive: (RngState, int) -> RngState, k: nat)
    requires Coherent(c) && Fresh(c, items) && k < |items| && PreparedFrom(c, items[k], base, derive)
    ensures OwnPlan(c, items[k], base, derive) && PublishedAs(PublishAll(c, items), items[k])
  {
    var p := items[k];
    var decision, prefixLength :|
      Prepare(c, Request(p.branchId, p.parent, p.rngId, decision), base, prefixLength, derive) == Some(p.plan);
    PlanIs(c, Request(p.branchId, p.parent, p.rngId, decision), base, prefixLength, derive);
    PublishedBatchIs(c, items);
  }

  /** A commit goes through exactly if nothing raises, the id is new, and a live hypothesis has the same state. */
  lemma CommitsIff(c: Coord, p: Prepared, fault: Fault)
    ensures Commits(c, p, fault) <==>
            && fault == NoFault && p.branchId !in c.ids
            && (p.plan.key in c.reg.entries ==> c.reg.entries[p.plan.key].state == p.plan.override)
  {
  }

  /**
   Cancelling, releasing or faulting one Branch: a released one stays as it is, a cancelled one can only
   be released; otherwise the Branch takes the status and gives its reference up.  Nobody else moves.
   */
  lemma RetireIs(c: Coord, id: string, status: Status)
    requires id in c.books
    ensures var d, b := Retire(c, id, status), c.books[id];
            if b.status == Released || (b.status == Cancelled && status != Released) then d == c
            else
              && d.ids == c.ids && d.current == c.current && d.reg.generations == c.reg.generations
              && d.books == c.books[id := Book(b.parent, b.rngId, None, status)]
  {
  }

  /** What that does to a hypothesis: it loses the Branch, and dies with its last one. */
  lemma RetireReleases(c: Coord, id: string, status: Status, k: RngKey)
    requires Coherent(c) && id in c.books && status != Completed && c.books[id].status == Completed
    ensures var d := Retire(c, id, status);
            Refs(d.reg, k) == Refs(c.reg, k) - {id} && (k in d.reg.entries <==> Refs(c.reg, k) - {id} != {})
  {
    var d := Retire(c, id, status);
    RetireKeepsCoherent(c, id, status);
    assert Refs(c.reg, k) == Holders(c.books, k) && Refs(d.reg, k) == Holders(d.books, k);
    assert Holders(d.books, k) == Holders(c.books, k) - {id};
  }

  /** A root commit makes tombstones of all Branches, cancelled ones staying cancelled, and ends every hypothesis. */
  lemma RetireAllIs(c: Coord)
    ensures var d := RetireAll(c);
            && d.ids == c.ids && d.current == c.current - c.books.Keys && d.books.Keys == c.books.Keys
            && (forall b <- c.books ::
                  d.books[b] == c.books[b].(status := if c.books[b].status == Cancelled then Cancelled else Released))
            && d.reg.entries == map[] && d.reg.refs == map[] && d.reg.generations == c.reg.generations
  {
  }

  datatype Op =
    | Batch(items: seq<Prepared>, faults: seq<Fault>)
    /** The singleton path: one commit, nothing restored when it raises. */
    | Singleton(item: Prepared, fault: Fault)
    | Decide(id: string, decision: string)
    | RetireOne(id: string, status: Status)
    | RootCommit(decision: string)

  /** One operation of the instance; a rejected or rolled-back request changes nothing. */
  function Step(c: Coord, op: Op): Coord {
    match op
    case Batch(items, faults) =>
      if |faults| == |items| && Fresh(c, items) && AllCommit(c, items, faults, |items|) then PublishAll(c, items) else c
    case Singleton(p, fault) => CommitOutcome(c, p, fault)
    case Decide(id, decision) =>
      if id in c.books then c.(current := c.current[id := decision]) else c
    case RetireOne(id, status) =>
      if id in c.books && status != Completed then Retire(c, id, status) else c
    case RootCommit(decision) =>
      var d := RetireAll(c);
      d.(current := d.current[ROOT_BRANCH_ID := decision])
  }

  function RunOps(c: Coord, ops: seq<Op>): Coord
    decreases |ops|
  {
    if ops == [] then c else RunOps(Step(c, ops[0]), ops[1..])
  }

  lemma {:induction false} PublishedBatchIsCoherent(c: Coord, items: seq<Prepared>, faults: seq<Fault>, n: nat)
    requires Coherent(c) && n <= |items| == |faults| && AllCommit(c, items, faults, n)
    ensures Coherent(PublishAll(c, items[..n]))
  {
    if n == 0 {
      assert items[..0] == [];
    } else {
      PublishedBatchIsCoherent(c, items, faults, n - 1);
      PublishOneMore(c, items, n);
    }
  }

  /** A singleton commit that raised may have lost a generation, but no reference and no Branch. */
  lemma CommitOutcomeIsCoherent(c: Coord, p: Prepared, fault: Fault)
    requires Coherent(c)
    ensures Coherent(CommitOutcome(c, p, fault))
  {
    if Commits(c, p, fault) {
      PublishKeepsCoherent(c, p);
    } else {
      var d := CommitOutcome(c, p, fault);
      SingletonCommitRestoresIff(c, p, fault);
      assert NoGenerations(d.reg) == NoGenerations(c.reg);
      if d != c {
        CommitKeepsSound(c.reg, RefOf(p));
        assert forall k :: Refs(d.reg, k) == Refs(c.reg, k);
      }
    }
  }

  /** Whatever is committed, rolled back, retired or folded, registry and bookkeeping agree. */
  lemma {:induction false} EveryRunIsCoherent(c: Coord, ops: seq<Op>)
    requires Coherent(c)
    ensures Coherent(RunOps(c, ops))
    decreases |ops|
  {
    if ops != [] {
      match ops[0] {
        case Batch(items, faults) =>
          if |faults| == |items| && AllCommit(c, items, faults, |items|) {
            PublishedBatchIsCoherent(c, items, faults, |items|);
            assert items[..|items|] == items;
          }
        case Singleton(p, fault) => CommitOutcomeIsCoherent(c, p, fault);
        case Decide(id, decision) =>
        case RetireOne(id, status) =>
          if id in c.books && status != Completed {
            RetireKeepsCoherent(c, id, status);
          }
        case RootCommit(decision) =>
          RetireAllKeepsCoherent(c);
      }
      assert Coherent(Step(c, ops[0]));
      EveryRunIsCoherent(Step(c, ops[0]), ops[1..]);
    }
  }

  /** In every reachable coordinator a hypothesis is live exactly when a usable Branch carries it. */
  lemma LiveIffSomeBranchCarriesIt(c: Coord, ops: seq<Op>, k: RngKey)
    requires Coherent(c)
    ensures var d := RunOps(c, ops);
            && (k in d.reg.entries <==> exists id :: id in d.books && Holds(d.books[id], k))
            && (forall id | id in d.books && Holds(d.books[id], k) ::
                  k in d.reg.entries && d.books[id].plan.value.override == d.reg.entries[k].state)
  {
    EveryRunIsCoherent(c, ops);
    var d := RunOps(c, ops);
    assert Refs(d.reg, k) == Holders(d.books, k);
    if k in d.reg.entries {
      var id :| id in Refs(d.reg, k);
      assert id in d.books && Holds(d.books[id], k);
    }
    if id :| id in d.books && Holds(d.books[id], k) {
      assert id in Holders(d.books, k);
    }
  }
}
