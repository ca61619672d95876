/**
 The second half of an Event batch (`_dispatch_prepared_batch` in API/instance_whole_run_beam.py and
 `_finalize_event_branch` in API/instance_whole_run.py).

 The published Branches go to the pool as sub-branch work, and every result goes back to the Branch it
 is for.  Work is told apart by a printed id, answers by a request number, Branches by their own id.
 */
module EventDispatch {
  import opened Wrappers
  import opened Identifiers
  import opened EventBatch
  import TextIds
  import WorkerPool

  type Answer = WorkerPool.BranchResult

  /** Where publishing a successful result raises: at its step or view, or once its decision is out. */
  datatype Finish = Opens | RaisesBefore | RaisesAfter

  /** How the pool call ends: a script of arrivals, its own time-out, or any other error before that. */
  datatype PoolCall = Returns(script: seq<WorkerPool.Arrival>) | TimesOut | Raises

  datatype Reply = Opened(decision: string, answer: Answer) | Failed(answer: Answer) | NoResult

  /** What the answers and decision ids of a batch depend on besides the arrivals. */
  datatype Moment = Moment(requestId: nat, generations: map<WorkerPool.Slot, nat>, leases: WorkerPool.Leases,
    slots: seq<WorkerPool.Slot>, next: nat, decision: nat)

  // ---- Work and answers ------------------------------------------------------------------------------

  /** Validation lets positive rng ids through only. */
  predicate PositiveRng(items: seq<Prepared>) {
    forall p <- items :: p.rngId > 0
  }

  predicate DistinctIds(items: seq<Prepared>) {
    forall i, j | 0 <= i < j < |items| :: items[i].branchId != items[j].branchId
  }

  function WorkOf(p: Prepared, contextId: string): WorkerPool.WorkItem
    requires p.rngId > 0
  {
    WorkerPool.WorkItem(TextIds.WorkId(p.branchId, p.rngId), WorkerPool.SubBranch, contextId)
  }

  function WorkItems(items: seq<Prepared>, contexts: seq<string>): (work: seq<WorkerPool.WorkItem>)
    requires |contexts| == |items| && PositiveRng(items)
    ensures |work| == |items| && forall it <- work :: it.kind == WorkerPool.SubBranch
  {
    seq(|items|, k requires 0 <= k < |items| => WorkOf(items[k], contexts[k]))
  }

  /** What request `id` comes to when it was sent to `slot`: its first answer, or its time-out. */
  function AnswerTo(script: seq<WorkerPool.Arrival>, id: nat, gens: map<WorkerPool.Slot, nat>, slot: WorkerPool.Slot)
    : Answer
  {
    match WorkerPool.FirstAnswer(script, id)
    case Some(answer) => answer
    case None => WorkerPool.Fault(Some(slot), if slot in gens then Some(gens[slot]) else None, true, 0)
  }

  /** Item `k` is request `firstId + 1 + k`, sent to the k-th target. */
  function OwnAnswers(script: seq<WorkerPool.Arrival>, firstId: nat, gens: map<WorkerPool.Slot, nat>,
      targets: seq<WorkerPool.Slot>): (answers: seq<Answer>)
    ensures |answers| == |targets|
  {
    seq(|targets|, k requires 0 <= k < |targets| =>
      AnswerTo(script, WorkerPool.NthId(firstId, k), gens, targets[k]))
  }

  /** Where sub-branch work goes from here. */
  function Targets(n: nat, ls: WorkerPool.Leases, slots: seq<WorkerPool.Slot>, next: nat)
    : (targets: seq<WorkerPool.Slot>)
    requires slots != []
    ensures |targets| == n
  {
    WorkerPool.RouteSubBranches(n, ls, slots, next).0
  }

  lemma WorkIsDistinct(items: seq<Prepared>, contexts: seq<string>)
    requires |contexts| == |items| && PositiveRng(items) && DistinctIds(items)
    ensures WorkerPool.DistinctWork(WorkItems(items, contexts))
  {
    forall j, k | 0 <= j < k < |items|
      ensures WorkItems(items, contexts)[j].workId != WorkItems(items, contexts)[k].workId
    {
      TextIds.WorkIdsAreDistinct(items[j].branchId, items[j].rngId, items[k].branchId, items[k].rngId);
    }
  }

  lemma {:induction false} SlotsAt(routes: seq<WorkerPool.Routed>, k: nat)
    requires k < |routes| && forall r <- routes :: r.Route?
    ensures |WorkerPool.SlotsIn(routes)| == |routes| && WorkerPool.SlotsIn(routes)[k] == routes[k].slot
  {
    if |routes| > 1 { SlotsAt(routes[1..], if k > 0 then k - 1 else 0); }
  }

  lemma {:induction false} AsManySlots(routes: seq<WorkerPool.Routed>)
    ensures |WorkerPool.SlotsIn(routes)| == |routes|
  {
    if routes != [] { AsManySlots(routes[1..]); }
  }

  lemma OwnAnswerAt(work: seq<WorkerPool.WorkItem>, routes: seq<WorkerPool.Routed>, firstId: nat,
      gens: map<WorkerPool.Slot, nat>, script: seq<WorkerPool.Arrival>, answers: seq<Answer>, k: nat)
    requires |routes| == |work| && k < |work| && WorkerPool.DistinctWork(work)
    requires forall r <- routes :: r.Route?
    requires WorkerPool.Answered(work, WorkerPool.PendingMap(work, routes, firstId), gens, script, answers)
    ensures answers[k] == AnswerTo(script, WorkerPool.NthId(firstId, k), gens, routes[k].slot)
  {
    WorkerPool.OwnRequestAnswers(work, routes, firstId, gens, script, answers, k);
  }

  lemma AllAnswered(work: seq<WorkerPool.WorkItem>, routes: seq<WorkerPool.Routed>, firstId: nat,
      gens: map<WorkerPool.Slot, nat>, script: seq<WorkerPool.Arrival>, answers: seq<Answer>)
    requires |routes| == |work| && WorkerPool.DistinctWork(work) && forall r <- routes :: r.Route?
    requires WorkerPool.Answered(work, WorkerPool.PendingMap(work, routes, firstId), gens, script, answers)
    ensures answers == OwnAnswers(script, firstId, gens, WorkerPool.SlotsIn(routes))
  {
    AsManySlots(routes);
    forall k | 0 <= k < |work|
      ensures answers[k] == OwnAnswers(script, firstId, gens, WorkerPool.SlotsIn(routes))[k]
    {
      OwnAnswerAt(work, routes, firstId, gens, script, answers, k);
      SlotsAt(routes, k);
    }
  }

  /**
   Whatever else is on the queue, a dispatched Event batch routes, and each Branch gets the first answer
   to its own request or, if there is none, the time-out of the worker its request went to.
   */
  lemma {:induction false} EachBranchIsAnswered(
      items: seq<Prepared>, contexts: seq<string>, ls: WorkerPool.Leases, slots: seq<WorkerPool.Slot>,
      before: WorkerPool.Counters, script: seq<WorkerPool.Arrival>, r: Result<seq<Answer>, WorkerPool.WorkItem>,
      after: WorkerPool.Counters, left: WorkerPool.Leases)
    requires |contexts| == |items| && PositiveRng(items) && DistinctIds(items) && slots != []
    requires WorkerPool.Dispatched(
               WorkItems(items, contexts),
               WorkerPool.RouteAll(WorkItems(items, contexts), ls, slots, before.generations,
                                   before.nextBootstrapIndex, map[]),
               before, script, r, after, left)
    ensures r == Ok(OwnAnswers(script, before.nextRequestId, before.generations,
                               Targets(|items|, ls, slots, before.nextBootstrapIndex)))
  {
    var work := WorkItems(items, contexts);
    var b := WorkerPool.RouteAll(work, ls, slots, before.generations, before.nextBootstrapIndex, map[]);
    WorkerPool.SubBranchBatch(work, ls, slots, before.generations, before.nextBootstrapIndex, map[]);
    AsManySlots(b.routes);
    WorkIsDistinct(items, contexts);
    AllAnswered(work, b.routes, before.nextRequestId, before.generations, script, r.value);
  }

  // ---- What finalizing does to the coordinator -------------------------------------------------------

  /** Some of the first `n` items is this Branch. */
  predicate Named(items: seq<Prepared>, n: nat, b: string)
    requires n <= |items|
  {
    exists j | 0 <= j < n :: items[j].branchId == b
  }

  function Tombstone(p: Prepared, status: Status): Book {
    BookOf(p).(status := status, plan := None)
  }

  function Tombstones(items: seq<Prepared>, status: Status): (entries: seq<Book>)
    ensures |entries| == |items|
  {
    seq(|items|, k requires 0 <= k < |items| => Tombstone(items[k], status))
  }

  /** A Branch stays usable exactly if its own answer is a success. */
  function EntryAfter(p: Prepared, answer: Answer): Book {
    if answer.Success? then BookOf(p) else Tombstone(p, Faulted)
  }

  function EntriesAfter(items: seq<Prepared>, answers: seq<Answer>): (entries: seq<Book>)
    requires |answers| == |items|
    ensures |entries| == |items|
  {
    seq(|items|, k requires 0 <= k < |items| => EntryAfter(items[k], answers[k]))
  }

  /** How many of the first `n` answers open a decision. */
  function Successes(answers: seq<Answer>, n: nat): nat
    requires n <= |answers|
  {
    if n == 0 then 0 else Successes(answers, n - 1) + if answers[n - 1].Success? then 1 else 0
  }

  predicate NothingRaises(answers: seq<Answer>, finishes: seq<Finish>)
    requires |finishes| == |answers|
  {
    forall k | 0 <= k < |answers| :: answers[k].Success? ==> finishes[k].Opens?
  }

  predicate PublishedBookAt(c: Coord, p: Prepared) {
    p.branchId in c.books && c.books[p.branchId] == BookOf(p)
  }

  /** The Branches of the batch are public and have no decision yet. */
  ghost predicate Published(c: Coord, items: seq<Prepared>) {
    && DistinctIds(items)
    && (forall k | 0 <= k < |items| :: PublishedBookAt(c, items[k]) && items[k].branchId !in c.current)
  }

  lemma BatchIsPublished(c: Coord, items: seq<Prepared>, faults: seq<Fault>)
    requires Coherent(c) && Fresh(c, items) && |faults| == |items| && AllCommit(c, items, faults, |items|)
    ensures Published(PublishAll(c, items), items) && Coherent(PublishAll(c, items))
  {
    PublishedBatchIsCoherent(c, items, faults, |items|);
    assert items[..|items|] == items;
    PublishAllParts(c, items);
    forall k | 0 <= k < |items| ensures PublishedBookAt(PublishAll(c, items), items[k]) {
      PublishedBook(c, items, k);
    }
  }

  lemma OlderBooksStay(c: Coord, items: seq<Prepared>)
    requires c.books.Keys !! BranchIds(items)
    ensures PublishAll(c, items).books.Keys == c.books.Keys + BranchIds(items)
    ensures forall b <- c.books :: PublishAll(c, items).books[b] == c.books[b]
  {
    PublishAllParts(c, items);
    forall b <- c.books ensures PublishAll(c, items).books[b] == c.books[b] {
      OlderBook(c, items, b);
    }
  }

  /** References and usable Branches agree, and no id was taken or given back. */
  ghost predicate StaysCoherent(c: Coord, t: Coord) {
    Coherent(t) && t.ids == c.ids
  }

  /** The first `n` Branches have these entries, every other one its own. */
  ghost predicate Settled(before: map<string, Book>, after: map<string, Book>, items: seq<Prepared>,
      entries: seq<Book>, n: nat)
    requires n <= |items| == |entries|
  {
    && after.Keys == before.Keys
    && (forall j | 0 <= j < n :: items[j].branchId in after && after[items[j].branchId] == entries[j])
    && (forall b <- before | !Named(items, n, b) :: after[b] == before[b])
  }

  lemma NotYetNamed(items: seq<Prepared>, n: nat, k: nat)
    requires n <= k < |items| && DistinctIds(items)
    ensures !Named(items, n, items[k].branchId)
  {
  }

  lemma SettlesOneMore(before: map<string, Book>, now: map<string, Book>, items: seq<Prepared>, entries: seq<Book>,
      n: nat)
    requires n < |items| == |entries| && Settled(before, now, items, entries, n) && items[n].branchId in now
    requires forall j | 0 <= j < n :: items[j].branchId != items[n].branchId
    ensures Settled(before, now[items[n].branchId := entries[n]], items, entries, n + 1)
  {
    forall b <- before | !Named(items, n + 1, b) ensures b != items[n].branchId && !Named(items, n, b) {
      assert items[n].branchId != b;
    }
  }

  predicate Numbered(decisions: seq<string>, items: seq<Prepared>, answers: seq<Answer>, start: nat,
      name: (string, nat) -> string)
    requires |decisions| == |items| == |answers|
  {
    forall k | 0 <= k < |items| :: decisions[k] == name(items[k].branchId, start + Successes(answers, k))
  }

  /** What each Branch is given if its answer is a success: numbered in item order, over successes only. */
  function Numbering(items: seq<Prepared>, answers: seq<Answer>, start: nat, name: (string, nat) -> string)
    : (decisions: seq<string>)
    requires |answers| == |items|
    ensures |decisions| == |items| && Numbered(decisions, items, answers, start, name)
  {
    seq(|items|, k requires 0 <= k < |items| => name(items[k].branchId, start + Successes(answers, k)))
  }

  /** The decision ids of a batch. */
  function DecisionIds(items: seq<Prepared>, answers: seq<Answer>, start: nat): (decisions: seq<string>)
    requires |answers| == |items|
    ensures |decisions| == |items|
  {
    Numbering(items, answers, start, TextIds.DecisionId)
  }

  predicate DecidedAt(after: map<string, string>, items: seq<Prepared>, answers: seq<Answer>, decisions: seq<string>,
      j: nat)
    requires j < |items| == |answers| == |decisions|
  {
    if answers[j].Fault? then items[j].branchId !in after
    else items[j].branchId in after && after[items[j].branchId] == decisions[j]
  }

  /** Decisions are opened for successes only; those of other Branches stand. */
  ghost predicate Decided(before: map<string, string>, after: map<string, string>, items: seq<Prepared>,
      answers: seq<Answer>, decisions: seq<string>, n: nat)
    requires n <= |items| == |answers| == |decisions|
  {
    && before.Keys <= after.Keys && (forall b <- before :: after[b] == before[b])
    && (forall b <- after :: b in before || Named(items, n, b))
    && (forall j | 0 <= j < n :: DecidedAt(after, items, answers, decisions, j))
  }

  lemma DecidesOneMore(before: map<string, string>, now: map<string, string>, items: seq<Prepared>,
      answers: seq<Answer>, decisions: seq<string>, n: nat)
    requires n < |items| == |answers| == |decisions| && Decided(before, now, items, answers, decisions, n)
    requires forall j | 0 <= j < n :: items[j].branchId != items[n].branchId
    requires items[n].branchId !in before
    ensures Decided(before, if answers[n].Fault? then now else now[items[n].branchId := decisions[n]],
                    items, answers, decisions, n + 1)
  {
    var id := items[n].branchId;
    var after := if answers[n].Fault? then now else now[id := decisions[n]];
    assert id !in now;
    forall b <- after ensures b in before || Named(items, n + 1, b) {
      if b == id { assert items[n].branchId == b; }
    }
    forall j | 0 <= j < n + 1 ensures DecidedAt(after, items, answers, decisions, j) {
      if j < n { assert DecidedAt(now, items, answers, decisions, j); }
    }
  }

  function ReplyTo(answer: Answer, decision: string): Reply {
    if answer.Success? then Opened(decision, answer) else Failed(answer)
  }

  predicate RepliedAt(replies: map<string, Reply>, items: seq<Prepared>, answers: seq<Answer>, decisions: seq<string>,
      j: nat)
    requires j < |items| == |answers| == |decisions|
  {
    items[j].branchId in replies && replies[items[j].branchId] == ReplyTo(answers[j], decisions[j])
  }

  /** Every Branch so far is told about its own answer and its own decision. */
  ghost predicate Replied(replies: map<string, Reply>, items: seq<Prepared>, answers: seq<Answer>,
      decisions: seq<string>, n: nat)
    requires n <= |items| == |answers| == |decisions|
  {
    && (forall b <- replies :: Named(items, n, b))
    && (forall j | 0 <= j < n :: RepliedAt(replies, items, answers, decisions, j))
  }

  lemma RepliesOneMore(replies: map<string, Reply>, items: seq<Prepared>, answers: seq<Answer>,
      decisions: seq<string>, n: nat)
    requires n < |items| == |answers| == |decisions| && Replied(replies, items, answers, decisions, n)
    requires forall j | 0 <= j < n :: items[j].branchId != items[n].branchId
    ensures Replied(replies[items[n].branchId := ReplyTo(answers[n], decisions[n])], items, answers, decisions, n + 1)
  {
    var after := replies[items[n].branchId := ReplyTo(answers[n], decisions[n])];
    forall b <- after ensures Named(items, n + 1, b) {
      if b == items[n].branchId { assert items[n].branchId == b; }
    }
    forall j | 0 <= j < n + 1 ensures RepliedAt(after, items, answers, decisions, j) {
      if j < n { assert RepliedAt(replies, items, answers, decisions, j); }
    }
  }

  /** Half-way through the results. */
  ghost predicate Finalized(c: Coord, t: Coord, replies: map<string, Reply>, items: seq<Prepared>,
      answers: seq<Answer>, decisions: seq<string>, n: nat)
    requires n <= |items| == |answers| == |decisions|
  {
    && Settled(c.books, t.books, items, EntriesAfter(items, answers), n)
    && Decided(c.current, t.current, items, answers, decisions, n)
    && Replied(replies, items, answers, decisions, n)
  }

  /** The decision counter follows the successes, and no result has raised so far. */
  predicate InStep(counter: nat, start: nat, answers: seq<Answer>, finishes: seq<Finish>, n: nat)
    requires n <= |answers| == |finishes|
  {
    && counter == start + Successes(answers, n)
    && (forall k | 0 <= k < n :: answers[k].Success? ==> finishes[k].Opens?)
  }

  lemma NothingFinalized(c: Coord, items: seq<Prepared>, answers: seq<Answer>, decisions: seq<string>)
    requires |items| == |answers| == |decisions|
    ensures Finalized(c, c, map[], items, answers, decisions, 0)
  {
  }

  lemma NoneRaised(counter: nat, start: nat, answers: seq<Answer>, finishes: seq<Finish>)
    requires |answers| == |finishes| && InStep(counter, start, answers, finishes, |answers|)
    ensures NothingRaises(answers, finishes)
  {
  }

  /** What one result makes of the coordinator. */
  function FinalizedOne(c: Coord, p: Prepared, answer: Answer, finish: Finish, decision: string): Coord
    requires p.branchId in c.books
  {
    if answer.Fault? || finish.RaisesBefore? then Retire(c, p.branchId, Faulted)
    else c.(current := c.current[p.branchId := decision])
  }

  /** Its book is a faulted tombstone. */
  predicate Marked(u: Coord, t: Coord, p: Prepared) {
    t.books == u.books[p.branchId := Tombstone(p, Faulted)] && t.current == u.current
  }

  /** Its decision is out. */
  predicate Opening(u: Coord, t: Coord, p: Prepared, decision: string) {
    t.books == u.books && t.current == u.current[p.branchId := decision]
  }

  /** What one result changes, references aside. */
  predicate Taken(u: Coord, t: Coord, p: Prepared, answer: Answer, finish: Finish, decision: string) {
    if answer.Fault? || finish.RaisesBefore? then Marked(u, t, p) else Opening(u, t, p, decision)
  }

  lemma FinalizedOneIs(u: Coord, p: Prepared, answer: Answer, finish: Finish, decision: string)
    requires Coherent(u) && p.branchId in u.books && u.books[p.branchId] == BookOf(p)
    ensures var t := FinalizedOne(u, p, answer, finish, decision);
            StaysCoherent(u, t) && Taken(u, t, p, answer, finish, decision)
  {
    RetireKeepsCoherent(u, p.branchId, Faulted);
  }

  /** One more is finalized, and replied to. */
  ghost predicate GoesOn(c: Coord, t: Coord, replies: map<string, Reply>, items: seq<Prepared>, answers: seq<Answer>,
      decisions: seq<string>, n: nat)
    requires n < |items| == |answers| == |decisions|
  {
    Finalized(c, t, replies[items[n].branchId := ReplyTo(answers[n], decisions[n])], items, answers, decisions, n + 1)
  }

  lemma FinalizesOneMore(c: Coord, u: Coord, t: Coord, replies: map<string, Reply>, items: seq<Prepared>,
      answers: seq<Answer>, decisions: seq<string>, n: nat)
    requires n < |items| == |answers| == |decisions| && Published(c, items)
    requires Finalized(c, u, replies, items, answers, decisions, n)
    requires items[n].branchId in u.books && u.books[items[n].branchId] == BookOf(items[n])
    requires if answers[n].Fault? then Marked(u, t, items[n]) else Opening(u, t, items[n], decisions[n])
    ensures GoesOn(c, t, replies, items, answers, decisions, n)
  {
    SettlesOneMore(c.books, u.books, items, EntriesAfter(items, answers), n);
    if answers[n].Success? { assert u.books == u.books[items[n].branchId := EntriesAfter(items, answers)[n]]; }
    DecidesOneMore(c.current, u.current, items, answers, decisions, n);
    RepliesOneMore(replies, items, answers, decisions, n);
  }

  // ---- Giving a broken batch up ----------------------------------------------------------------------

  predicate Unfinished(p: Prepared, b: Book) {
    b.parent == p.parent && b.rngId == p.rngId && (b.status == Completed || b.status == Faulted)
  }

  predicate UnfinishedAt(books: map<string, Book>, items: seq<Prepared>, k: nat)
    requires k < |items|
  {
    items[k].branchId in books && Unfinished(items[k], books[items[k].branchId])
  }

  /** The batch's own Branches are bookkept in some state, every other Branch as it was. */
  ghost predicate Unsettled(before: map<string, Book>, after: map<string, Book>, items: seq<Prepared>) {
    && after.Keys == before.Keys
    && (forall k | 0 <= k < |items| :: UnfinishedAt(after, items, k))
    && (forall b <- before | !Named(items, |items|, b) :: after[b] == before[b])
  }

  /** Decisions of other Branches stand. */
  ghost predicate OthersDecided(before: map<string, string>, after: map<string, string>, items: seq<Prepared>) {
    && before.Keys <= after.Keys && (forall b <- before :: after[b] == before[b])
    && (forall b <- after :: b in before || Named(items, |items|, b))
  }

  lemma NamedLater(items: seq<Prepared>, n: nat, b: string)
    requires n <= |items| && Named(items, n, b)
    ensures Named(items, |items|, b)
  {
  }

  /** A batch to be given up. */
  ghost predicate GivesUp(c: Coord, t: Coord, items: seq<Prepared>) {
    Unsettled(c.books, t.books, items) && OthersDecided(c.current, t.current, items)
  }

  lemma PublishedIsUnsettled(c: Coord, items: seq<Prepared>)
    requires Published(c, items)
    ensures GivesUp(c, c, items)
  {
  }

  lemma SettledIsUnsettled(c: Coord, now: map<string, Book>, items: seq<Prepared>, answers: seq<Answer>, n: nat)
    requires n <= |items| == |answers| && Published(c, items)
    requires Settled(c.books, now, items, EntriesAfter(items, answers), n)
    ensures Unsettled(c.books, now, items)
  {
    forall k | 0 <= k < |items| ensures UnfinishedAt(now, items, k) {
      if k < n { assert now[items[k].branchId] == EntriesAfter(items, answers)[k]; }
      else { NotYetNamed(items, n, k); }
    }
    forall b <- c.books | !Named(items, |items|, b) ensures now[b] == c.books[b] {
      if Named(items, n, b) { NamedLater(items, n, b); }
    }
  }

  lemma StaysUnsettled(before: map<string, Book>, now: map<string, Book>, items: seq<Prepared>, n: nat, entry: Book)
    requires n < |items| && Unsettled(before, now, items) && Unfinished(items[n], entry)
    requires DistinctIds(items)
    ensures Unsettled(before, now[items[n].branchId := entry], items)
  {
    var after := now[items[n].branchId := entry];
    assert UnfinishedAt(now, items, n);
    forall k | 0 <= k < |items| ensures UnfinishedAt(after, items, k) {
      assert UnfinishedAt(now, items, k);
    }
    forall b <- before | !Named(items, |items|, b) ensures after[b] == before[b] {
      assert items[n].branchId != b;
    }
  }

  lemma OneMoreDecided(before: map<string, string>, now: map<string, string>, items: seq<Prepared>,
      answers: seq<Answer>, decisions: seq<string>, n: nat)
    requires n < |items| == |answers| == |decisions| && Decided(before, now, items, answers, decisions, n)
    requires items[n].branchId !in before
    ensures OthersDecided(before, now, items) && OthersDecided(before, now[items[n].branchId := decisions[n]], items)
  {
    forall b <- now ensures b in before || Named(items, |items|, b) {
      if Named(items, n, b) { NamedLater(items, n, b); }
    }
    assert Named(items, |items|, items[n].branchId);
  }

  /** The result that raises leaves a batch to be given up. */
  lemma RaisingIsUnsettled(c: Coord, u: Coord, t: Coord, replies: map<string, Reply>, items: seq<Prepared>,
      answers: seq<Answer>, decisions: seq<string>, n: nat, early: bool)
    requires n < |items| == |answers| == |decisions| && Published(c, items) && items[n].branchId in u.books
    requires Finalized(c, u, replies, items, answers, decisions, n)
    requires if early then Marked(u, t, items[n]) else Opening(u, t, items[n], decisions[n])
    ensures GivesUp(c, t, items)
  {
    SettledIsUnsettled(c, u.books, items, answers, n);
    StaysUnsettled(c.books, u.books, items, n, Tombstone(items[n], Faulted));
    OneMoreDecided(c.current, u.current, items, answers, decisions, n);
  }

  /** The first `n` Branches are retired, nothing else has moved. */
  ghost predicate Retiring(c: Coord, t: Coord, items: seq<Prepared>, status: Status, n: nat)
    requires n <= |items|
  {
    && StaysCoherent(c, t) && t.current == c.current
    && Settled(c.books, t.books, items, Tombstones(items, status), n)
  }

  ghost predicate Retirable(c: Coord, items: seq<Prepared>, status: Status) {
    && (status == Faulted || status == Released) && DistinctIds(items)
    && (forall k | 0 <= k < |items| :: UnfinishedAt(c.books, items, k))
  }

  lemma RetiresOneMore(c: Coord, u: Coord, items: seq<Prepared>, status: Status, n: nat)
    requires n < |items| && Retirable(c, items, status) && Retiring(c, u, items, status, n)
    ensures items[n].branchId in u.books
    ensures Retiring(c, Retire(u, items[n].branchId, status), items, status, n + 1)
  {
    var id := items[n].branchId;
    NotYetNamed(items, n, n);
    assert UnfinishedAt(c.books, items, n) && u.books[id] == c.books[id];
    RetireKeepsCoherent(u, id, status);
    assert Retire(u, id, status).books == u.books[id := Tombstones(items, status)[n]];
    SettlesOneMore(c.books, u.books, items, Tombstones(items, status), n);
  }

  /** Giving the batch up forgets how far it had got. */
  lemma GivenUpSince(before: map<string, Book>, mid: map<string, Book>, after: map<string, Book>, items: seq<Prepared>)
    requires Unsettled(before, mid, items)
    requires Settled(mid, after, items, Tombstones(items, Released), |items|)
    ensures Settled(before, after, items, Tombstones(items, Released), |items|)
  {
  }

  /** All Branches of the batch are released, everything else is as it was. */
  ghost predicate GivenUp(c: Coord, t: Coord, items: seq<Prepared>) {
    && Settled(c.books, t.books, items, Tombstones(items, Released), |items|)
    && OthersDecided(c.current, t.current, items)
  }

  /** What the arrivals have in store for each of `n` Branches. */
  function InStore(now: Moment, script: seq<WorkerPool.Arrival>, n: nat): (answers: seq<Answer>)
    requires now.slots != []
    ensures |answers| == n
  {
    OwnAnswers(script, now.requestId, now.generations, Targets(n, now.leases, now.slots, now.next))
  }

  /** How a dispatched batch can end. */
  ghost predicate Dispatched(c: Coord, t: Coord, items: seq<Prepared>, call: PoolCall, now: Moment,
      finishes: seq<Finish>, r: Option<map<string, Reply>>)
    requires now.slots != [] && |finishes| == |items|
  {
    match call
    case TimesOut =>
      && r.Some? && (forall p <- items :: p.branchId in r.value && r.value[p.branchId] == NoResult)
      && Settled(c.books, t.books, items, Tombstones(items, Faulted), |items|) && t.current == c.current
    case Raises => GivenUp(c, t, items) && r.None?
    case Returns(script) =>
      var answers := InStore(now, script, |items|);
      if NothingRaises(answers, finishes) then
        r.Some? && Finalized(c, t, r.value, items, answers, DecisionIds(items, answers, now.decision), |items|)
      else
        GivenUp(c, t, items) && r.None?
  }

  lemma NextIsPublished(c: Coord, u: Coord, replies: map<string, Reply>, items: seq<Prepared>, answers: seq<Answer>,
      decisions: seq<string>, n: nat)
    requires n < |items| == |answers| == |decisions| && Published(c, items)
    requires Finalized(c, u, replies, items, answers, decisions, n)
    ensures items[n].branchId in u.books && u.books[items[n].branchId] == BookOf(items[n])
  {
    NotYetNamed(items, n, n);
  }

  /** The next result, seen from the state it finds. */
  lemma NextResult(c: Coord, u: Coord, t: Coord, replies: map<string, Reply>, items: seq<Prepared>,
      answers: seq<Answer>, decisions: seq<string>, n: nat, finish: Finish)
    requires n < |items| == |answers| == |decisions| && Published(c, items)
    requires Finalized(c, u, replies, items, answers, decisions, n)
    requires Taken(u, t, items[n], answers[n], finish, decisions[n])
    ensures if answers[n].Success? && !finish.Opens? then GivesUp(c, t, items)
            else GoesOn(c, t, replies, items, answers, decisions, n)
  {
    NextIsPublished(c, u, replies, items, answers, decisions, n);
    if answers[n].Success? && !finish.Opens? {
      RaisingIsUnsettled(c, u, t, replies, items, answers, decisions, n, finish.RaisesBefore?);
    } else {
      FinalizesOneMore(c, u, t, replies, items, answers, decisions, n);
    }
  }

  /** Everything that holds between two results. */
  ghost predicate Ongoing(c: Coord, t: Coord, counter: nat, replies: map<string, Reply>, items: seq<Prepared>,
      answers: seq<Answer>, finishes: seq<Finish>, decisions: seq<string>, start: nat, n: nat)
    requires n <= |items| == |answers| == |finishes| == |decisions|
  {
    && StaysCoherent(c, t) && Finalized(c, t, replies, items, answers, decisions, n)
    && InStep(counter, start, answers, finishes, n)
  }

  lemma NothingYet(c: Coord, items: seq<Prepared>, answers: seq<Answer>, finishes: seq<Finish>,
      decisions: seq<string>, start: nat)
    requires |items| == |answers| == |finishes| == |decisions| && Coherent(c)
    ensures Ongoing(c, c, start, map[], items, answers, finishes, decisions, start, 0)
  {
    NothingFinalized(c, items, answers, decisions);
  }

  lemma AllDone(c: Coord, t: Coord, counter: nat, replies: map<string, Reply>, items: seq<Prepared>,
      answers: seq<Answer>, finishes: seq<Finish>, decisions: seq<string>, start: nat)
    requires |items| == |answers| == |finishes| == |decisions|
    requires Ongoing(c, t, counter, replies, items, answers, finishes, decisions, start, |items|)
    ensures StaysCoherent(c, t) && Finalized(c, t, replies, items, answers, decisions, |items|)
    ensures NothingRaises(answers, finishes)
  {
    NoneRaised(counter, start, answers, finishes);
  }

  lemma NextIsWaiting(c: Coord, u: Coord, counter: nat, replies: map<string, Reply>, items: seq<Prepared>,
      answers: seq<Answer>, finishes: seq<Finish>, decisions: seq<string>, start: nat, n: nat)
    requires n < |items| == |answers| == |finishes| == |decisions| && Published(c, items)
    requires Ongoing(c, u, counter, replies, items, answers, finishes, decisions, start, n)
    ensures Coherent(u) && items[n].branchId in u.books && u.books[items[n].branchId] == BookOf(items[n])
  {
    NextIsPublished(c, u, replies, items, answers, decisions, n);
  }

  lemma NextNumber(decisions: seq<string>, items: seq<Prepared>, answers: seq<Answer>, finishes: seq<Finish>,
      start: nat, name: (string, nat) -> string, n: nat, counter: nat)
    requires n < |items| == |answers| == |finishes| == |decisions|
    requires Numbered(decisions, items, answers, start, name) && InStep(counter, start, answers, finishes, n)
    ensures decisions[n] == name(items[n].branchId, counter)
  {
  }

  lemma StepsOn(counter: nat, start: nat, answers: seq<Answer>, finishes: seq<Finish>, n: nat)
    requires n < |answers| == |finishes| && InStep(counter, start, answers, finishes, n)
    requires answers[n].Success? ==> finishes[n].Opens?
    ensures InStep(counter + if answers[n].Success? then 1 else 0, start, answers, finishes, n + 1)
  {
  }

  lemma OngoingGoesOn(c: Coord, u: Coord, t: Coord, counter: nat, after: nat, replies: map<string, Reply>,
      longer: map<string, Reply>, items: seq<Prepared>, answers: seq<Answer>, finishes: seq<Finish>,
      decisions: seq<string>, start: nat, n: nat)
    requires n < |items| == |answers| == |finishes| == |decisions|
    requires Ongoing(c, u, counter, replies, items, answers, finishes, decisions, start, n)
    requires StaysCoherent(u, t) && Finalized(c, t, longer, items, answers, decisions, n + 1)
    requires InStep(after, start, answers, finishes, n + 1)
    ensures Ongoing(c, t, after, longer, items, answers, finishes, decisions, start, n + 1)
  {
  }

  // ---- The request -----------------------------------------------------------------------------------

  class BeamInstance {
    const coordinator: EventCoordinator
    const pool: WorkerPool.WholeRunWorkerPool
    const leases: WorkerPool.LeaseRegistry

    constructor (coordinator: EventCoordinator, pool: WorkerPool.WholeRunWorkerPool, leases: WorkerPool.LeaseRegistry)
      ensures this.coordinator == coordinator && this.pool == pool && this.leases == leases
    {
      this.coordinator, this.pool, this.leases := coordinator, pool, leases;
    }

    ghost function Now(): Moment
      reads this, coordinator.decisionPoints, pool, leases
    {
      Moment(pool.nextRequestId, pool.generations, leases.leases, pool.branchSlots, pool.nextBootstrapIndex,
             coordinator.decisionPoints.counter)
    }

    /** `_finalize_event_branch`; `None` is the raise. */
    method FinalizeEventBranch(p: Prepared, answer: Answer, finish: Finish) returns (reply: Option<Reply>)
      requires p.branchId in coordinator.bookkeeping
      modifies coordinator`bookkeeping, coordinator.registry, coordinator.decisionPoints
      ensures var decision := TextIds.DecisionId(p.branchId, old(coordinator.decisionPoints.counter));
              && coordinator.Abs() == FinalizedOne(old(coordinator.Abs()), p, answer, finish, decision)
              && reply == if answer.Success? && !finish.Opens? then None else Some(ReplyTo(answer, decision))
      ensures coordinator.decisionPoints.counter == old(coordinator.decisionPoints.counter)
              + if answer.Success? && !finish.RaisesBefore? then 1 else 0
    {
      if answer.Fault? {
        coordinator.RetireBranch(p.branchId, Faulted);
        return Some(Failed(answer));
      }
      if finish.RaisesBefore? {
        coordinator.RetireBranch(p.branchId, Faulted);
        return None;
      }
      var id := coordinator.decisionPoints.Issue(p.branchId);
      reply := if finish.Opens? then Some(Opened(id, answer)) else None;
    }

    /** One result of the batch, in order. */
    method FinalizeNext(items: seq<Prepared>, answers: seq<Answer>, finishes: seq<Finish>, n: nat,
        replies: map<string, Reply>, ghost c: Coord, ghost decisions: seq<string>, ghost start: nat)
      returns (ok: bool, longer: map<string, Reply>)
      requires n < |items| == |answers| == |finishes| == |decisions| && Published(c, items)
      requires Numbered(decisions, items, answers, start, TextIds.DecisionId)
      requires Ongoing(c, coordinator.Abs(), coordinator.decisionPoints.counter, replies, items, answers, finishes,
                       decisions, start, n)
      modifies coordinator`bookkeeping, coordinator.registry, coordinator.decisionPoints
      ensures ok ==> Ongoing(c, coordinator.Abs(), coordinator.decisionPoints.counter, longer, items, answers,
                             finishes, decisions, start, n + 1)
      ensures !ok ==> GivesUp(c, coordinator.Abs(), items) && StaysCoherent(c, coordinator.Abs())
      ensures !ok ==> !NothingRaises(answers, finishes)
    {
      ghost var u, counter := coordinator.Abs(), coordinator.decisionPoints.counter;
      NextIsWaiting(c, u, counter, replies, items, answers, finishes, decisions, start, n);
      NextNumber(decisions, items, answers, finishes, start, TextIds.DecisionId, n, counter);
      FinalizedOneIs(u, items[n], answers[n], finishes[n], decisions[n]);
      var reply := FinalizeEventBranch(items[n], answers[n], finishes[n]);
      NextResult(c, u, coordinator.Abs(), replies, items, answers, decisions, n, finishes[n]);
      if reply.None? { return false, replies; }
      ok, longer := true, replies[items[n].branchId := reply.value];
      StepsOn(counter, start, answers, finishes, n);
      OngoingGoesOn(c, u, coordinator.Abs(), counter, coordinator.decisionPoints.counter, replies, longer, items,
                    answers, finishes, decisions, start, n);
    }

    /** `zip(prepared, results)`; `None` is the raise of one of them. */
    method FinalizeAll(items: seq<Prepared>, answers: seq<Answer>, finishes: seq<Finish>, ghost c: Coord,
        ghost decisions: seq<string>)
      returns (r: Option<map<string, Reply>>)
      requires |items| == |answers| == |finishes| == |decisions|
      requires coordinator.Abs() == c && Coherent(c) && Published(c, items)
      requires Numbered(decisions, items, answers, coordinator.decisionPoints.counter, TextIds.DecisionId)
      modifies coordinator`bookkeeping, coordinator.registry, coordinator.decisionPoints
      ensures StaysCoherent(c, coordinator.Abs()) && (r.Some? <==> NothingRaises(answers, finishes))
      ensures r.Some? ==> Finalized(c, coordinator.Abs(), r.value, items, answers, decisions, |items|)
      ensures r.None? ==> GivesUp(c, coordinator.Abs(), items)
    {
      ghost var start := coordinator.decisionPoints.counter;
      var replies: map<string, Reply> := map[];
      NothingYet(c, items, answers, finishes, decisions, start);
      for n := 0 to |items|
        invariant Ongoing(c, coordinator.Abs(), coordinator.decisionPoints.counter, replies, items, answers, finishes,
                          decisions, start, n)
      {
        var ok;
        ok, replies := FinalizeNext(items, answers, finishes, n, replies, c, decisions, start);
        if !ok { return None; }
      }
      AllDone(c, coordinator.Abs(), coordinator.decisionPoints.counter, replies, items, answers, finishes, decisions,
              start);
      r := Some(replies);
    }

    /** The batch as a whole is faulted or released, one Branch after the other. */
    method RetirePrepared(items: seq<Prepared>, status: Status, ghost c: Coord)
      requires coordinator.Abs() == c && Coherent(c) && Retirable(c, items, status)
      modifies coordinator`bookkeeping, coordinator.registry
      ensures Retiring(c, coordinator.Abs(), items, status, |items|)
    {
      for n := 0 to |items|
        invariant Retiring(c, coordinator.Abs(), items, status, n)
      {
        RetireNext(items, status, n, c);
      }
    }

    method RetireNext(items: seq<Prepared>, status: Status, n: nat, ghost c: Coord)
      requires n < |items| && Retirable(c, items, status) && Retiring(c, coordinator.Abs(), items, status, n)
      modifies coordinator`bookkeeping, coordinator.registry
      ensures Retiring(c, coordinator.Abs(), items, status, n + 1)
    {
      RetiresOneMore(c, coordinator.Abs(), items, status, n);
      coordinator.RetireBranch(items[n].branchId, status);
    }

    /** The k-th answer is the k-th Branch's own. */
    method AskPool(items: seq<Prepared>, contexts: seq<string>, script: seq<WorkerPool.Arrival>)
      returns (answers: seq<Answer>)
      requires |contexts| == |items| && PositiveRng(items) && DistinctIds(items)
      requires pool.Valid() && WorkerPool.Filed(leases.leases)
      modifies pool, leases
      ensures pool.Valid() && WorkerPool.Filed(leases.leases)
      ensures answers == InStore(old(Now()), script, |items|)
    {
      ghost var ls, slots := leases.leases, pool.branchSlots;
      ghost var before := WorkerPool.Counters(pool.generations, pool.nextBootstrapIndex, pool.nextRequestId);
      var work := WorkItems(items, contexts);
      var r := pool.DispatchChoiceWorkItems(work, leases, map[], script);
      EachBranchIsAnswered(
        items, contexts, ls, slots, before, script, r,
        WorkerPool.Counters(pool.generations, pool.nextBootstrapIndex, pool.nextRequestId), leases.leases);
      answers := r.value;
    }

    /** `_best_effort_release_prepared`. */
    method GiveUp(items: seq<Prepared>, ghost c: Coord)
      requires StaysCoherent(c, coordinator.Abs()) && DistinctIds(items)
      requires GivesUp(c, coordinator.Abs(), items)
      modifies coordinator`bookkeeping, coordinator.registry
      ensures StaysCoherent(c, coordinator.Abs()) && GivenUp(c, coordinator.Abs(), items)
    {
      ghost var mid := coordinator.Abs();
      RetirePrepared(items, Released, mid);
      GivenUpSince(c.books, mid.books, coordinator.bookkeeping, items);
    }

    /**
     From the published Branches to the reply.  The pool cannot refuse sub-branch work, so a call that
     returns has one answer for each of them.
     */
    method DispatchPreparedBatch(items: seq<Prepared>, contexts: seq<string>, call: PoolCall, finishes: seq<Finish>)
      returns (r: Option<map<string, Reply>>)
      requires |contexts| == |items| == |finishes| && PositiveRng(items)
      requires Coherent(coordinator.Abs()) && Published(coordinator.Abs(), items)
      requires pool.Valid() && WorkerPool.Filed(leases.leases)
      modifies coordinator`bookkeeping, coordinator.registry, coordinator.decisionPoints, pool, leases
      ensures pool.Valid() && WorkerPool.Filed(leases.leases)
      ensures StaysCoherent(old(coordinator.Abs()), coordinator.Abs())
      ensures Dispatched(old(coordinator.Abs()), coordinator.Abs(), items, call, old(Now()), finishes, r)
    {
      ghost var c := coordinator.Abs();
      match call
      case TimesOut =>
        PublishedIsUnsettled(c, items);
        RetirePrepared(items, Faulted, c);
        var ids := set p <- items :: p.branchId;
        r := Some(map b | b in ids :: NoResult);
      case Raises =>
        PublishedIsUnsettled(c, items);
        GiveUp(items, c);
        r := None;
      case Returns(script) =>
        var answers := AskPool(items, contexts, script);
        ghost var decisions := DecisionIds(items, answers, coordinator.decisionPoints.counter);
        r := FinalizeAll(items, answers, finishes, c, decisions);
        if r.None? { GiveUp(items, c); }
    }

    /**
     The whole request.  A commit that fails leaves no trace; otherwise the Branches are published and
     come to what the answers to their own requests say.
     */
    method EmulateEvents(items: seq<Prepared>, contexts: seq<string>, faults: seq<Fault>, call: PoolCall,
        finishes: seq<Finish>)
      returns (r: Option<map<string, Reply>>)
      requires |contexts| == |faults| == |finishes| == |items| && PositiveRng(items)
      requires Coherent(coordinator.Abs()) && Fresh(coordinator.Abs(), items)
      requires pool.Valid() && WorkerPool.Filed(leases.leases)
      modifies coordinator`bookkeeping, coordinator.branchIds, coordinator.registry, coordinator.decisionPoints
      modifies pool, leases
      ensures pool.Valid() && WorkerPool.Filed(leases.leases) && Coherent(coordinator.Abs())
      ensures if !AllCommit(old(coordinator.Abs()), items, faults, |items|)
              then r.None? && coordinator.Abs() == old(coordinator.Abs())
              else Dispatched(PublishAll(old(coordinator.Abs()), items), coordinator.Abs(), items, call, old(Now()),
                              finishes, r)
    {
      ghost var c := coordinator.Abs();
      var ok := coordinator.CommitBatch(items, faults);
      if !ok { return None; }
      BatchIsPublished(c, items, faults);
      assert Now() == old(Now());
      r := DispatchPreparedBatch(items, contexts, call, finishes);
    }
  }

  // ---- What a batch leaves behind --------------------------------------------------------------------

  /** After a batch that went through: usable with its plan on a success of its own, otherwise faulted without. */
  lemma HoldsIffAnswered(c: Coord, t: Coord, items: seq<Prepared>, answers: seq<Answer>, k: nat)
    requires k < |items| == |answers|
    requires Settled(PublishAll(c, items).books, t.books, items, EntriesAfter(items, answers), |items|)
    ensures items[k].branchId in t.books
    ensures var p := items[k];
            t.books[p.branchId] == if answers[k].Success? then Book(p.parent, p.rngId, Some(p.plan), Completed)
                                   else Book(p.parent, p.rngId, None, Faulted)
    ensures Holds(t.books[items[k].branchId], items[k].plan.key) <==> answers[k].Success?
  {
    assert t.books[items[k].branchId] == EntriesAfter(items, answers)[k];
  }

  /** A batch that is given up leaves all its Branches released, wherever it had got to. */
  lemma GivenUpAreReleased(c: Coord, t: Coord, items: seq<Prepared>, k: nat)
    requires k < |items| && GivenUp(c, t, items)
    ensures items[k].branchId in t.books
    ensures t.books[items[k].branchId] == Book(items[k].parent, items[k].rngId, None, Released)
  {
    assert t.books[items[k].branchId] == Tombstones(items, Released)[k];
  }

  /** What the client is told of Branch `k`: its own decision and answer, or its own failure. */
  lemma RepliesAreOwn(c: Coord, t: Coord, replies: map<string, Reply>, items: seq<Prepared>, answers: seq<Answer>,
      decisions: seq<string>, k: nat)
    requires k < |items| == |answers| == |decisions|
    requires Finalized(c, t, replies, items, answers, decisions, |items|)
    ensures items[k].branchId in replies
    ensures if answers[k].Success? then
              && replies[items[k].branchId] == Opened(decisions[k], answers[k])
              && items[k].branchId in t.current && t.current[items[k].branchId] == decisions[k]
            else replies[items[k].branchId] == Failed(answers[k]) && items[k].branchId !in t.current
  {
    assert RepliedAt(replies, items, answers, decisions, k) && DecidedAt(t.current, items, answers, decisions, k);
  }

  /** Some Branch holds the hypothesis. */
  ghost predicate Held(books: map<string, Book>, key: RngKey) {
    exists b :: b in books && Holds(books[b], key)
  }

  ghost predicate SomeAnswered(items: seq<Prepared>, answers: seq<Answer>, key: RngKey)
    requires |items| == |answers|
  {
    exists k :: 0 <= k < |items| && items[k].plan.key == key && answers[k].Success?
  }

  lemma HeldIffAnswered(c: Coord, t: Coord, items: seq<Prepared>, answers: seq<Answer>, key: RngKey)
    requires |items| == |answers|
    requires Settled(PublishAll(c, items).books, t.books, items, EntriesAfter(items, answers), |items|)
    requires PublishAll(c, items).books.Keys == c.books.Keys + BranchIds(items)
    requires forall b <- c.books :: b in t.books && t.books[b] == c.books[b]
    ensures Held(t.books, key) <==> Held(c.books, key) || SomeAnswered(items, answers, key)
  {
    if b :| b in t.books && Holds(t.books[b], key) && b !in c.books {
      var k :| 0 <= k < |items| && items[k].branchId == b;
      HoldsIffAnswered(c, t, items, answers, k);
      assert t.books[b] == EntriesAfter(items, answers)[k];
    }
    if b :| b in c.books && Holds(c.books[b], key) {
      assert b in t.books && Holds(t.books[b], key);
    }
    if k :| 0 <= k < |items| && items[k].plan.key == key && answers[k].Success? {
      HoldsIffAnswered(c, t, items, answers, k);
    }
  }

  lemma LiveIffHeldNow(c: Coord, key: RngKey)
    requires Coherent(c)
    ensures key in c.reg.entries <==> Held(c.books, key)
  {
    LiveIffSomeBranchCarriesIt(c, [], key);
  }

  lemma OlderStay(c: Coord, t: Coord, items: seq<Prepared>, entries: seq<Book>)
    requires |entries| == |items| && c.books.Keys !! BranchIds(items)
    requires Settled(PublishAll(c, items).books, t.books, items, entries, |items|)
    ensures forall b <- c.books :: b in t.books && t.books[b] == c.books[b]
  {
    OlderBooksStay(c, items);
    forall k | 0 <= k < |items| ensures items[k].branchId !in c.books {
      assert items[k] in items && items[k].branchId in BranchIds(items);
    }
  }

  /**
   A hypothesis is live after such a batch exactly if it was live before, or a Branch of the batch that
   shares it got a success as the answer to its own request.
   */
  lemma SurvivesIffAnswered(c: Coord, t: Coord, items: seq<Prepared>, faults: seq<Fault>, answers: seq<Answer>,
      key: RngKey)
    requires Coherent(c) && Fresh(c, items) && |items| == |answers| == |faults|
    requires AllCommit(c, items, faults, |items|) && StaysCoherent(PublishAll(c, items), t)
    requires Settled(PublishAll(c, items).books, t.books, items, EntriesAfter(items, answers), |items|)
    ensures key in t.reg.entries <==> key in c.reg.entries || SomeAnswered(items, answers, key)
  {
    LiveIffHeldNow(c, key);
    LiveIffHeldNow(t, key);
    OlderBooksStay(c, items);
    OlderStay(c, t, items, EntriesAfter(items, answers));
    HeldIffAnswered(c, t, items, answers, key);
  }
}
