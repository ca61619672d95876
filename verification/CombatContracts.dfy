/**
 What each combat operation of a whole-run instance comes to, said of its dictionaries alone
 (API/instance_whole_run.py).

 `Transition` is a relation built from functions; the lemmas here restate it for a caller: which batches
 are refused, what a published Branch looks like, what a request leaves of the Branches it names, what a
 commit decides.
 */
module CombatContracts {
  import opened Wrappers
  import opened Identifiers
  import opened PhaseRecords
  import opened CombatBranches
  import TextIds

  // ---- Which batches are refused ---------------------------------------------------------------------

  /** The parent cannot be extended, or not by this item. */
  predicate BadParent(s: State, it: Item, rootBranchable: bool) {
    if it.parent == ROOT_BRANCH_ID then !rootBranchable
    else
      || it.parent !in s.books
      || s.books[it.parent].status in {Cancelled, Released, Faulted}
      || s.books[it.parent].terminal
      || s.books[it.parent].view != CombatView(true)
      || s.books[it.parent].rngId != it.rngId
  }

  /** The decision named is not the parent's current one. */
  predicate Stale(s: State, it: Item) {
    it.parent !in s.current || s.current[it.parent] != it.decision
  }

  /** Two items of the batch share an id. */
  predicate SharesId(items: seq<Item>, k: nat)
    requires k < |items|
  {
    exists j | 0 <= j < |items| && j != k :: items[j].branch == items[k].branch
  }

  /** Its parent is a Branch of the same batch. */
  predicate BelowItself(items: seq<Item>, k: nat)
    requires k < |items|
  {
    exists j | 0 <= j < |items| :: items[j].branch == items[k].parent
  }

  /** Something is wrong with item `k`. */
  predicate Objectionable(s: State, items: seq<Item>, k: nat, rootBranchable: bool)
    requires k < |items|
  {
    || items[k].branch in s.used
    || SharesId(items, k)
    || BelowItself(items, k)
    || BadParent(s, items[k], rootBranchable)
    || Stale(s, items[k])
    || !items[k].actionOffered
  }

  /** No fight, no room, nothing to do, or one item that is not in order. */
  predicate Refused(s: State, items: seq<Item>, rootBranchable: bool) {
    || s.faulted
    || s.phase.None?
    || items == []
    || |s.reserved| + |items| > s.maxBranches
    || exists k | 0 <= k < |items| :: Objectionable(s, items, k, rootBranchable)
  }

  lemma OkIsNotObjectionable(s: State, items: seq<Item>, rootBranchable: bool, k: nat)
    requires WellFormed(s) && k < |items| && forall j | 0 <= j < |items| :: ItemOk(s, items, j, rootBranchable)
    ensures !Objectionable(s, items, k, rootBranchable)
  {
    assert ItemOk(s, items, k, rootBranchable);
    forall j | 0 <= j < |items|
      ensures items[j].branch != items[k].parent && (j != k ==> items[j].branch != items[k].branch)
    {
      assert ItemOk(s, items, j, rootBranchable);
    }
  }

  lemma NotObjectionableIsOk(s: State, items: seq<Item>, rootBranchable: bool, k: nat)
    requires s.phase.Some? && k < |items| && !Objectionable(s, items, k, rootBranchable)
    ensures ItemOk(s, items, k, rootBranchable)
  {
  }

  lemma AdmissibleIffNotRefused(s: State, items: seq<Item>, rootBranchable: bool)
    requires WellFormed(s)
    ensures Admissible(s, items, rootBranchable) <==> !Refused(s, items, rootBranchable)
  {
    if Admissible(s, items, rootBranchable) {
      forall k | 0 <= k < |items| ensures !Objectionable(s, items, k, rootBranchable) {
        OkIsNotObjectionable(s, items, rootBranchable, k);
      }
    } else if !Refused(s, items, rootBranchable) {
      forall k | 0 <= k < |items| ensures ItemOk(s, items, k, rootBranchable) {
        NotObjectionableIsOk(s, items, rootBranchable, k);
      }
    }
  }

  /**
   One objection, to the batch or to any item of it, and the batch leaves the whole state as it was; a
   batch nothing is objected to is never refused: it is published or unwound.
   */
  lemma BatchIsRefusedIff(s: State, items: seq<Item>, c: Script, t: State)
    requires WellFormed(s) && BatchStep(s, items, c, t)
    ensures Refused(s, items, c.rootBranchable) ==> t == s
    ensures !Refused(s, items, c.rootBranchable) ==>
              if Succeeds(Serial(s), items, c) then Published(s, t, items, c) else Unwound(s, items, c, t)
  {
    AdmissibleIffNotRefused(s, items, c.rootBranchable);
  }

  /** A decision the parent has moved on from is enough. */
  lemma StaleBatchChangesNothing(s: State, items: seq<Item>, c: Script, t: State, k: nat)
    requires WellFormed(s) && BatchStep(s, items, c, t) && k < |items|
    requires items[k].parent !in s.current || s.current[items[k].parent] != items[k].decision
    ensures t == s
  {
    assert Objectionable(s, items, k, c.rootBranchable);
    BatchIsRefusedIff(s, items, c, t);
  }

  // ---- What a published Branch looks like ------------------------------------------------------------

  /** Each item built, submitted, polled, and answered with something that can be shown. */
  lemma SucceedsIff(serial: nat, items: seq<Item>, c: Script)
    ensures Succeeds(serial, items, c) <==>
            && (c.build.BuildRaises? ==> c.build.at >= |items|)
            && c.submit == Submitted(|items|)
            && c.poll.Polled?
            && forall id <- NewIds(serial, |items|) :: Showable(c.poll.results, id)
  {
    SerialsAreNew(serial, |items|);
    assert forall id :: id in Serials(serial, |items|) <==> id in IdSet(Serials(serial, |items|));
  }

  predicate Showable(results: map<nat, Outcome>, id: nat) {
    && id in results
    && match results[id]
       case Failed => true
       case Unreadable => false
       case Next(_, raises) => !raises
       case Ended(known) => known
  }

  /** How many of the first `n` results are no faults. */
  function Decisions(serial: nat, results: map<nat, Outcome>, n: nat): nat {
    if n == 0 then 0
    else Decisions(serial, results, n - 1) + if serial + n in results && results[serial + n] == Failed then 0 else 1
  }

  lemma {:induction false} OpenedAreDecisions(serial: nat, results: map<nat, Outcome>, count: nat, n: nat)
    requires n <= count
    ensures Opened(Serials(serial, count), results, n) == Decisions(serial, results, n)
  {
    if n > 0 { OpenedAreDecisions(serial, results, count, n - 1); }
  }

  /** Bookkept under its own rng id and internal id, with the status, the end and the view its result says. */
  predicate Shows(b: Book, it: Item, id: nat, r: Outcome) {
    && b.rngId == it.rngId && b.internalId == Some(id)
    && b.status == (if r == Failed then Faulted else Completed)
    && (b.terminal <==> r.Ended?)
    && b.view == if r.Next? then CombatView(r.branchable) else NoView
  }

  lemma BookShows(it: Item, id: nat, r: Outcome)
    ensures Shows(BookOf(it, id, r), it, id, r)
  {
  }

  /** Its current decision is the one numbered `n`. */
  predicate Decides(current: map<string, string>, b: string, n: nat) {
    b in current && current[b] == TextIds.DecisionId(b, n)
  }

  lemma DecidedIs(current: map<string, string>, counter: nat, it: Item, ids: seq<nat>, results: map<nat, Outcome>,
      k: nat, id: nat, n: nat)
    requires k < |ids| && ids[k] == id && id in results && DecidedAt(current, counter, it, ids, results, k)
    requires n == counter + Opened(ids, results, k)
    ensures if results[id] == Failed then it.branch !in current else Decides(current, it.branch, n)
  {
  }

  /** What is known of item `k` of a published batch, with its internal id and its answer named. */
  lemma PublishedItem(s: State, items: seq<Item>, c: Script, t: State, k: nat, id: nat)
    requires Succeeds(Serial(s), items, c) && Published(s, t, items, c) && k < |items| && id == Serial(s) + 1 + k
    ensures id in c.poll.results
    ensures items[k].branch in t.books && t.books[items[k].branch] == BookOf(items[k], id, c.poll.results[id])
    ensures Answers(s, items, c, t, k, id)
  {
    var ids := Serials(Serial(s), |items|);
    assert ids[k] == id && ids[k] in ids;
    assert PublishedAt(t, s.counter, items[k], ids, c.poll.results, k);
  }

  predicate Answers(s: State, items: seq<Item>, c: Script, t: State, k: nat, id: nat)
    requires k < |items| && c.poll.Polled?
  {
    var ids := Serials(Serial(s), |items|);
    id in c.poll.results && ids[k] == id && DecidedAt(t.current, s.counter, items[k], ids, c.poll.results, k)
  }

  lemma DecisionAt(s: State, items: seq<Item>, c: Script, t: State, k: nat, id: nat, n: nat)
    requires k < |items| && c.poll.Polled? && Answers(s, items, c, t, k, id)
    requires n == s.counter + Opened(Serials(Serial(s), |items|), c.poll.results, k)
    ensures if c.poll.results[id] == Failed then items[k].branch !in t.current
            else Decides(t.current, items[k].branch, n)
  {
    DecidedIs(t.current, s.counter, items[k], Serials(Serial(s), |items|), c.poll.results, k, id, n);
  }

  /** Branch `k` of a published batch shows its own result under the k-th new internal id. */
  lemma PublishedShows(s: State, items: seq<Item>, c: Script, t: State, k: nat, id: nat)
    requires Succeeds(Serial(s), items, c) && Published(s, t, items, c) && k < |items| && id == Serial(s) + 1 + k
    ensures items[k].branch in t.books && id in c.poll.results
    ensures Shows(t.books[items[k].branch], items[k], id, c.poll.results[id])
  {
    PublishedItem(s, items, c, t, k, id);
    BookShows(items[k], id, c.poll.results[id]);
  }

  /** It gets the next free decision number, unless it failed. */
  lemma PublishedDecides(s: State, items: seq<Item>, c: Script, t: State, k: nat, id: nat, n: nat)
    requires Succeeds(Serial(s), items, c) && Published(s, t, items, c) && k < |items| && id == Serial(s) + 1 + k
    requires n == s.counter + Decisions(Serial(s), c.poll.results, k)
    ensures id in c.poll.results
    ensures if c.poll.results[id] == Failed then items[k].branch !in t.current
            else Decides(t.current, items[k].branch, n)
  {
    PublishedItem(s, items, c, t, k, id);
    OpenedAreDecisions(Serial(s), c.poll.results, |items|, k);
    DecisionAt(s, items, c, t, k, id, n);
  }

  /** Ids and reservations grow by the batch; older Branches and their decisions stand. */
  lemma PublishedBesideOthers(s: State, items: seq<Item>, c: Script, t: State)
    requires Succeeds(Serial(s), items, c) && Published(s, t, items, c)
    ensures t.used == s.used + Branches(items) && t.reserved == s.reserved + Branches(items)
    ensures t.books.Keys == s.books.Keys + Branches(items)
    ensures forall b <- s.books :: t.books[b] == s.books[b]
    ensures forall b <- s.current :: b in t.current && t.current[b] == s.current[b]
    ensures t.counter == s.counter + Decisions(Serial(s), c.poll.results, |items|)
  {
    forall k | 0 <= k < |items| ensures items[k].branch in t.books {
      PublishedItem(s, items, c, t, k, Serial(s) + 1 + k);
    }
    OpenedAreDecisions(Serial(s), c.poll.results, |items|, |items|);
  }

  /** Its hypothesis is on file under its own parent, decision and rng id. */
  lemma PublishedHasItsHypothesis(s: State, items: seq<Item>, c: Script, t: State, k: nat)
    requires Succeeds(Serial(s), items, c) && Published(s, t, items, c) && k < |items|
    ensures t.phase.Some? && RngKey(items[k].parent, items[k].decision, items[k].rngId) in t.phase.value.table.index
  {
    assert RngKeys(items)[k] == RngKey(items[k].parent, items[k].decision, items[k].rngId);
    AllocatedAreFiled(s.phase.value.table, RngKeys(items), k);
  }

  /** The record hangs below its parent's, and below all that is above the parent's, in the state of its result. */
  predicate HangsBelow(before: map<nat, Record>, after: map<nat, Record>, parent: Option<nat>, id: nat, r: Outcome) {
    && id in after && after[id].state == (if r == Failed then Faulted else Completed)
    && after[id].above == if parent.Some? && parent.value in before then {parent.value} + before[parent.value].above
                          else {}
  }

  lemma RecordHangs(p: PhaseState, q: PhaseState, parent: Option<nat>, id: nat, results: map<nat, Outcome>)
    requires RecordedAt(p, q, parent, id, results)
    ensures id in results && HangsBelow(p.records, q.records, parent, id, results[id])
  {
  }

  /** Its record is finished as its own result says, and hangs below its own parent's. */
  lemma PublishedHangsBelow(s: State, items: seq<Item>, t: State, results: map<nat, Outcome>, k: nat, id: nat)
    requires AllRecorded(s, t, items, results) && k < |items| && id == Serial(s) + 1 + k
    ensures id in results
    ensures HangsBelow(s.phase.value.records, t.phase.value.records,
                       if items[k].parent in s.books then s.books[items[k].parent].internalId else None, id,
                       results[id])
  {
    RecordHangs(s.phase.value, t.phase.value, ParentOf(s.books, items[k]), id, results);
  }

  lemma {:induction false} FiledStay(table: Table, keys: seq<RngKey>, key: RngKey)
    requires key in table.index
    ensures key in AllocateAll(table, keys).index && AllocateAll(table, keys).index[key] == table.index[key]
    decreases |keys|
  {
    if keys != [] { FiledStay(Allocate(table, keys[0]), keys[1..], key); }
  }

  lemma {:induction false} AllocatedAreFiled(table: Table, keys: seq<RngKey>, k: nat)
    requires k < |keys|
    ensures keys[k] in AllocateAll(table, keys).index
    decreases |keys|
  {
    if k == 0 {
      FiledStay(Allocate(table, keys[0]), keys[1..], keys[0]);
    } else {
      AllocatedAreFiled(Allocate(table, keys[0]), keys[1..], k - 1);
    }
  }

  // ---- What a failed batch leaves --------------------------------------------------------------------

  /** How many internal ids came back before the batch failed. */
  function CameBack(items: seq<Item>, c: Script): nat {
    if (c.build.BuildRaises? && c.build.at < |items|) || c.submit.SubmitRaises? then 0 else c.submit.count
  }

  /**
   A batch that fails after admission: if no internal id came back, or both clean-up calls return, nothing of it
   stays but spent decision numbers; otherwise its reservations stay, and the ids of those it had registered.
   */
  lemma FailedBatchLeaves(s: State, items: seq<Item>, c: Script, t: State)
    requires WellFormed(s) && !Refused(s, items, c.rootBranchable) && !Succeeds(Serial(s), items, c)
    requires BatchStep(s, items, c, t)
    ensures var n := CameBack(items, c);
            if n > 0 && (c.cancelRaises || c.release.raises) then
              && t.reserved == s.reserved + Branches(items)
              && t.used == s.used + Branches(items[..if n <= |items| then n else |items|])
            else
              && t.used == s.used && t.books == s.books && t.current == s.current
              && t.reserved == s.reserved - Branches(items) && t.faulted == s.faulted
              && t.phase.Some? && s.phase.Some? && t.phase.value.table == s.phase.value.table
  {
    BatchIsRefusedIff(s, items, c, t);
    assert HandedCount(items, c) == CameBack(items, c);
  }

  // ---- What a request leaves of the Branches it names ------------------------------------------------

  /** What a cancel or release that gets through makes of a Branch. */
  function Swept(b: Book, w: Sweep): Book {
    match w
    case Cancel =>
      if b.status == Cancelled || b.status == Released then b
      else Book(b.rngId, b.internalId, Cancelled, b.terminal, NoView)
    case Release =>
      if b.status == Released then b else Book(b.rngId, b.internalId, Released, b.terminal, NoView)
    case Query => b
  }

  /** Which ids a request gets through: up to the first that is the root, unknown, or whose phase call raises. */
  lemma ReachIs(s: State, w: Sweep, ids: seq<string>, raising: map<string, bool>, id: string)
    ensures Blocked(s, w, id, raising) <==>
            || id == ROOT_BRANCH_ID || id !in s.books
            || (&& s.books[id].internalId.Some? && s.books[id].status != Released
                && (w == Cancel ==> s.books[id].status != Cancelled)
                && (|| s.phase.None? || s.books[id].internalId.value !in s.phase.value.records
                    || id in raising))
  {
  }

  /** Combat Branches that have not been released are the ones with a reservation to give up. */
  predicate HoldsRoom(b: Book) {
    b.internalId.Some? && b.status != Released
  }

  /** What a status request makes of a Branch: the state of its record, unless it is released or no combat Branch. */
  function Asked(s: State, b: string): Book
    requires b in s.books
  {
    var k := s.books[b];
    if k.internalId.Some? && k.status != Released && s.phase.Some? && k.internalId.value in s.phase.value.records
    then k.(status := s.phase.value.records[k.internalId.value].state) else k
  }

  /** What a request makes of one Branch it gets through to. */
  function Treated(s: State, w: Sweep, b: string): Book
    requires b in s.books
  {
    if w.Query? then Asked(s, b) else Swept(s.books[b], w)
  }

  /**
   What becomes of Branch `b`: treated if the request got through to it, otherwise left alone.  Decisions and
   ids stay, and only a release frees the reservation.
   */
  predicate Leaves(s: State, t: State, w: Sweep, b: string, reached: bool)
    requires b in s.books
  {
    && t.used == s.used && t.current == s.current && t.counter == s.counter && t.books.Keys == s.books.Keys
    && t.books[b] == (if reached then Treated(s, w, b) else s.books[b])
    && (b in t.reserved <==> b in s.reserved && !(w.Release? && reached && HoldsRoom(s.books[b])))
  }

  lemma OneTreated(s: State, w: Sweep, id: string, b: string)
    requires id in s.books && b in s.books
    ensures Leaves(s, SweepOne(s, w, id), w, b, b == id)
  {
  }

  /** A second time makes no difference. */
  lemma TreatedAgain(s: State, w: Sweep, id: string, b: string, t: State, again: bool)
    requires id in s.books && b in s.books && b in SweepOne(s, w, id).books
    requires Leaves(SweepOne(s, w, id), t, w, b, again)
    ensures Leaves(s, t, w, b, b == id || again)
  {
    OneTreated(s, w, id, b);
  }

  /** A request reaches exactly the ids up to the first it cannot get through, whatever comes after that one. */
  lemma {:induction false} SweepDoes(s: State, w: Sweep, ids: seq<string>, raising: map<string, bool>, b: string)
    requires b in s.books
    ensures Leaves(s, SweepAll(s, w, ids, raising), w, b, b in ids[..Reach(s, w, ids, raising)])
    decreases |ids|
  {
    var n := Reach(s, w, ids, raising);
    if ids == [] || Blocked(s, w, ids[0], raising) {
      assert ids[..n] == [];
      NothingReached(s, w, ids, raising, b);
    } else {
      var u := SweepOne(s, w, ids[0]);
      ReachStays(s, w, ids[0], ids[1..], raising);
      OneTreated(s, w, ids[0], b);
      SweepDoes(u, w, ids[1..], raising, b);
      assert ids[..n] == [ids[0]] + ids[1..][..n - 1];
      TreatedAgain(s, w, ids[0], b, SweepAll(u, w, ids[1..], raising), b in ids[1..][..n - 1]);
    }
  }

  lemma NothingReached(s: State, w: Sweep, ids: seq<string>, raising: map<string, bool>, b: string)
    requires b in s.books && (ids == [] || Blocked(s, w, ids[0], raising))
    ensures Leaves(s, SweepAll(s, w, ids, raising), w, b, false)
  {
  }

  /** The whole request: a poisoned instance answers status requests only. */
  lemma RequestDoes(s: State, w: Sweep, ids: seq<string>, raising: map<string, bool>, t: State, b: string)
    requires Transition(s, SweepOp(w, ids, raising), t) && b in s.books
    ensures if s.faulted && !w.Query? then t == s
            else Leaves(s, t, w, b, b in ids[..Reach(s, w, ids, raising)])
  {
    SweepDoes(s, w, ids, raising, b);
  }

  /** At the phase a cancel reaches the record and all below it, a release only the record; released ones stay. */
  lemma RecordsAfter(s: State, w: Sweep, id: string, k: nat)
    requires id in s.books && s.phase.Some? && k in s.phase.value.records
    ensures var t, r := SweepOne(s, w, id), s.phase.value.records[k];
            var hit := NeedsPhase(s.books[id], w) && s.books[id].internalId.value in s.phase.value.records;
            && t.phase.Some? && k in t.phase.value.records && t.phase.value.records[k].above == r.above
            && t.phase.value.records[k].state ==
               if !hit then r.state
               else if w.Cancel? && (k == s.books[id].internalId.value || s.books[id].internalId.value in r.above)
                       && r.state != Released then Cancelled
               else if w.Release? && k == s.books[id].internalId.value then Released
               else r.state
  {
  }

  // ---- What a commit decides -------------------------------------------------------------------------

  /** Every Branch a tombstone, cancelled ones staying cancelled; none of them with a decision or a reservation. */
  predicate AllRetired(s: State, t: State) {
    && t.used == s.used && t.books.Keys == s.books.Keys
    && (forall b <- s.books ::
          t.books[b] == Book(s.books[b].rngId, s.books[b].internalId,
                             if s.books[b].status == Cancelled then Cancelled else Released, s.books[b].terminal,
                             NoView))
    && t.reserved == s.reserved - s.books.Keys
  }

  /** The root's next decision is out; the Branches' are gone. */
  predicate RootDecided(s: State, t: State) {
    && t.counter == s.counter + 1
    && t.current == (s.current - s.books.Keys)[ROOT_BRANCH_ID := TextIds.DecisionId(ROOT_BRANCH_ID, s.counter)]
  }

  /** Retiring raises exactly if a combat Branch is unreleased and the release cannot be made, or raises. */
  lemma RetireRaisesIff(s: State, call: ReleaseCall)
    ensures RetireRaises(s, call) <==>
            && (exists b <- s.books :: s.books[b].internalId.Some? && s.books[b].status != Released)
            && (|| s.phase.None? || call.raises
                || exists b <- s.books :: s.books[b].internalId.Some? && s.books[b].status != Released
                                         && s.books[b].internalId.value !in s.phase.value.records)
  {
    if b :| b in s.books && s.books[b].internalId.Some? && s.books[b].status != Released {
      assert b in Owed(s);
    }
    if Owed(s) != {} {
      var b :| b in Owed(s);
      assert s.books[b].internalId.Some? && s.books[b].status != Released;
    }
    if b :| b in s.books && s.books[b].internalId.Some? && s.books[b].status != Released
            && s.phase.Some? && s.books[b].internalId.value !in s.phase.value.records {
      assert b in Owed(s) && s.books[b].internalId.value in OwedIds(s);
    }
    if s.phase.Some? && !(OwedIds(s) <= s.phase.value.records.Keys) {
      var i :| i in OwedIds(s) && i !in s.phase.value.records;
      var b :| b in Owed(s) && s.books[b].internalId.value == i;
    }
  }

  /** A root commit outside combat retires every Branch and opens the next decision, up to the call that raises. */
  lemma RootCommitDoes(s: State, call: ReleaseCall, captureRaises: bool, t: State)
    requires Transition(s, RootCommit(call, captureRaises), t)
    ensures s.faulted || s.phase.Some? ==> t == s
    ensures !s.faulted && s.phase.None? ==>
              if RetireRaises(s, call) then t == s
              else
                && AllRetired(s, t) && !t.faulted && t.phase.None?
                && if captureRaises then t.current == s.current - s.books.Keys && t.counter == s.counter
                   else RootDecided(s, t)
  {
  }

  /** The run is over: the phase is gone, and either every Branch is retired or nothing else has changed. */
  predicate RunOver(s: State, t: State, retired: bool) {
    && t.faulted && t.phase.None? && t.counter == s.counter
    && if retired then AllRetired(s, t) && t.current == s.current - s.books.Keys
       else t.used == s.used && t.books == s.books && t.reserved == s.reserved && t.current == s.current
  }

  lemma PoisonedOver(s: State, again: ReleaseCall)
    requires s.phase.Some?
    ensures RunOver(s, Poisoned(s, again), !RetireRaises(s, again))
  {
  }

  /** A retirement that raised part-way leaves books and records as many as before; the next may still go through. */
  lemma RetriedOver(s: State, call: ReleaseCall, again: ReleaseCall)
    requires s.phase.Some? && RetireRaises(s, call)
    ensures RunOver(s, Poisoned(Retire(s, call), again), !RetireRaises(s, again))
  {
    var t := Retire(s, call);
    assert t.books == s.books && t.phase.Some? && t.phase.value.records.Keys == s.phase.value.records.Keys;
    RetireRaisesIff(s, again);
    RetireRaisesIff(t, again);
    PoisonedOver(t, again);
  }

  /** After a retirement that went through, poisoning finds nothing more to do to the Branches. */
  lemma RetiredOver(s: State, call: ReleaseCall, again: ReleaseCall, closed: bool)
    requires !RetireRaises(s, call)
    ensures var t := Retire(s, call);
            RunOver(s, Poisoned(if closed then t.(phase := None) else t, again), true)
  {
    var t := Retire(s, call);
    assert t.books.Keys == s.books.Keys;
    assert s.current - s.books.Keys - s.books.Keys == s.current - s.books.Keys;
    assert s.reserved - s.books.Keys - s.books.Keys == s.reserved - s.books.Keys;
  }

  /**
   A commit in a fight.  A step that did not advance the board changes nothing.  One that did either ends with
   every Branch retired and the next decision out, in the fight or after it, or the run is over; then the
   Branches are retired exactly if the commit's own retirement or the one while poisoning went through.
   */
  lemma CombatCommitDoes(s: State, c: CombatCommit, t: State)
    requires Transition(s, CommitInCombat(c), t)
    ensures s.faulted || s.phase.None? ==> t == s
    ensures !s.faulted && s.phase.Some? ==>
              match c
              case StepRaises(advanced, again) => if advanced then RunOver(s, t, !RetireRaises(s, again)) else t == s
              case Continues(call, publishRaises, again) =>
                if RetireRaises(s, call) || publishRaises
                then RunOver(s, t, !RetireRaises(s, call) || !RetireRaises(s, again))
                else AllRetired(s, t) && RootDecided(s, t) && t.phase.Some? && !t.faulted
              case Completes(beginRaises, call, closeRaises, laterRaises, again) =>
                if beginRaises || RetireRaises(s, call) || closeRaises || laterRaises
                then RunOver(s, t, (!beginRaises && !RetireRaises(s, call)) || !RetireRaises(s, again))
                else AllRetired(s, t) && RootDecided(s, t) && t.phase.None? && !t.faulted
  {
    if !s.faulted && s.phase.Some? {
      match c
      case StepRaises(advanced, again) => PoisonedOver(s, again);
      case Continues(call, publishRaises, again) =>
        if RetireRaises(s, call) { RetriedOver(s, call, again); } else { RetiredOver(s, call, again, false); }
      case Completes(beginRaises, call, closeRaises, laterRaises, again) =>
        PoisonedOver(s, again);
        if RetireRaises(s, call) { RetriedOver(s, call, again); }
        else { RetiredOver(s, call, again, !closeRaises); }
    }
  }

  /** A commit after which the fight goes on releases at the phase whatever a Branch still held, and nothing else. */
  lemma CommitReleasesAtThePhase(s: State, c: CombatCommit, t: State, k: nat)
    requires Transition(s, CommitInCombat(c), t) && c.Continues? && !s.faulted && s.phase.Some? && !t.faulted
    requires k in s.phase.value.records
    ensures t.phase.Some? && k in t.phase.value.records
    ensures var held := exists b <- s.books :: s.books[b].internalId == Some(k) && s.books[b].status != Released;
            t.phase.value.records[k] == if held then s.phase.value.records[k].(state := Released)
                                        else s.phase.value.records[k]
  {
    var owed := OwedIds(s);
    if k in owed {
      var b :| b in Owed(s) && s.books[b].internalId.value == k;
      assert s.books[b].internalId == Some(k) && s.books[b].status != Released;
    }
    if b :| b in s.books && s.books[b].internalId == Some(k) && s.books[b].status != Released {
      assert b in Owed(s) && s.books[b].internalId.value in owed;
    }
  }

  /** Entering a fight: given back, poisoned, or a phase without records, with the decision that was published. */
  lemma EntryDoes(s: State, e: Entry, t: State)
    requires Transition(s, EnterCombat(e), t)
    ensures s.faulted || s.phase.Some? ==> t == s
    ensures !s.faulted && s.phase.None? ==>
              match e
              case GivesBack(decided) => t == s.(counter := if decided then s.counter + 1 else s.counter)
              case Poisons =>
                && t.faulted && t.phase.None? && t.counter == s.counter + 1
                && t.books == s.books && t.reserved == s.reserved
              case Enters(call) =>
                && !t.faulted && t.counter == s.counter + 1
                && t.phase == Some(PhaseState(map[], 0, EMPTY_TABLE))
                && if exists b <- s.books :: s.books[b].internalId.Some? && s.books[b].status != Released
                   then t.books == s.books && t.reserved == s.reserved else AllRetired(s, t)
  {
    if e.Enters? && !s.faulted && s.phase.None? {
      var fight := Decide(s).(phase := Some(NEW_PHASE));
      RetireRaisesIff(fight, e.call);
      assert OwedIds(fight) == {} || Owed(fight) != {};
    }
  }
}
