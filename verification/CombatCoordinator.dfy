/**
 The whole-run instance's side of Combat Branches, taken step by step (API/instance_whole_run.py):
 admission, the batch with its clean-up, cancel, release and status, retirement, commits in combat and
 poisoning.  Each method is proved against what module CombatBranches says of the same operation.
 */
module CombatCoordinator {
  import opened Wrappers
  import opened Identifiers
  import opened PhaseRecords
  import opened CombatBranches
  import TextIds

  // ---- Finalizing results one by one -----------------------------------------------------------------

  function NewBook(it: Item, id: nat): Book {
    Book(it.rngId, Some(id), Completed, false, NoView)
  }

  function NewBooksOf(items: seq<Item>, ids: seq<nat>): seq<Book> {
    seq(Registered(items, |ids|), k requires 0 <= k < Registered(items, |ids|) => NewBook(items[k], ids[k]))
  }

  /** The books of the first `n` items, under the ids that came back. */
  function NewBooks(books: map<string, Book>, items: seq<Item>, ids: seq<nat>, n: nat): map<string, Book>
    requires n <= |items| && n <= |ids|
  {
    PutAll(books, items, NewBooksOf(items, ids), n)
  }

  lemma NewBooksFacts(books: map<string, Book>, items: seq<Item>, ids: seq<nat>, n: nat)
    requires n <= |items| && n <= |ids| && Distinct(items) && forall it <- items :: it.branch !in books
    ensures var after := NewBooks(books, items, ids, n);
            && after.Keys == books.Keys + Branches(items[..n])
            && (forall b <- books :: after[b] == books[b])
            && (forall k | 0 <= k < n :: after[items[k].branch] == NewBook(items[k], ids[k]))
  {
    PutAllKeys(books, items, NewBooksOf(items, ids), n);
    forall b <- books ensures NewBooks(books, items, ids, n)[b] == books[b] {
      PutAllKeeps(books, items, NewBooksOf(items, ids), n, b);
    }
    forall k | 0 <= k < n
      ensures items[k].branch in NewBooks(books, items, ids, n)
      ensures NewBooks(books, items, ids, n)[items[k].branch] == NewBook(items[k], ids[k])
    {
      PutAllHolds(books, items, NewBooksOf(items, ids), n, k);
    }
  }

  predicate JustRegistered(s: State, it: Item, id: nat) {
    && it.branch in s.books && s.books[it.branch] == NewBook(it, id)
    && it.branch !in s.current
  }

  function FinalBooks(books: map<string, Book>, items: seq<Item>, ids: seq<nat>, results: map<nat, Outcome>, n: nat)
    : map<string, Book>
    requires n <= |items| == |ids| && forall j | 0 <= j < n :: ids[j] in results
  {
    if n == 0 then books
    else
      FinalBooks(books, items, ids, results, n - 1)[
        items[n - 1].branch := BookOf(items[n - 1], ids[n - 1], results[ids[n - 1]])]
  }

  function FinalCurrent(current: map<string, string>, counter: nat,
                        items: seq<Item>, ids: seq<nat>, results: map<nat, Outcome>, n: nat): map<string, string>
    requires n <= |items| == |ids| && forall j | 0 <= j < n :: ids[j] in results
  {
    if n == 0 then current
    else
      var before := FinalCurrent(current, counter, items, ids, results, n - 1);
      var b := items[n - 1].branch;
      if results[ids[n - 1]].Failed? then before
      else before[b := TextIds.DecisionId(b, counter + Opened(ids, results, n - 1))]
  }

  lemma {:induction false} FinalBooksFacts(
    books: map<string, Book>, items: seq<Item>, ids: seq<nat>, results: map<nat, Outcome>, n: nat)
    requires n <= |items| == |ids| && Distinct(items) && forall j | 0 <= j < n :: ids[j] in results
    requires forall k | 0 <= k < |items| :: items[k].branch in books
    ensures var after := FinalBooks(books, items, ids, results, n);
            && after.Keys == books.Keys
            && (forall b <- books | b !in Branches(items) :: after[b] == books[b])
            && (forall k | 0 <= k < n :: after[items[k].branch] == BookOf(items[k], ids[k], results[ids[k]]))
            && (forall k | n <= k < |items| :: after[items[k].branch] == books[items[k].branch])
  {
    if n > 0 {
      FinalBooksFacts(books, items, ids, results, n - 1);
      assert items[n - 1].branch in Branches(items);
    }
  }

  lemma {:induction false} FinalCurrentKeeps(
    current: map<string, string>, counter: nat, items: seq<Item>, ids: seq<nat>, results: map<nat, Outcome>, n: nat)
    requires n <= |items| == |ids| && forall j | 0 <= j < n :: ids[j] in results
    requires forall k | 0 <= k < |items| :: items[k].branch !in current
    ensures var after := FinalCurrent(current, counter, items, ids, results, n);
            && current.Keys <= after.Keys <= current.Keys + Branches(items)
            && (forall b <- current :: after[b] == current[b])
  {
    if n > 0 {
      FinalCurrentKeeps(current, counter, items, ids, results, n - 1);
      assert items[n - 1].branch in Branches(items);
    }
  }

  /** What was decided for another Branch stays decided. */
  lemma DecidedStays(before: map<string, string>, b: string, id: string, counter: nat, it: Item, ids: seq<nat>,
                     results: map<nat, Outcome>, k: nat)
    requires k < |ids| && ids[k] in results && it.branch != b
    ensures DecidedAt(before[b := id], counter, it, ids, results, k) == DecidedAt(before, counter, it, ids, results, k)
  {
  }

  lemma {:induction false} FinalCurrentDecides(
    current: map<string, string>, counter: nat, items: seq<Item>, ids: seq<nat>, results: map<nat, Outcome>, n: nat,
    k: nat)
    requires n <= |items| == |ids| && k < |items| && Distinct(items) && forall j | 0 <= j < n :: ids[j] in results
    requires items[k].branch !in current
    ensures var after := FinalCurrent(current, counter, items, ids, results, n);
            if k < n then DecidedAt(after, counter, items[k], ids, results, k) else items[k].branch !in after
  {
    if n > 0 {
      FinalCurrentDecides(current, counter, items, ids, results, n - 1, k);
      var before, b := FinalCurrent(current, counter, items, ids, results, n - 1), items[n - 1].branch;
      if k < n - 1 {
        var id := TextIds.DecisionId(b, counter + Opened(ids, results, n - 1));
        DecidedStays(before, b, id, counter, items[k], ids, results, k);
      }
    }
  }

  lemma FinalCurrentFacts(current: map<string, string>, counter: nat, items: seq<Item>, ids: seq<nat>,
                          results: map<nat, Outcome>, n: nat)
    requires n <= |items| == |ids| && Distinct(items) && forall j | 0 <= j < n :: ids[j] in results
    requires forall k | 0 <= k < |items| :: items[k].branch !in current
    ensures var after := FinalCurrent(current, counter, items, ids, results, n);
            && current.Keys <= after.Keys <= current.Keys + Branches(items)
            && (forall b <- current :: after[b] == current[b])
            && (forall k | 0 <= k < n :: DecidedAt(after, counter, items[k], ids, results, k))
            && (forall k | n <= k < |items| :: items[k].branch !in after)
  {
    FinalCurrentKeeps(current, counter, items, ids, results, n);
    forall k | 0 <= k < |items|
      ensures var after := FinalCurrent(current, counter, items, ids, results, n);
              if k < n then DecidedAt(after, counter, items[k], ids, results, k) else items[k].branch !in after
    {
      FinalCurrentDecides(current, counter, items, ids, results, n, k);
    }
  }

  lemma FinalFacts(s: State, items: seq<Item>, ids: seq<nat>, results: map<nat, Outcome>, n: nat)
    requires n <= |items| == |ids| && Distinct(items) && forall j | 0 <= j < n :: ids[j] in results
    requires forall k | 0 <= k < |items| :: JustRegistered(s, items[k], ids[k])
    ensures var t := s.(books := FinalBooks(s.books, items, ids, results, n),
                        current := FinalCurrent(s.current, s.counter, items, ids, results, n));
            && t.books.Keys == s.books.Keys
            && (forall b <- s.books | b !in Branches(items) :: t.books[b] == s.books[b])
            && s.current.Keys <= t.current.Keys <= s.current.Keys + Branches(items)
            && (forall b <- s.current :: t.current[b] == s.current[b])
            && (forall k | 0 <= k < n :: PublishedAt(t, s.counter, items[k], ids, results, k))
            && (forall k | n <= k < |items| :: JustRegistered(t, items[k], ids[k]))
  {
    forall k | 0 <= k < |items| ensures items[k].branch in s.books && items[k].branch !in s.current {
      assert JustRegistered(s, items[k], ids[k]);
    }
    FinalBooksFacts(s.books, items, ids, results, n);
    FinalCurrentFacts(s.current, s.counter, items, ids, results, n);
    forall k | n <= k < |items|
      ensures FinalBooks(s.books, items, ids, results, n)[items[k].branch] == NewBook(items[k], ids[k])
    {
      assert JustRegistered(s, items[k], ids[k]);
    }
  }

  lemma StillRegistered(s: State, items: seq<Item>, ids: seq<nat>, results: map<nat, Outcome>, k: nat)
    requires k < |items| == |ids| && Distinct(items) && forall j | 0 <= j < k :: ids[j] in results
    requires forall k | 0 <= k < |items| :: JustRegistered(s, items[k], ids[k])
    ensures JustRegistered(s.(books := FinalBooks(s.books, items, ids, results, k),
                              current := FinalCurrent(s.current, s.counter, items, ids, results, k)), items[k], ids[k])
  {
    FinalFacts(s, items, ids, results, k);
  }

  /** What is left behind when finalizing stops half-way. */
  ghost predicate Partly(s: State, t: State, items: seq<Item>, ids: seq<nat>)
    requires |items| == |ids|
  {
    && t.books.Keys == s.books.Keys
    && (forall b <- s.books | b !in Branches(items) :: t.books[b] == s.books[b])
    && (forall k | 0 <= k < |items| :: items[k].branch in t.books && HeldBy(t.books[items[k].branch], ids[k]))
    && s.current.Keys <= t.current.Keys <= s.current.Keys + Branches(items)
    && (forall b <- s.current :: t.current[b] == s.current[b])
    && t.counter >= s.counter
  }

  lemma PartlyAt(s: State, u: State, t: State, items: seq<Item>, ids: seq<nat>, results: map<nat, Outcome>, k: nat)
    requires k < |items| == |ids| && Distinct(items) && forall j | 0 <= j < k :: ids[j] in results
    requires forall j | 0 <= j < |items| :: JustRegistered(s, items[j], ids[j])
    requires u.books == FinalBooks(s.books, items, ids, results, k)
    requires u.current == FinalCurrent(s.current, s.counter, items, ids, results, k) && u.counter >= s.counter
    requires items[k].branch in t.books && t.books == u.books[items[k].branch := t.books[items[k].branch]]
    requires HeldBy(t.books[items[k].branch], ids[k])
    requires t.counter >= u.counter
    requires || t.current == u.current
             || (items[k].branch in t.current
                 && t.current == u.current[items[k].branch := t.current[items[k].branch]])
    ensures Partly(s, t, items, ids)
  {
    FinalFacts(s, items, ids, results, k);
    assert items[k].branch in Branches(items);
    forall j | 0 <= j < |items| ensures items[j].branch in t.books && HeldBy(t.books[items[j].branch], ids[j]) {
      if j != k {
        assert JustRegistered(s, items[j], ids[j]);
        assert items[j].branch != items[k].branch;
      }
    }
  }

  // ---- Between reservation and publication -----------------------------------------------------------

  predicate Quarantined(items: seq<Item>, c: Script) {
    PollReached(items, c) && c.poll.PollRaises? && c.poll.quarantined
  }

  /** A batch that stopped somewhere after its reservation: what the unwinding starts from. */
  ghost predicate Tentative(s: State, t: State, items: seq<Item>, ids: seq<nat>, registered: seq<string>) {
    && |registered| <= |items| && |registered| <= |ids|
    && (forall k | 0 <= k < |registered| :: registered[k] == items[k].branch)
    && t.used == s.used + Branches(items[..|registered|])
    && KeepsOthers(s, t, Branches(items[..|registered|]))
    && AllHeld(t, items, |registered|, Serial(s))
    && t.counter >= s.counter
    && s.phase.Some? && t.phase.Some? && Grown(s.phase.value, t.phase.value, |ids|)
    && s.phase.value.table.order <= t.phase.value.table.order
  }

  lemma NothingRegistered(s: State, t: State, items: seq<Item>)
    requires s.phase.Some? && t.phase.Some? && t == s.(phase := t.phase)
    requires Grown(s.phase.value, t.phase.value, 0) && s.phase.value.table.order <= t.phase.value.table.order
    ensures Tentative(s, t, items, [], [])
  {
    assert items[..0] == [];
  }

  lemma RegisteredIsTentative(s: State, t: State, items: seq<Item>, ids: seq<nat>, registered: seq<string>)
    requires |registered| == Registered(items, |ids|) && ids == Serials(Serial(s), |ids|)
    requires forall k | 0 <= k < |registered| :: registered[k] == items[k].branch
    requires t == s.(used := t.used, books := t.books, phase := t.phase)
    requires t.used == s.used + Branches(items[..|registered|])
    requires t.books.Keys == s.books.Keys + Branches(items[..|registered|])
    requires forall b <- s.books :: t.books[b] == s.books[b]
    requires forall k | 0 <= k < |registered| ::
               items[k].branch in t.books && t.books[items[k].branch] == NewBook(items[k], ids[k])
    requires s.phase.Some? && t.phase.Some? && Grown(s.phase.value, t.phase.value, |ids|)
    requires s.phase.value.table.order <= t.phase.value.table.order
    ensures Tentative(s, t, items, ids, registered)
  {
  }

  /** A batch stays what it is while only the phase's records move on. */
  lemma TentativeInPhase(s: State, u: State, t: State, items: seq<Item>, ids: seq<nat>, registered: seq<string>)
    requires Tentative(s, u, items, ids, registered) && t == u.(phase := t.phase) && t.phase.Some?
    requires Grown(s.phase.value, t.phase.value, |ids|) && t.phase.value.table == u.phase.value.table
    ensures Tentative(s, t, items, ids, registered)
  {
  }

  lemma PolledStaysTentative(s: State, u: State, t: State, items: seq<Item>, ids: seq<nat>, registered: seq<string>,
                             poll: Poll)
    requires Tentative(s, u, items, ids, registered) && Numbered(s.phase.value)
    requires t == u.(phase := t.phase) && t.phase.Some?
             && t.phase.value == u.phase.value.(records := t.phase.value.records)
    requires t.phase.value.records == PollRecords(u.phase.value.records, NewIds(Serial(s), |ids|), poll)
    ensures Tentative(s, t, items, ids, registered)
  {
    PollStatesOnly(s.phase.value, u.phase.value, |ids|, poll);
    GrownThenStates(s.phase.value, u.phase.value, t.phase.value, |ids|);
    TentativeInPhase(s, u, t, items, ids, registered);
  }

  lemma FinalizingStaysTentative(s: State, u: State, t: State, items: seq<Item>, ids: seq<nat>, registered: seq<string>)
    requires |ids| == |items| == |registered| && ids == Serials(Serial(s), |ids|)
    requires Tentative(s, u, items, ids, registered) && Partly(u, t, items, ids)
    requires forall it <- items :: it.branch !in s.books && it.branch !in s.current
    requires t == u.(books := t.books, current := t.current, counter := t.counter)
    ensures Tentative(s, t, items, ids, registered)
  {
    assert items[..|items|] == items;
    FinalizedAreHeld(u, t, items, ids, Serial(s));
    FinalizingKeepsOthers(s, u, t, items, ids);
  }

  lemma FinalizedAreHeld(u: State, t: State, items: seq<Item>, ids: seq<nat>, serial: nat)
    requires |ids| == |items| && ids == Serials(serial, |ids|) && Partly(u, t, items, ids)
    ensures AllHeld(t, items, |items|, serial)
  {
    forall k | 0 <= k < |items|
      ensures items[k].branch in t.books && HeldBy(t.books[items[k].branch], serial + 1 + k)
    {
      assert ids[k] == serial + 1 + k;
    }
  }

  lemma FinalizingKeepsOthers(s: State, u: State, t: State, items: seq<Item>, ids: seq<nat>)
    requires |ids| == |items| && KeepsOthers(s, u, Branches(items)) && Partly(u, t, items, ids)
    requires forall it <- items :: it.branch !in s.books && it.branch !in s.current
    requires t == u.(books := t.books, current := t.current, counter := t.counter)
    ensures KeepsOthers(s, t, Branches(items))
  {
    assert forall b <- Branches(items) :: b !in s.books;
  }

  lemma PolledIsRecordedAt(s: State, t: State, items: seq<Item>, results: map<nat, Outcome>, k: nat)
    requires s.phase.Some? && t.phase.Some? && k < |items| && Serial(s) + 1 + k in results
    requires t.phase.value.records == AfterPoll(s, items, Polled(results))
    ensures RecordedAt(s.phase.value, t.phase.value, ParentOf(s.books, items[k]), Serial(s) + 1 + k, results)
  {
    SubmittedThenPolled(s.phase.value, Parents(s.books, items), results, |items|, k);
  }

  function AfterPoll(s: State, items: seq<Item>, poll: Poll): map<nat, Record>
    requires s.phase.Some?
  {
    var p := s.phase.value;
    PollRecords(SubmitRecords(p.records, p.serial, Parents(s.books, items), |items|), NewIds(p.serial, |items|), poll)
  }

  lemma PolledIsRecorded(s: State, t: State, items: seq<Item>, results: map<nat, Outcome>)
    requires s.phase.Some? && t.phase.Some?
    requires forall id <- Serials(Serial(s), |items|) :: id in results
    requires t.phase.value.records == AfterPoll(s, items, Polled(results))
    ensures AllRecorded(s, t, items, results)
  {
    forall k | 0 <= k < |items|
      ensures RecordedAt(s.phase.value, t.phase.value, ParentOf(s.books, items[k]), Serial(s) + 1 + k, results)
    {
      assert Serials(Serial(s), |items|)[k] in Serials(Serial(s), |items|);
      PolledIsRecordedAt(s, t, items, results, k);
    }
  }

  lemma AllFinalizedIsPublished(s: State, t: State, items: seq<Item>, c: Script, registered: seq<string>)
    requires Succeeds(Serial(s), items, c) && |registered| == |items|
    requires Tentative(s, t, items, Serials(Serial(s), |items|), registered)
    requires t.reserved == s.reserved + Branches(items)
    requires t.counter == s.counter + Opened(Serials(Serial(s), |items|), c.poll.results, |items|)
    requires AllPublished(s, t, items, c.poll.results) && AllRecorded(s, t, items, c.poll.results)
    requires t.phase.value.table == AllocateAll(s.phase.value.table, RngKeys(items))
    ensures Published(s, t, items, c)
  {
    assert items[..|items|] == items;
  }

  lemma ForgettingRestores(s: State, t: State, items: seq<Item>, registered: seq<string>, ids: seq<nat>)
    requires WellFormed(s) && forall it <- items :: it.branch !in s.used
    requires Tentative(s, t, items, ids, registered)
    ensures t.books - Branches(items[..|registered|]) == s.books
    ensures t.current - Branches(items[..|registered|]) == s.current
    ensures t.used - Branches(items[..|registered|]) == s.used
  {
    assert forall it <- items[..|registered|] :: it in items;
    var added := Branches(items[..|registered|]);
    assert added !! s.used;
    TakingBackRestores(s.books, t.books, added);
    TakingBackRestores(s.current, t.current, added);
  }

  lemma TakingBackRestores<V>(before: map<string, V>, after: map<string, V>, added: set<string>)
    requires before.Keys <= after.Keys <= before.Keys + added && before.Keys !! added
    requires forall b <- before :: after[b] == before[b]
    ensures after - added == before
  {
  }

  lemma AdmittedAreFresh(s: State, items: seq<Item>, rootBranchable: bool)
    requires Admissible(s, items, rootBranchable)
    ensures Distinct(items) && forall it <- items :: it.branch !in s.used
  {
    forall k | 0 <= k < |items|
      ensures items[k].branch !in s.used && forall j | 0 <= j < k :: items[j].branch != items[k].branch
    {
      assert ItemOk(s, items, k, rootBranchable);
    }
  }

  lemma TentativeFrom(s: State, u: State, t: State, items: seq<Item>, ids: seq<nat>, registered: seq<string>)
    requires u == s.(reserved := u.reserved) && Tentative(u, t, items, ids, registered)
    ensures Tentative(s, t, items, ids, registered)
  {
  }

  lemma FreshAreUndecided(s: State, u: State, t: State, items: seq<Item>, ids: seq<nat>, registered: seq<string>,
      k: nat)
    requires WellFormed(s) && k < |items| == |ids| && items[k].branch !in s.used
    requires u == s.(reserved := u.reserved) && t.current == s.current
    requires items[k].branch in t.books && t.books[items[k].branch] == NewBook(items[k], ids[k])
    ensures JustRegistered(t, items[k], ids[k])
  {
  }

  lemma TentativeIsLeaked(s: State, t: State, r: State, items: seq<Item>, c: Script, registered: seq<string>)
    requires Tentative(s, t, items, HandedOut(Serial(s), items, c), registered)
    requires t.reserved == s.reserved + Branches(items)
    requires |registered| == Registered(items, HandedCount(items, c))
    requires r == t.(phase := r.phase) && r.phase.Some?
    requires Grown(s.phase.value, r.phase.value, HandedCount(items, c))
    requires ReleasedIfGivenBack(r.phase.value, items, c, Serial(s))
    ensures Leaked(s, r, items, c)
  {
  }

  /** After a clean-up, a record is released exactly if something gave it back. */
  lemma GivenBackByRelease(before: map<nat, Record>, after: map<nat, Record>, items: seq<Item>, c: Script, serial: nat)
    requires AllOrNoneReleased(before, serial, HandedCount(items, c), Quarantined(items, c))
    requires var handed := NewIds(serial, HandedCount(items, c));
             after == ReleaseRecords(before, if c.release.raises then c.release.done * handed else handed)
    ensures forall id <- NewIds(serial, HandedCount(items, c)) ::
              id in after && (after[id].state == Released <==> GivenBack(items, c, id))
  {
  }

  lemma CleanReleasesAll(q: PhaseState, items: seq<Item>, c: Script, serial: nat)
    requires !CleanUpRaises(items, c) && ReleasedIfGivenBack(q, items, c, serial)
    ensures forall id <- NewIds(serial, HandedCount(items, c)) :: id in q.records && q.records[id].state == Released
  {
  }

  lemma RestoredIsRolledBack(s: State, t: State, r: State, items: seq<Item>, ids: seq<nat>)
    requires s.phase.Some? && t.phase.Some? && r.phase.Some? && t.counter >= s.counter
    requires Grown(s.phase.value, t.phase.value, |ids|) && Consistent(s.phase.value.table)
    requires forall id <- NewIds(Serial(s), |ids|) :: t.phase.value.records[id].state == Released
    requires r.phase.value == t.phase.value.(table := s.phase.value.table)
    requires r == s.(counter := t.counter, phase := r.phase, reserved := s.reserved - Branches(items))
    ensures RolledBack(s, r, items, |ids|)
  {
  }

  lemma ReservationsBack(reserved: set<string>, added: set<string>)
    ensures reserved + added - added == reserved - added
  {
  }

  lemma ReleaseStatesOnly(p: PhaseState, q: PhaseState, count: nat, after: map<nat, Record>, call: ReleaseCall)
    requires Grown(p, q, count)
    requires var handed := NewIds(p.serial, count);
             after == ReleaseRecords(q.records, if call.raises then call.done * handed else handed)
    ensures OnlyStatesOf(q.records, after, NewIds(p.serial, count))
  {
  }

  lemma NothingToRelease(s: State)
    ensures Owed(s) == {} && s.phase.Some? ==>
            ReleaseRecords(s.phase.value.records, OwedIds(s)) == s.phase.value.records
  {
  }

  // ---- The instance ----------------------------------------------------------------------------------

  class WholeRunInstance {
    const branchIds: BranchIdRegistry
    const decisions: DecisionPointRegistry
    const maxBranches: nat
    var bookkeeping: map<string, Book>
    var reservations: set<string>
    var phase: CombatPhase?
    var faulted: bool

    ghost function Abs(): State
      reads this, branchIds, decisions
      reads if phase == null then {} else {phase, phase.rng}
    {
      State(branchIds.everUsed, bookkeeping, decisions.current, decisions.counter, reservations,
            if phase == null then None else Some(phase.Abs()), faulted, maxBranches)
    }

    constructor (capacity: nat)
      ensures fresh(branchIds) && fresh(decisions)
      ensures WellFormed(Abs()) && Agree(Abs()) && OwnIds(Abs()) && phase == null && !faulted && maxBranches == capacity
    {
      branchIds := new BranchIdRegistry();
      decisions := new DecisionPointRegistry();
      maxBranches, bookkeeping, reservations, phase, faulted := capacity, map[], {}, null, false;
      new;
      var _ := decisions.Issue(ROOT_BRANCH_ID);
    }

    /** Admission of a whole batch; a refusal happens before anything is touched. */
    method Admit(items: seq<Item>, rootBranchable: bool) returns (ok: bool)
      ensures ok == Admissible(Abs(), items, rootBranchable)
    {
      if faulted || items == [] || |items| > maxBranches || phase == null { return false; }
      var seen: set<string> := {};
      for k := 0 to |items|
        invariant forall b :: b in seen <==> exists j | 0 <= j < k :: items[j].branch == b
        invariant forall j | 0 <= j < k :: ItemOk(Abs(), items, j, rootBranchable)
      {
        ok := AdmitItem(items, k, seen, rootBranchable);
        if !ok { return; }
        seen := seen + {items[k].branch};
      }
      ok := |reservations| + |items| <= maxBranches;
    }

    method AdmitItem(items: seq<Item>, k: nat, seen: set<string>, rootBranchable: bool) returns (ok: bool)
      requires k < |items| && phase != null
      requires forall b :: b in seen <==> exists j | 0 <= j < k :: items[j].branch == b
      ensures ok == ItemOk(Abs(), items, k, rootBranchable)
    {
      var it := items[k];
      if it.branch in seen || it.branch in branchIds.everUsed { return false; }
      if it.parent in seen + {it.branch} { return false; }
      if it.parent == ROOT_BRANCH_ID {
        if !rootBranchable { return false; }
      } else {
        if it.parent !in bookkeeping { return false; }
        var b := bookkeeping[it.parent];
        if b.status == Cancelled || b.status == Released || b.status == Faulted || b.terminal { return false; }
        if !b.view.CombatView? || !b.view.branchable || it.rngId != b.rngId { return false; }
      }
      ok := it.parent in decisions.current && decisions.current[it.parent] == it.decision && it.actionOffered;
    }

    /** Books and ids of as many Branches as internal ids came back. */
    method RegisterBranches(items: seq<Item>, ids: seq<nat>) returns (ok: bool, registered: seq<string>)
      requires Distinct(items)
      requires forall it <- items :: it.branch !in bookkeeping
      modifies this`bookkeeping, branchIds
      ensures ok == (|ids| == |items|)
      ensures var n := Registered(items, |ids|);
              && |registered| == n
              && (forall k | 0 <= k < n :: registered[k] == items[k].branch)
              && branchIds.everUsed == old(branchIds.everUsed) + Branches(items[..n])
              && bookkeeping.Keys == old(bookkeeping.Keys) + Branches(items[..n])
              && (forall b <- old(bookkeeping) :: bookkeeping[b] == old(bookkeeping)[b])
              && (forall k | 0 <= k < n :: bookkeeping[items[k].branch] == NewBook(items[k], ids[k]))
    {
      registered := [];
      var n := Registered(items, |ids|);
      for k := 0 to n
        invariant |registered| == k && (forall j | 0 <= j < k :: registered[j] == items[j].branch)
        invariant branchIds.everUsed == old(branchIds.everUsed) + Branches(items[..k])
        invariant bookkeeping == NewBooks(old(bookkeeping), items, ids, k)
      {
        BranchesGrow(items, k);
        RegisterBranch(items[k], ids[k]);
        registered := registered + [items[k].branch];
      }
      NewBooksFacts(old(bookkeeping), items, ids, n);
      ok := |ids| == |items|;
    }

    method RegisterBranch(it: Item, id: nat)
      modifies this`bookkeeping, branchIds
      ensures branchIds.everUsed == old(branchIds.everUsed) + {it.branch}
      ensures bookkeeping == old(bookkeeping)[it.branch := NewBook(it, id)]
    {
      var _ := branchIds.Register(it.branch);
      bookkeeping := bookkeeping[it.branch := NewBook(it, id)];
    }

    /** One polled result: fault the Branch, or open its decision and show its view. */
    method FinalizeBranch(it: Item, id: nat, results: map<nat, Outcome>) returns (ok: bool)
      requires it.branch in bookkeeping && bookkeeping[it.branch] == NewBook(it, id)
      requires it.branch !in decisions.current
      modifies this`bookkeeping, decisions
      ensures ok == (id in results && !PublishRaises(results[id]))
      ensures it.branch in bookkeeping && bookkeeping == old(bookkeeping)[it.branch := bookkeeping[it.branch]]
      ensures HeldBy(bookkeeping[it.branch], id)
      ensures decisions.counter == old(decisions.counter) || decisions.counter == old(decisions.counter) + 1
      ensures decisions.current ==
              if decisions.counter == old(decisions.counter) then old(decisions.current)
              else old(decisions.current)[it.branch := TextIds.DecisionId(it.branch, old(decisions.counter))]
      ensures ok ==> bookkeeping[it.branch] == BookOf(it, id, results[id])
      ensures ok ==> (decisions.counter == old(decisions.counter) <==> results[id].Failed?)
    {
      if id !in results { return false; }
      var book := bookkeeping[it.branch];
      match results[id]
      case Failed =>
        bookkeeping := bookkeeping[it.branch := book.(status := Faulted)];
        ok := true;
      case Unreadable => ok := false;
      case Ended(known) =>
        var _ := decisions.Issue(it.branch);
        bookkeeping := bookkeeping[it.branch := book.(terminal := true)];
        ok := known;
      case Next(branchable, raises) =>
        var _ := decisions.Issue(it.branch);
        bookkeeping := bookkeeping[it.branch := book.(view := CombatView(branchable))];
        ok := !raises;
    }

    /** The results in order, until one cannot be published. */
    method FinalizeBranches(items: seq<Item>, ids: seq<nat>, results: map<nat, Outcome>) returns (ok: bool)
      requires |ids| == |items| && Distinct(items)
      requires forall k | 0 <= k < |items| :: JustRegistered(Abs(), items[k], ids[k])
      modifies this`bookkeeping, decisions
      ensures ok == Answered(ids, results)
      ensures ok ==> bookkeeping == FinalBooks(old(bookkeeping), items, ids, results, |items|)
      ensures ok ==> decisions.current ==
                     FinalCurrent(old(decisions.current), old(decisions.counter), items, ids, results, |items|)
      ensures ok ==> decisions.counter == old(decisions.counter) + Opened(ids, results, |items|)
      ensures !ok ==> Partly(old(Abs()), Abs(), items, ids)
    {
      ghost var s := Abs();
      for k := 0 to |items|
        invariant forall j | 0 <= j < k :: ids[j] in results && !PublishRaises(results[ids[j]])
        invariant bookkeeping == FinalBooks(s.books, items, ids, results, k)
        invariant decisions.current == FinalCurrent(s.current, s.counter, items, ids, results, k)
        invariant decisions.counter == s.counter + Opened(ids, results, k)
      {
        ok := FinalizeNext(items, ids, results, k, s);
        if !ok { return; }
      }
      ok := true;
    }

    method FinalizeNext(items: seq<Item>, ids: seq<nat>, results: map<nat, Outcome>, k: nat, ghost s: State)
      returns (ok: bool)
      requires k < |items| == |ids| && Distinct(items)
      requires forall j | 0 <= j < |items| :: JustRegistered(s, items[j], ids[j])
      requires forall j | 0 <= j < k :: ids[j] in results && !PublishRaises(results[ids[j]])
      requires bookkeeping == FinalBooks(s.books, items, ids, results, k)
      requires decisions.current == FinalCurrent(s.current, s.counter, items, ids, results, k)
      requires decisions.counter == s.counter + Opened(ids, results, k)
      modifies this`bookkeeping, decisions
      ensures ok == (ids[k] in results && !PublishRaises(results[ids[k]]))
      ensures ok ==> bookkeeping == FinalBooks(s.books, items, ids, results, k + 1)
      ensures ok ==> decisions.current == FinalCurrent(s.current, s.counter, items, ids, results, k + 1)
      ensures ok ==> decisions.counter == s.counter + Opened(ids, results, k + 1)
      ensures !ok ==> Partly(s, Abs(), items, ids) && !Answered(ids, results)
    {
      StillRegistered(s, items, ids, results, k);
      ghost var u := Abs();
      ok := FinalizeBranch(items[k], ids[k], results);
      if !ok {
        assert ids[k] in ids;
        PartlyAt(s, u, Abs(), items, ids, results, k);
      }
    }

    /** Build, submit, register; stops at the first call that raises. */
    method SubmitAndRegister(items: seq<Item>, c: Script) returns (ok: bool, ids: seq<nat>, registered: seq<string>)
      requires phase != null && Consistent(phase.rng.Abs()) && Numbered(phase.Abs())
      requires Distinct(items) && forall it <- items :: it.branch !in branchIds.everUsed
      requires bookkeeping.Keys <= branchIds.everUsed
      modifies this`bookkeeping, branchIds, phase, phase.rng
      ensures ok == PollReached(items, c)
      ensures ids == HandedOut(old(phase.serial), items, c)
      ensures Tentative(old(Abs()), Abs(), items, ids, registered)
      ensures |registered| == Registered(items, |ids|)
      ensures AllOrNoneReleased(phase.records, old(phase.serial), |ids|, false)
      ensures ok ==> phase.rng.Abs() == AllocateAll(old(phase.rng.Abs()), RngKeys(items))
      ensures ok ==> phase.records == SubmitRecords(
                       old(phase.records), old(phase.serial), Parents(old(bookkeeping), items), |items|)
      ensures ok ==> forall k | 0 <= k < |items| ::
                       items[k].branch in bookkeeping && bookkeeping[items[k].branch] == NewBook(items[k], ids[k])
    {
      ghost var s := Abs();
      var parents := Parents(bookkeeping, items);
      ok, ids := phase.SubmitWorkItems(items, parents, c);
      registered := [];
      if !ok {
        NoneHandedOut(s.phase.value.serial, items, c);
        NothingRegistered(s, Abs(), items);
        return;
      }
      QueuedThenPolled(s.phase.value, parents, |ids|, c.poll);
      ok, registered := RegisterAll(items, ids, s);
    }

    /** The ids that came back, registered beside the records already there. */
    method RegisterAll(items: seq<Item>, ids: seq<nat>, ghost s: State) returns (ok: bool, registered: seq<string>)
      requires phase != null && Abs() == s.(phase := Some(phase.Abs())) && s.phase.Some?
      requires ids == Serials(Serial(s), |ids|) && Grown(s.phase.value, phase.Abs(), |ids|)
      requires s.phase.value.table.order <= phase.rng.order
      requires Distinct(items) && forall it <- items :: it.branch !in branchIds.everUsed
      requires bookkeeping.Keys <= branchIds.everUsed
      modifies this`bookkeeping, branchIds
      ensures ok == (|ids| == |items|) && |registered| == Registered(items, |ids|)
      ensures Tentative(s, Abs(), items, ids, registered)
      ensures ok ==> forall k | 0 <= k < |items| ::
                       items[k].branch in bookkeeping && bookkeeping[items[k].branch] == NewBook(items[k], ids[k])
    {
      ok, registered := RegisterBranches(items, ids);
      RegisteredIsTentative(s, Abs(), items, ids, registered);
    }

    /** The rest of the batch; what it leaves behind is either public or still to be unwound. */
    method Execute(items: seq<Item>, c: Script, ghost s: State)
      returns (ok: bool, ids: seq<nat>, registered: seq<string>)
      requires WellFormed(s) && s.phase.Some? && Abs() == s.(reserved := s.reserved + Branches(items))
      requires Distinct(items) && forall it <- items :: it.branch !in s.used
      modifies this`bookkeeping, branchIds, decisions
      modifies if phase == null then {} else {phase, phase.rng}
      ensures ok == Succeeds(Serial(s), items, c)
      ensures ok ==> Published(s, Abs(), items, c)
      ensures !ok ==> ids == HandedOut(Serial(s), items, c)
      ensures !ok ==> Tentative(s, Abs(), items, ids, registered)
      ensures !ok ==> |registered| == Registered(items, |ids|)
      ensures !ok ==> AllOrNoneReleased(phase.records, Serial(s), |ids|, Quarantined(items, c))
    {
      ghost var u := Abs();
      ok, ids, registered := SubmitAndRegister(items, c);
      TentativeFrom(s, u, Abs(), items, ids, registered);
      if !ok { return; }
      forall k | 0 <= k < |items| ensures JustRegistered(Abs(), items[k], ids[k]) {
        FreshAreUndecided(s, u, Abs(), items, ids, registered, k);
      }
      ok := PollAll(items, ids, registered, c, s);
      if !ok { return; }
      ok := PublishAll(items, ids, registered, c, s);
    }

    /** Publication of polled results, and what it amounts to for the whole batch. */
    method PublishAll(items: seq<Item>, ids: seq<nat>, registered: seq<string>, c: Script, ghost s: State)
      returns (ok: bool)
      requires WellFormed(s) && phase != null && s.phase.Some? && Distinct(items)
      requires forall it <- items :: it.branch !in s.used
      requires PollReached(items, c) && c.poll.Polled? && |registered| == |items|
      requires ids == Serials(Serial(s), |items|) && Tentative(s, Abs(), items, ids, registered)
      requires reservations == s.reserved + Branches(items) && decisions.counter == s.counter
      requires phase.records == AfterPoll(s, items, c.poll)
      requires phase.rng.Abs() == AllocateAll(s.phase.value.table, RngKeys(items))
      requires forall k | 0 <= k < |items| :: JustRegistered(Abs(), items[k], ids[k])
      modifies this`bookkeeping, decisions
      ensures ok == Succeeds(Serial(s), items, c)
      ensures ok ==> Published(s, Abs(), items, c)
      ensures Tentative(s, Abs(), items, ids, registered)
    {
      ghost var u := Abs();
      ok := Publish(items, ids, c.poll.results);
      FinalizingStaysTentative(s, u, Abs(), items, ids, registered);
      if ok {
        PolledIsRecorded(s, Abs(), items, c.poll.results);
        AllFinalizedIsPublished(s, Abs(), items, c, registered);
      }
    }

    /** The poll changes records only. */
    method PollAll(items: seq<Item>, ids: seq<nat>, registered: seq<string>, c: Script, ghost s: State)
      returns (ok: bool)
      requires phase != null && s.phase.Some? && Numbered(s.phase.value) && PollReached(items, c)
      requires ids == Serials(Serial(s), |items|) && Tentative(s, Abs(), items, ids, registered)
      requires phase.records == SubmitRecords(
                 s.phase.value.records, Serial(s), Parents(s.books, items), |items|)
      modifies phase`records
      ensures ok == c.poll.Polled?
      ensures Tentative(s, Abs(), items, ids, registered)
      ensures AllOrNoneReleased(phase.records, Serial(s), |items|, Quarantined(items, c))
      ensures phase.records == AfterPoll(s, items, c.poll)
    {
      ghost var u := Abs();
      SerialsAreNew(Serial(s), |items|);
      QueuedThenPolled(s.phase.value, Parents(s.books, items), |items|, c.poll);
      ok := phase.PollResults(ids, c.poll);
      PolledStaysTentative(s, u, Abs(), items, ids, registered, c.poll);
    }

    /** Polled results become public, or stop half-way. */
    method Publish(items: seq<Item>, ids: seq<nat>, results: map<nat, Outcome>) returns (ok: bool)
      requires |ids| == |items| && Distinct(items)
      requires forall k | 0 <= k < |items| :: JustRegistered(Abs(), items[k], ids[k])
      modifies this`bookkeeping, decisions
      ensures ok == Answered(ids, results)
      ensures Partly(old(Abs()), Abs(), items, ids)
      ensures ok ==> decisions.counter == old(decisions.counter) + Opened(ids, results, |items|)
      ensures ok ==> forall k | 0 <= k < |items| ::
                       PublishedAt(Abs(), old(decisions.counter), items[k], ids, results, k)
    {
      ghost var s := Abs();
      ok := FinalizeBranches(items, ids, results);
      if ok {
        FinalFacts(s, items, ids, results, |items|);
        forall k | 0 <= k < |items|
          ensures items[k].branch in bookkeeping && HeldBy(bookkeeping[items[k].branch], ids[k])
          ensures PublishedAt(Abs(), s.counter, items[k], ids, results, k)
        {
          assert PublishedAt(s.(books := bookkeeping, current := decisions.current), s.counter, items[k], ids,
              results, k);
        }
      }
    }

    /** Pops the books, decisions and ids of the registered Branches. */
    method ForgetBranches(items: seq<Item>, registered: seq<string>)
      requires |registered| <= |items| && forall k | 0 <= k < |registered| :: registered[k] == items[k].branch
      requires forall it <- items :: it.branch != ROOT_BRANCH_ID
      modifies this`bookkeeping, branchIds, decisions`current
      ensures bookkeeping == old(bookkeeping) - Branches(items[..|registered|])
      ensures decisions.current == old(decisions.current) - Branches(items[..|registered|])
      ensures branchIds.everUsed == old(branchIds.everUsed) - Branches(items[..|registered|])
    {
      for k := 0 to |registered|
        invariant bookkeeping == old(bookkeeping) - Branches(items[..k])
        invariant decisions.current == old(decisions.current) - Branches(items[..k])
        invariant branchIds.everUsed == old(branchIds.everUsed) - Branches(items[..k])
      {
        BranchesGrow(items, k);
        assert items[k] in items;
        bookkeeping := bookkeeping - {registered[k]};
        decisions.Clear(registered[k]);
        branchIds.RollbackRegistration(registered[k]);
      }
    }

    /** Cancel, then release whatever cancel did; either may raise. */
    method GiveBack(items: seq<Item>, ids: seq<nat>, c: Script, ghost p: PhaseState) returns (clean: bool)
      requires phase != null && Numbered(p) && ids == HandedOut(p.serial, items, c) && Grown(p, phase.Abs(), |ids|)
      requires AllOrNoneReleased(phase.records, p.serial, |ids|, Quarantined(items, c))
      modifies phase`records
      ensures clean == !CleanUpRaises(items, c)
      ensures Grown(p, phase.Abs(), |ids|) && ReleasedIfGivenBack(phase.Abs(), items, c, p.serial)
    {
      if ids == [] {
        assert NewIds(p.serial, 0) == {};
        return true;
      }
      if !c.cancelRaises { phase.CancelNew(ids, p); }
      clean := ReleaseNew(items, ids, c, p);
      clean := clean && !c.cancelRaises;
    }

    method ReleaseNew(items: seq<Item>, ids: seq<nat>, c: Script, ghost p: PhaseState) returns (ok: bool)
      requires phase != null && Numbered(p) && ids == HandedOut(p.serial, items, c) && Grown(p, phase.Abs(), |ids|)
      requires AllOrNoneReleased(phase.records, p.serial, |ids|, Quarantined(items, c))
      modifies phase`records
      ensures ok == !c.release.raises
      ensures Grown(p, phase.Abs(), |ids|) && ReleasedIfGivenBack(phase.Abs(), items, c, p.serial)
    {
      ghost var q := phase.Abs();
      SerialsAreNew(p.serial, |ids|);
      ok := phase.Release(IdSet(ids), c.release);
      ReleaseStatesOnly(p, q, |ids|, phase.records, c.release);
      GivenBackByRelease(q.records, phase.records, items, c, p.serial);
      GrownThenStates(p, q, phase.Abs(), |ids|);
    }

    /** The `except` path.  A raising cancel or release leaves before anything public is restored. */
    method Unwind(items: seq<Item>, ids: seq<nat>, registered: seq<string>, marker: nat, c: Script, ghost s: State)
      returns (clean: bool)
      requires phase != null && WellFormed(s) && forall it <- items :: it.branch !in s.used
      requires ids == HandedOut(Serial(s), items, c) && |registered| == Registered(items, |ids|)
      requires Tentative(s, Abs(), items, ids, registered)
      requires AllOrNoneReleased(phase.records, Serial(s), |ids|, Quarantined(items, c))
      requires reservations == s.reserved + Branches(items)
      requires s.phase.Some? && marker == |s.phase.value.table.order|
      modifies this`bookkeeping, this`reservations, branchIds, decisions`current, phase`records, phase.rng
      ensures clean == !CleanUpRaises(items, c)
      ensures Unwound(s, items, c, Abs())
    {
      ghost var t := Abs();
      clean := GiveBack(items, ids, c, s.phase.value);
      if clean {
        TentativeInPhase(s, t, Abs(), items, ids, registered);
        CleanReleasesAll(phase.Abs(), items, c, Serial(s));
        RestoreAll(items, ids, registered, marker, s);
      } else {
        TentativeIsLeaked(s, t, Abs(), items, c, registered);
      }
    }

    /** After a clean-up that returned: books, decisions, ids, hypotheses and reservations go back. */
    method RestoreAll(items: seq<Item>, ids: seq<nat>, registered: seq<string>, marker: nat, ghost s: State)
      requires phase != null && WellFormed(s) && forall it <- items :: it.branch !in s.used
      requires Tentative(s, Abs(), items, ids, registered)
      requires forall id <- NewIds(Serial(s), |ids|) :: phase.records[id].state == Released
      requires reservations == s.reserved + Branches(items)
      requires s.phase.Some? && marker == |s.phase.value.table.order|
      modifies this`bookkeeping, this`reservations, branchIds, decisions`current, phase.rng
      ensures RolledBack(s, Abs(), items, |ids|)
    {
      ghost var t := Abs();
      ForgetBranches(items, registered);
      phase.RestoreHypotheses(marker, s.phase.value.table);
      reservations := reservations - set it <- items :: it.branch;
      ForgettingRestores(s, t, items, registered, ids);
      ReservationsBack(s.reserved, Branches(items));
      RestoredIsRolledBack(s, t, Abs(), items, ids);
    }

    method EmulateCombatPhaseActions(items: seq<Item>, c: Script) returns (published: bool)
      requires WellFormed(Abs())
      modifies this`bookkeeping, this`reservations, branchIds, decisions
      modifies if phase == null then {} else {phase, phase.rng}
      ensures BatchStep(old(Abs()), items, c, Abs())
      ensures published == old(Admissible(Abs(), items, c.rootBranchable) && Succeeds(Serial(Abs()), items, c))
    {
      published := Admit(items, c.rootBranchable);
      if published { published := RunAdmitted(items, c); }
    }

    /** Capacity is reserved first; whatever happens after that is published or unwound. */
    method RunAdmitted(items: seq<Item>, c: Script) returns (published: bool)
      requires WellFormed(Abs()) && Admissible(Abs(), items, c.rootBranchable)
      modifies this`bookkeeping, this`reservations, branchIds, decisions
      modifies if phase == null then {} else {phase, phase.rng}
      ensures BatchStep(old(Abs()), items, c, Abs())
      ensures published == old(Succeeds(Serial(Abs()), items, c))
    {
      ghost var s := Abs();
      AdmittedAreFresh(s, items, c.rootBranchable);
      var marker := phase.rng.Snapshot();
      reservations := reservations + set it <- items :: it.branch;
      published := ExecuteOrUnwind(items, c, marker, s);
    }

    method ExecuteOrUnwind(items: seq<Item>, c: Script, marker: nat, ghost s: State) returns (published: bool)
      requires WellFormed(s) && s.phase.Some? && Abs() == s.(reserved := s.reserved + Branches(items))
      requires Distinct(items) && forall it <- items :: it.branch !in s.used
      requires marker == |s.phase.value.table.order|
      modifies this`bookkeeping, this`reservations, branchIds, decisions
      modifies if phase == null then {} else {phase, phase.rng}
      ensures published == Succeeds(Serial(s), items, c)
      ensures EndedAs(s, items, c, Abs())
    {
      var ids: seq<nat>, registered: seq<string>;
      published, ids, registered := Execute(items, c, s);
      if !published {
        var _ := Unwind(items, ids, registered, marker, c, s);
      }
    }

    /** `cancel_branches`, `release_branches` and `get_branch_status`: one id after the other. */
    method SweepBranches(w: Sweep, ids: seq<string>, raising: map<string, bool>) returns (ok: bool)
      modifies this`bookkeeping, this`reservations
      modifies (if phase == null then {} else {phase})`records
      ensures Abs() == if faulted && !w.Query? then old(Abs()) else SweepAll(old(Abs()), w, ids, raising)
      ensures ok ==> forall id <- ids :: id in bookkeeping && id != ROOT_BRANCH_ID
    {
      if faulted && !w.Query? { return false; }
      ghost var all := SweepAll(Abs(), w, ids, raising);
      for n := 0 to |ids|
        invariant SweepAll(Abs(), w, ids[n..], raising) == all
        invariant forall j | 0 <= j < n :: ids[j] in bookkeeping && ids[j] != ROOT_BRANCH_ID
      {
        assert ids[n..][0] == ids[n] && ids[n..][1..] == ids[n + 1..];
        ok := SweepBranch(w, ids[n], raising);
        if !ok { return; }
      }
      ok := true;
    }

    method SweepBranch(w: Sweep, id: string, raising: map<string, bool>) returns (ok: bool)
      modifies this`bookkeeping, this`reservations
      modifies (if phase == null then {} else {phase})`records
      ensures ok == !old(Blocked(Abs(), w, id, raising))
      ensures Abs() == if ok then SweepOne(old(Abs()), w, id) else Refuse(old(Abs()), w, id, raising)
      ensures ok ==> id in bookkeeping && id != ROOT_BRANCH_ID
      ensures old(bookkeeping).Keys <= bookkeeping.Keys
    {
      if id == ROOT_BRANCH_ID || id !in bookkeeping { return false; }
      var book := bookkeeping[id];
      if NeedsPhase(book, w) {
        ok := CallPhase(w, id, raising);
        if !ok { return; }
        if w.Release? { reservations := reservations - {id}; }
        if w.Query? {
          bookkeeping := bookkeeping[id := book.(status := phase.records[book.internalId.value].state)];
        }
      }
      if w.Cancel? && book.status != Cancelled && book.status != Released {
        bookkeeping := bookkeeping[id := book.(status := Cancelled, view := NoView)];
      }
      if w.Release? && book.status != Released {
        bookkeeping := bookkeeping[id := book.(status := Released, view := NoView)];
      }
      ok := true;
    }

    /** The phase call for one id; a call that raises may have taken effect. */
    method CallPhase(w: Sweep, id: string, raising: map<string, bool>) returns (ok: bool)
      requires id in bookkeeping && NeedsPhase(bookkeeping[id], w)
      modifies (if phase == null then {} else {phase})`records
      ensures ok == (old(Known(Abs(), id)) && id !in raising)
      ensures Abs() == if id in raising && !raising[id] then old(Abs()) else PhaseCall(old(Abs()), w, id)
    {
      var internal := bookkeeping[id].internalId.value;
      if phase == null || internal !in phase.records { return false; }
      if id !in raising || raising[id] {
        match w
        case Cancel => var _ := phase.Cancel(internal);
        case Release => var _ := phase.Release({internal}, ReleaseCall(false, {}));
        case Query =>
      }
      ok := id !in raising;
    }

    /** `_cancel_and_release_all_branches`. */
    method RetireAllBranches(call: ReleaseCall) returns (ok: bool)
      modifies this`bookkeeping, this`reservations, decisions`current
      modifies (if phase == null then {} else {phase})`records
      ensures ok == !old(RetireRaises(Abs(), call))
      ensures Abs() == Retire(old(Abs()), call)
    {
      ghost var s := Abs();
      var owed := set b | b in bookkeeping && NeedsPhase(bookkeeping[b], Release);
      assert owed == Owed(s);
      if owed != {} {
        if phase == null { return false; }
        ok := phase.Release(InternalIds(bookkeeping, owed), call);
        if !ok { return; }
      }
      NothingToRelease(s);
      TombstoneAll();
      ok := true;
    }

    /** Every record becomes a tombstone, without a decision and without a reservation. */
    method TombstoneAll()
      modifies this`bookkeeping, this`reservations, decisions`current
      ensures bookkeeping == Tombstoned(old(bookkeeping), old(bookkeeping).Keys)
      ensures decisions.current == old(decisions.current) - old(bookkeeping).Keys
      ensures reservations == old(reservations) - old(bookkeeping).Keys
    {
      ghost var books := bookkeeping;
      ghost var done: set<string> := {};
      var todo := bookkeeping.Keys;
      while todo != {}
        invariant done == books.Keys - todo && todo <= books.Keys
        invariant bookkeeping == Tombstoned(books, done)
        invariant decisions.current == old(decisions.current) - done
        invariant reservations == old(reservations) - done
        decreases |todo|
      {
        var b :| b in todo;
        TombstoneOneMore(books, done, b);
        TombstoneBranch(b);
        todo, done := todo - {b}, done + {b};
      }
    }

    method TombstoneBranch(b: string)
      requires b in bookkeeping
      modifies this`bookkeeping, this`reservations, decisions`current
      ensures bookkeeping == old(bookkeeping)[b := Tombstone(old(bookkeeping)[b])]
      ensures decisions.current == old(decisions.current) - {b} && reservations == old(reservations) - {b}
    {
      bookkeeping := bookkeeping[b := Tombstone(bookkeeping[b])];
      decisions.Clear(b);
      reservations := reservations - {b};
    }

    /** Faults the instance, gives Branches back while there is a phase, whatever that does, and drops it. */
    method PoisonCombatTransaction(again: ReleaseCall)
      modifies this`bookkeeping, this`reservations, this`phase, this`faulted, decisions`current
      modifies (if phase == null then {} else {phase})`records
      ensures Abs() == Poisoned(old(Abs()), again)
    {
      faulted := true;
      if phase != null {
        var _ := RetireAllBranches(again);
      }
      phase := null;
    }

    /** `_record_root_commit`, as far as Branches and decisions go. */
    method RecordRootCommit(releaseBranches: bool, call: ReleaseCall, captureRaises: bool) returns (ok: bool)
      modifies this`bookkeeping, this`reservations, decisions
      modifies (if phase == null then {} else {phase})`records
      ensures ok == !(captureRaises || (releaseBranches && old(RetireRaises(Abs(), call))))
      ensures Abs() == if releaseBranches then Recorded(old(Abs()), call, captureRaises)
                       else if captureRaises then old(Abs()) else Decide(old(Abs()))
    {
      ok := true;
      if releaseBranches { ok := RetireAllBranches(call); }
      if !ok || captureRaises { return false; }
      var _ := decisions.Issue(ROOT_BRANCH_ID);
    }

    /** A root commit outside combat, after its step. */
    method CommitOutsideCombat(call: ReleaseCall, captureRaises: bool)
      modifies this`bookkeeping, this`reservations, decisions
      modifies (if phase == null then {} else {phase})`records
      ensures Transition(old(Abs()), RootCommit(call, captureRaises), Abs())
    {
      if faulted || phase != null { return; }
      var _ := RecordRootCommit(true, call, captureRaises);
    }

    /** A root commit into a combat room: the board is adopted, then the commit recorded. */
    method CommitIntoCombat(entry: Entry)
      modifies this`bookkeeping, this`reservations, this`phase, this`faulted, decisions
      modifies (if phase == null then {} else {phase})`records
      ensures Transition(old(Abs()), EnterCombat(entry), Abs())
    {
      if faulted || phase != null { return; }
      match entry
      case GivesBack(decided) => if decided { DecideAndRestore(); }
      case Poisons =>
        var _ := decisions.Issue(ROOT_BRANCH_ID);
        PoisonCombatTransaction(ReleaseCall(false, {}));
      case Enters(call) => EnterAndRecord(call);
    }

    /** The decision published with the adoption is taken back, its number is not. */
    method DecideAndRestore()
      modifies decisions
      ensures decisions.current == old(decisions.current) && decisions.counter == old(decisions.counter) + 1
    {
      var prior := if ROOT_BRANCH_ID in decisions.current then Some(decisions.current[ROOT_BRANCH_ID]) else None;
      var _ := decisions.Issue(ROOT_BRANCH_ID);
      decisions.RestoreCurrent(ROOT_BRANCH_ID, prior);
    }

    method EnterAndRecord(call: ReleaseCall)
      requires phase == null
      modifies this`bookkeeping, this`reservations, this`phase, decisions
      ensures Abs() == Entered(old(Abs()), Enters(call))
    {
      var _ := decisions.Issue(ROOT_BRANCH_ID);
      phase := new CombatPhase();
      var _ := RetireAllBranches(call);
    }

    /** `leave_combat_phase` after a completing step; true if the run is back. */
    method LeaveCombatPhase(c: CombatCommit) returns (ok: bool)
      requires c.Completes? && phase != null
      modifies this`bookkeeping, this`reservations, this`phase, this`faulted, decisions`current
      modifies phase`records
      ensures ok == !(c.beginRaises || old(RetireRaises(Abs(), c.call)) || c.closeRaises)
      ensures Abs() == if ok then Retire(old(Abs()), c.call).(phase := None) else Left(old(Abs()), c)
    {
      ok := !c.beginRaises;
      if ok {
        ok := RetireAllBranches(c.call);
        ok := ok && !c.closeRaises;
      }
      if ok {
        phase := null;
      } else {
        PoisonCombatTransaction(c.again);
      }
    }

    /** A root commit in combat, whatever of it raises. */
    method CommitInsideCombat(c: CombatCommit)
      modifies this`bookkeeping, this`reservations, this`phase, this`faulted, decisions
      modifies (if phase == null then {} else {phase})`records
      ensures Transition(old(Abs()), CommitInCombat(c), Abs())
    {
      if faulted || phase == null { return; }
      match c
      case StepRaises(advanced, again) => if advanced { PoisonCombatTransaction(again); }
      case Continues(call, publishRaises, again) =>
        var ok := RecordRootCommit(true, call, publishRaises);
        if !ok { PoisonCombatTransaction(again); }
      case Completes(_, _, _, laterRaises, again) =>
        var ok := LeaveCombatPhase(c);
        if !ok { return; }
        ok := RecordRootCommit(false, c.call, laterRaises);
        if !ok { PoisonCombatTransaction(again); }
    }
  }
}
