/**
 Batches of the standalone combat instance (`emulate_actions` in API/instance_combat.py).

 It unwinds differently from a whole-run instance: Branch ids stay used, and a clean-up call that
 raises closes the instance instead of leaving a half-restored one.  Capacity and a parent's status are
 the phase's to tell.
 */
module StandaloneCombat {
  import opened Wrappers
  import opened Identifiers
  import opened PhaseRecords
  import opened CombatBranches
  import opened CombatContracts
  import opened CombatCoordinator
  import TextIds

  /** `view` is whether the shown decision can be branched from; a terminal Branch shows none. */
  datatype Entry = Entry(rngId: int, internalId: nat, terminal: bool, view: Option<bool>)

  datatype Combat = Combat(
    used: set<string>, entries: map<string, Entry>, current: map<string, string>, counter: nat,
    phase: PhaseState, maxBranches: nat, closed: bool)

  // ---- Admission -------------------------------------------------------------------------------------

  predicate Extendable(s: Combat, parent: string) {
    && parent in s.used && parent in s.entries && s.entries[parent].internalId in s.phase.records
    && (var status := s.phase.records[s.entries[parent].internalId].state;
        status != Cancelled && status != Released && status != Faulted)
    && s.entries[parent].view == Some(true)
  }

  /** One item against the state before the batch. */
  predicate Fits(s: Combat, it: Item, rootBranchable: bool) {
    && it.branch !in s.used
    && (if it.parent == ROOT_BRANCH_ID then rootBranchable
        else Extendable(s, it.parent) && it.rngId == s.entries[it.parent].rngId)
    && it.parent in s.current && s.current[it.parent] == it.decision
    && it.actionOffered
  }

  predicate Admitted(s: Combat, items: seq<Item>, rootBranchable: bool) {
    && !s.closed && 0 < |items| <= s.maxBranches
    && Distinct(items) && (forall it <- items :: Fits(s, it, rootBranchable))
    && |Active(s.phase)| + |items| <= s.maxBranches
  }

  // ---- What a batch may do ---------------------------------------------------------------------------

  ghost predicate Started(s: Combat) {
    && ROOT_BRANCH_ID in s.used && s.entries.Keys <= s.used && s.current.Keys <= s.used
    && Consistent(s.phase.table) && Numbered(s.phase)
  }

  /** A failed batch: everything but ids and counter as before; closed if the clean-up raised. */
  ghost predicate Undone(s: Combat, t: Combat, items: seq<Item>, c: Script) {
    && t == s.(used := t.used, counter := t.counter, phase := t.phase, closed := t.closed)
    && t.used == s.used + (if PollReached(items, c) then Branches(items) else {})
    && t.counter >= s.counter
    && t.closed == CleanUpRaises(items, c)
    && t.phase.table == s.phase.table
    && (if t.closed then Held(t.phase) == {}
        else
          && Grown(s.phase, t.phase, HandedCount(items, c))
          && (forall id <- NewIds(s.phase.serial, HandedCount(items, c)) :: t.phase.records[id].state == Released))
  }

  function EntryOf(it: Item, id: nat, o: Outcome): Entry {
    Entry(it.rngId, id, o.Ended?, if o.Next? then Some(o.branchable) else None)
  }

  predicate EnteredAt(t: Combat, counter: nat, it: Item, ids: seq<nat>, results: map<nat, Outcome>, k: nat)
    requires k < |ids| && ids[k] in results
  {
    && it.branch in t.entries && t.entries[it.branch] == EntryOf(it, ids[k], results[ids[k]])
    && DecidedAt(t.current, counter, it, ids, results, k)
  }

  ghost predicate KeepsEarlier(s: Combat, t: Combat, added: set<string>) {
    && s.entries.Keys <= t.entries.Keys <= s.entries.Keys + added
    && (forall b <- s.entries :: t.entries[b] == s.entries[b])
    && s.current.Keys <= t.current.Keys <= s.current.Keys + added
    && (forall b <- s.current :: t.current[b] == s.current[b])
    && t.maxBranches == s.maxBranches && t.closed == s.closed
  }

  function ParentIds(entries: map<string, Entry>, items: seq<Item>): seq<Option<nat>> {
    seq(|items|, k requires 0 <= k < |items| => ParentId(entries, items[k]))
  }

  function ParentId(entries: map<string, Entry>, it: Item): Option<nat> {
    if it.parent in entries then Some(entries[it.parent].internalId) else None
  }

  /** The phase after submission and poll. */
  function PolledPhase(s: Combat, items: seq<Item>, c: Script): PhaseState {
    PhaseState(
      PollRecords(SubmitRecords(s.phase.records, s.phase.serial, ParentIds(s.entries, items), |items|),
                  NewIds(s.phase.serial, |items|), c.poll),
      s.phase.serial + |items|, AllocateAll(s.phase.table, RngKeys(items)))
  }

  function SubmittedPhase(s: Combat, items: seq<Item>): PhaseState {
    AfterSubmit(s.phase, items, ParentIds(s.entries, items), |items|)
  }

  /** Every Branch has its entry, its numbered decision and its record at the phase. */
  ghost predicate AllEntered(s: Combat, t: Combat, items: seq<Item>, c: Script)
    requires Succeeds(s.phase.serial, items, c)
  {
    var ids := Serials(s.phase.serial, |items|);
    && t.used == s.used + Branches(items)
    && KeepsEarlier(s, t, Branches(items))
    && (forall k | 0 <= k < |items| :: EnteredAt(t, s.counter, items[k], ids, c.poll.results, k))
    && t.counter == s.counter + Opened(ids, c.poll.results, |ids|)
    && t.phase == PolledPhase(s, items, c)
  }

  ghost predicate BatchOutcome(s: Combat, items: seq<Item>, c: Script, t: Combat) {
    if !Admitted(s, items, c.rootBranchable) then t == s
    else if Succeeds(s.phase.serial, items, c) then AllEntered(s, t, items, c)
    else Undone(s, t, items, c)
  }

  // ---- The same, said of the dictionaries ------------------------------------------------------------

  /** The parent cannot be extended, or not by this item; its status is the phase's to tell. */
  predicate Unextendable(s: Combat, it: Item, rootBranchable: bool) {
    if it.parent == ROOT_BRANCH_ID then !rootBranchable
    else
      || it.parent !in s.entries
      || s.entries[it.parent].internalId !in s.phase.records
      || s.phase.records[s.entries[it.parent].internalId].state in {Cancelled, Released, Faulted}
      || s.entries[it.parent].view != Some(true)
      || s.entries[it.parent].rngId != it.rngId
  }

  predicate Objection(s: Combat, items: seq<Item>, k: nat, rootBranchable: bool)
    requires k < |items|
  {
    || items[k].branch in s.used
    || (exists j | 0 <= j < |items| && j != k :: items[j].branch == items[k].branch)
    || Unextendable(s, items[k], rootBranchable)
    || items[k].parent !in s.current || s.current[items[k].parent] != items[k].decision
    || !items[k].actionOffered
  }

  predicate Turned(s: Combat, items: seq<Item>, rootBranchable: bool) {
    || s.closed || items == [] || |Active(s.phase)| + |items| > s.maxBranches
    || exists k | 0 <= k < |items| :: Objection(s, items, k, rootBranchable)
  }

  /** One objection and the batch leaves everything as it was; without one it is entered or undone. */
  lemma BatchIsTurnedAwayIff(s: Combat, items: seq<Item>, c: Script, t: Combat)
    requires Started(s) && BatchOutcome(s, items, c, t)
    ensures Turned(s, items, c.rootBranchable) ==> t == s
    ensures !Turned(s, items, c.rootBranchable) ==>
              if Succeeds(s.phase.serial, items, c) then AllEntered(s, t, items, c) else Undone(s, t, items, c)
  {
    if Turned(s, items, c.rootBranchable) {
      if k :| 0 <= k < |items| && Objection(s, items, k, c.rootBranchable) {
        assert items[k] in items;
      }
    } else {
      forall it <- items ensures Fits(s, it, c.rootBranchable) {
        var k :| 0 <= k < |items| && items[k] == it;
        assert !Objection(s, items, k, c.rootBranchable);
      }
      forall j, k | 0 <= j < k < |items| ensures items[j].branch != items[k].branch {
        assert !Objection(s, items, k, c.rootBranchable);
      }
    }
  }

  /** Entry `k`: its own rng id, the k-th new internal id, its end and its view as its own result says. */
  lemma EnteredShows(s: Combat, items: seq<Item>, c: Script, t: Combat, k: nat, id: nat)
    requires Succeeds(s.phase.serial, items, c) && AllEntered(s, t, items, c) && k < |items|
    requires id == s.phase.serial + 1 + k
    ensures items[k].branch in t.entries && id in c.poll.results
    ensures var r, e := c.poll.results[id], t.entries[items[k].branch];
            && e.rngId == items[k].rngId && e.internalId == id && (e.terminal <==> r.Ended?)
            && e.view == (if r.Next? then Some(r.branchable) else None)
  {
    var ids := Serials(s.phase.serial, |items|);
    assert ids[k] == id && ids[k] in ids;
    assert EnteredAt(t, s.counter, items[k], ids, c.poll.results, k);
  }

  lemma PolledHangs(p: PhaseState, records: map<nat, Record>, parents: seq<Option<nat>>, poll: Poll, k: nat, id: nat)
    requires k < |parents| && id == p.serial + 1 + k && poll.Polled? && id in poll.results
    requires records ==
             PollRecords(SubmitRecords(p.records, p.serial, parents, |parents|), NewIds(p.serial, |parents|), poll)
    ensures HangsBelow(p.records, records, parents[k], id, poll.results[id])
  {
    SubmittedThenPolled(p, parents, poll.results, |parents|, k);
  }

  /** Its record is finished as its own result says, and hangs below its own parent's. */
  lemma EnteredHangsBelow(s: Combat, items: seq<Item>, c: Script, t: Combat, k: nat, id: nat)
    requires c.poll.Polled? && t.phase == PolledPhase(s, items, c) && k < |items|
    requires id == s.phase.serial + 1 + k && id in c.poll.results
    ensures var parent := if items[k].parent in s.entries then Some(s.entries[items[k].parent].internalId) else None;
            HangsBelow(s.phase.records, t.phase.records, parent, id, c.poll.results[id])
  {
    PolledHangs(s.phase, t.phase.records, ParentIds(s.entries, items), c.poll, k, id);
  }

  /** It gets the next free decision number, unless it failed. */
  lemma EnteredDecides(s: Combat, items: seq<Item>, c: Script, t: Combat, k: nat, id: nat, n: nat)
    requires Succeeds(s.phase.serial, items, c) && AllEntered(s, t, items, c) && k < |items|
    requires id == s.phase.serial + 1 + k && n == s.counter + Decisions(s.phase.serial, c.poll.results, k)
    ensures id in c.poll.results
    ensures if c.poll.results[id] == Failed then items[k].branch !in t.current
            else Decides(t.current, items[k].branch, n)
  {
    var ids := Serials(s.phase.serial, |items|);
    assert ids[k] == id && ids[k] in ids;
    assert EnteredAt(t, s.counter, items[k], ids, c.poll.results, k);
    OpenedAreDecisions(s.phase.serial, c.poll.results, |items|, k);
    DecidedIs(t.current, s.counter, items[k], ids, c.poll.results, k, id, n);
  }

  lemma SameActive(p: PhaseState, q: PhaseState, count: nat)
    requires Numbered(p) && Grown(p, q, count)
    requires forall id <- NewIds(p.serial, count) :: q.records[id].state == Released
    ensures Active(q) == Active(p)
  {
  }

  /**
   A failed batch can be sent again under the same ids exactly if it failed before registering and
   its clean-up, if any, returned; a whole-run instance needs only the latter.
   */
  lemma FailedBatchCanBeResentIff(s: Combat, items: seq<Item>, c: Script, t: Combat)
    requires Started(s) && Admitted(s, items, c.rootBranchable) && !Succeeds(s.phase.serial, items, c)
    requires BatchOutcome(s, items, c, t)
    ensures Admitted(t, items, c.rootBranchable) <==> !PollReached(items, c) && !CleanUpRaises(items, c)
    ensures t.entries == s.entries && t.current == s.current && t.phase.table == s.phase.table
    ensures !t.closed ==> Held(t.phase) == Held(s.phase)
  {
    assert items[0] in items;
    if PollReached(items, c) {
      assert items[0].branch in Branches(items);
      assert !Fits(t, items[0], c.rootBranchable);
    }
    if !CleanUpRaises(items, c) {
      SameActive(s.phase, t.phase, HandedCount(items, c));
      HeldAsBefore(s.phase, t.phase, HandedCount(items, c));
      if !PollReached(items, c) { StillFit(s, t, items, c.rootBranchable); }
    }
  }

  lemma StillFit(s: Combat, t: Combat, items: seq<Item>, rootBranchable: bool)
    requires t == s.(counter := t.counter, phase := t.phase)
    requires forall it <- items :: Fits(s, it, rootBranchable)
    requires forall k <- s.phase.records :: k in t.phase.records && t.phase.records[k] == s.phase.records[k]
    ensures forall it <- items :: Fits(t, it, rootBranchable)
  {
    forall it <- items ensures Fits(t, it, rootBranchable) {
      assert Fits(s, it, rootBranchable);
    }
  }

  // ---- Inside a batch --------------------------------------------------------------------------------

  function NewEntry(it: Item, id: nat): Entry {
    Entry(it.rngId, id, false, None)
  }

  function NewEntries(items: seq<Item>, ids: seq<nat>): seq<Entry>
    requires |ids| == |items|
  {
    seq(|items|, k requires 0 <= k < |items| => NewEntry(items[k], ids[k]))
  }

  ghost predicate HoldsNew(entries: map<string, Entry>, items: seq<Item>, ids: seq<nat>)
    requires |ids| == |items|
  {
    forall k | 0 <= k < |items| :: items[k].branch in entries && entries[items[k].branch] == NewEntry(items[k], ids[k])
  }

  predicate Waiting(s: Combat, it: Item, id: nat) {
    it.branch in s.entries && s.entries[it.branch] == NewEntry(it, id) && it.branch !in s.current
  }

  /** Only these Branches' entries and decisions have changed. */
  ghost predicate Touched(s: Combat, t: Combat, bids: set<string>) {
    && t == s.(entries := t.entries, current := t.current, counter := t.counter)
    && t.entries.Keys == s.entries.Keys && t.counter >= s.counter
    && (forall b <- s.entries | b !in bids :: t.entries[b] == s.entries[b])
    && s.current.Keys <= t.current.Keys <= s.current.Keys + bids
    && (forall b <- s.current :: t.current[b] == s.current[b])
  }

  /** `t` follows from `u` by finalizing one Branch. */
  predicate OneTouched(u: Combat, t: Combat, b: string) {
    && t == u.(entries := t.entries, current := t.current, counter := t.counter) && t.counter >= u.counter
    && b in u.entries && b in t.entries && t.entries == u.entries[b := t.entries[b]]
    && u.current.Keys <= t.current.Keys <= u.current.Keys + {b}
    && (forall x <- u.current :: t.current[x] == u.current[x])
  }

  lemma TouchedFurther(s: Combat, u: Combat, t: Combat, items: seq<Item>, k: nat)
    requires k < |items| && Touched(s, u, Branches(items)) && OneTouched(u, t, items[k].branch)
    ensures Touched(s, t, Branches(items))
  {
    assert items[k].branch in Branches(items);
  }

  /** Half-way through the results: those before `n` are entered, the others wait. */
  ghost predicate EnteredUpto(t: Combat, counter: nat, items: seq<Item>, ids: seq<nat>, results: map<nat, Outcome>,
      n: nat)
    requires n <= |items| == |ids|
  {
    && (forall j | 0 <= j < n :: ids[j] in results && EnteredAt(t, counter, items[j], ids, results, j))
    && (forall j | n <= j < |items| :: Waiting(t, items[j], ids[j]))
    && t.counter == counter + Opened(ids, results, n)
  }

  /** Half-way through the results, none has raised so far. */
  ghost predicate FinalizedUpto(s: Combat, t: Combat, items: seq<Item>, ids: seq<nat>, results: map<nat, Outcome>,
      n: nat)
    requires n <= |items| == |ids|
  {
    && Touched(s, t, Branches(items)) && EnteredUpto(t, s.counter, items, ids, results, n)
    && (forall j | 0 <= j < n :: ids[j] in results && !PublishRaises(results[ids[j]]))
  }

  lemma NothingEntered(s: Combat, items: seq<Item>, ids: seq<nat>, results: map<nat, Outcome>)
    requires |ids| == |items| && forall k | 0 <= k < |items| :: Waiting(s, items[k], ids[k])
    ensures FinalizedUpto(s, s, items, ids, results, 0)
  {
  }

  lemma AllFinalized(s: Combat, t: Combat, items: seq<Item>, ids: seq<nat>, results: map<nat, Outcome>)
    requires |ids| == |items| && FinalizedUpto(s, t, items, ids, results, |items|)
    ensures Answered(ids, results) && Touched(s, t, Branches(items))
    ensures EnteredUpto(t, s.counter, items, ids, results, |items|)
  {
  }

  /** What finalizing one Branch does to its own decision. */
  predicate DecidedNext(u: Combat, t: Combat, it: Item, ids: seq<nat>, results: map<nat, Outcome>, k: nat)
    requires k < |ids| && ids[k] in results
  {
    if results[ids[k]].Failed? then t.current == u.current && t.counter == u.counter
    else t.current == u.current[it.branch := TextIds.DecisionId(it.branch, u.counter)] && t.counter == u.counter + 1
  }

  lemma EarlierStaysEntered(u: Combat, t: Combat, counter: nat, items: seq<Item>, ids: seq<nat>,
                            results: map<nat, Outcome>, k: nat, j: nat)
    requires j < k < |items| == |ids| && Distinct(items) && ids[j] in results && ids[k] in results
    requires OneTouched(u, t, items[k].branch) && DecidedNext(u, t, items[k], ids, results, k)
    requires EnteredAt(u, counter, items[j], ids, results, j)
    ensures EnteredAt(t, counter, items[j], ids, results, j)
  {
    assert items[j].branch != items[k].branch;
  }

  lemma OneMoreEntered(u: Combat, t: Combat, counter: nat, items: seq<Item>, ids: seq<nat>,
                       results: map<nat, Outcome>, k: nat)
    requires k < |items| == |ids| && Distinct(items) && ids[k] in results
    requires EnteredUpto(u, counter, items, ids, results, k)
    requires OneTouched(u, t, items[k].branch) && DecidedNext(u, t, items[k], ids, results, k)
    requires t.entries[items[k].branch] == EntryOf(items[k], ids[k], results[ids[k]])
    ensures EnteredUpto(t, counter, items, ids, results, k + 1)
  {
    assert Waiting(u, items[k], ids[k]);
    forall j | 0 <= j < k ensures ids[j] in results && EnteredAt(t, counter, items[j], ids, results, j) {
      EarlierStaysEntered(u, t, counter, items, ids, results, k, j);
    }
    forall j | k < j < |items| ensures Waiting(t, items[j], ids[j]) {
      assert Waiting(u, items[j], ids[j]) && items[j].branch != items[k].branch;
    }
  }

  /** What a batch that stopped somewhere leaves to be undone. */
  ghost predicate Attempted(s: Combat, t: Combat, items: seq<Item>, c: Script) {
    && t.used == s.used + (if PollReached(items, c) then Branches(items) else {})
    && KeepsEarlier(s, t, Branches(items)) && t.counter >= s.counter
    && Grown(s.phase, t.phase, HandedCount(items, c)) && s.phase.table.order <= t.phase.table.order
  }

  /** The items' ids and entries are in. */
  ghost predicate RegisteredAll(s: Combat, t: Combat, items: seq<Item>) {
    && t == s.(used := s.used + Branches(items), entries := t.entries)
    && t.entries.Keys == s.entries.Keys + Branches(items)
    && (forall b <- s.entries :: t.entries[b] == s.entries[b])
  }

  lemma AttemptedSince(s: Combat, u: Combat, v: Combat, t: Combat, items: seq<Item>, c: Script)
    requires PollReached(items, c) && u == s.(phase := u.phase) && RegisteredAll(u, v, items)
    requires forall it <- items :: it.branch !in s.entries && it.branch !in s.current
    requires Touched(v.(phase := t.phase), t, Branches(items))
    requires t.phase == PolledPhase(s, items, c) && PolledGrown(s, items, c)
    ensures Attempted(s, t, items, c)
  {
    assert Branches(items) !! s.entries.Keys;
  }

  /** Submission and poll have added records and hypotheses, and changed none. */
  ghost predicate PolledGrown(s: Combat, items: seq<Item>, c: Script) {
    && Grown(s.phase, PolledPhase(s, items, c), |items|)
    && s.phase.table.order <= PolledPhase(s, items, c).table.order
  }

  lemma PolledPhaseGrows(s: Combat, items: seq<Item>, c: Script)
    requires Started(s)
    ensures PolledGrown(s, items, c)
  {
    var q := SubmittedPhase(s, items);
    AllocateAllExtends(s.phase.table, RngKeys(items));
    SubmitGrows(s.phase, q, ParentIds(s.entries, items), |items|);
    PollStatesOnly(s.phase, q, |items|, c.poll);
    GrownThenStates(s.phase, q, PolledPhase(s, items, c), |items|);
  }

  lemma RegisteredIsAttempted(s: Combat, v: Combat, t: Combat, items: seq<Item>, c: Script)
    requires PollReached(items, c) && RegisteredAll(s.(phase := v.phase), v, items)
    requires t == v.(phase := PolledPhase(s, items, c)) && PolledGrown(s, items, c)
    ensures Attempted(s, t, items, c)
  {
  }

  lemma SubmittedIsAttempted(s: Combat, t: Combat, items: seq<Item>, c: Script)
    requires t == s.(phase := t.phase) && !PollReached(items, c)
    requires Grown(s.phase, t.phase, HandedCount(items, c)) && s.phase.table.order <= t.phase.table.order
    ensures Attempted(s, t, items, c)
  {
  }

  lemma GivenBackStaysAttempted(s: Combat, t: Combat, r: Combat, items: seq<Item>, c: Script)
    requires Attempted(s, t, items, c) && r == t.(phase := r.phase) && r.phase.table == t.phase.table
    requires Grown(s.phase, r.phase, HandedCount(items, c))
    ensures Attempted(s, r, items, c)
  {
  }

  /** Entries, decisions and hypotheses are back; ids, the counter and the phase's records are not. */
  predicate RestoredTo(s: Combat, r: Combat, items: seq<Item>, c: Script) {
    && r == s.(used := r.used, counter := r.counter, phase := r.phase)
    && r.used == s.used + (if PollReached(items, c) then Branches(items) else {})
    && r.phase.table == s.phase.table && r.counter >= s.counter
  }

  /** Restored, and closed with nothing held if the clean-up raised. */
  lemma RestoredIsUndone(s: Combat, r: Combat, t: Combat, items: seq<Item>, c: Script)
    requires !s.closed && RestoredTo(s, r, items, c)
    requires !CleanUpRaises(items, c) ==>
               && t == r && Grown(s.phase, r.phase, HandedCount(items, c))
               && (forall id <- NewIds(s.phase.serial, HandedCount(items, c)) :: r.phase.records[id].state == Released)
    requires CleanUpRaises(items, c) ==>
               t == r.(phase := t.phase, closed := true) && t.phase.table == r.phase.table && Held(t.phase) == {}
    ensures Undone(s, t, items, c)
  {
  }

  lemma FinalizedIsEntered(s: Combat, u: Combat, v: Combat, t: Combat, items: seq<Item>, c: Script)
    requires Succeeds(s.phase.serial, items, c) && u == s.(phase := u.phase) && RegisteredAll(u, v, items)
    requires forall it <- items :: it.branch !in s.entries && it.branch !in s.current
    requires Touched(v.(phase := t.phase), t, Branches(items))
    requires EnteredUpto(t, s.counter, items, Serials(s.phase.serial, |items|), c.poll.results, |items|)
    requires t.phase == PolledPhase(s, items, c)
    ensures AllEntered(s, t, items, c)
  {
    assert Branches(items) !! s.entries.Keys;
  }

  lemma ForgottenIsRestored(s: Combat, t: Combat, items: seq<Item>, c: Script)
    requires Started(s) && Attempted(s, t, items, c) && forall it <- items :: it.branch !in s.used
    ensures t.entries - Branches(items) == s.entries && t.current - Branches(items) == s.current
  {
    assert Branches(items) !! s.used;
    TakingBackRestores(s.entries, t.entries, Branches(items));
    TakingBackRestores(s.current, t.current, Branches(items));
  }

  lemma FitsAreFresh(s: Combat, items: seq<Item>, rootBranchable: bool)
    requires Started(s) && Admitted(s, items, rootBranchable)
    ensures forall it <- items :: it.branch !in s.used && it.branch !in s.entries && it.branch !in s.current
  {
    forall it <- items ensures it.branch !in s.used {
      assert Fits(s, it, rootBranchable);
    }
  }

  // ---- The instance ----------------------------------------------------------------------------------

  class CombatInstance {
    const branchIds: BranchIdRegistry
    const decisions: DecisionPointRegistry
    const phase: CombatPhase
    const maxBranches: nat
    var bookkeeping: map<string, Entry>
    var closed: bool

    ghost function Abs(): Combat
      reads this, branchIds, decisions, phase, phase.rng
    {
      Combat(branchIds.everUsed, bookkeeping, decisions.current, decisions.counter, phase.Abs(), maxBranches, closed)
    }

    constructor (capacity: nat)
      ensures fresh(branchIds) && fresh(decisions) && fresh(phase) && fresh(phase.rng)
      ensures Started(Abs()) && !closed && maxBranches == capacity
    {
      branchIds := new BranchIdRegistry();
      decisions := new DecisionPointRegistry();
      phase := new CombatPhase();
      maxBranches, bookkeeping, closed := capacity, map[], false;
      new;
      var _ := decisions.Issue(ROOT_BRANCH_ID);
    }

    method Admit(items: seq<Item>, rootBranchable: bool) returns (ok: bool)
      ensures ok == Admitted(Abs(), items, rootBranchable)
    {
      if closed || items == [] || |items| > maxBranches { return false; }
      var seen: set<string> := {};
      for k := 0 to |items|
        invariant seen == Branches(items[..k])
        invariant forall i, j | 0 <= i < j < k :: items[i].branch != items[j].branch
        invariant forall j | 0 <= j < k :: Fits(Abs(), items[j], rootBranchable)
      {
        var it := items[k];
        if it.branch in seen {
          var j :| 0 <= j < k && items[j].branch == it.branch;
          return false;
        }
        ok := AdmitItem(it, rootBranchable);
        if !ok {
          assert it in items;
          return;
        }
        BranchesGrow(items, k);
        forall j | 0 <= j < k ensures items[j].branch != it.branch {
          assert items[..k][j] in items[..k];
        }
        seen := seen + {it.branch};
      }
      var active := phase.ActiveBranchCount();
      ok := active + |items| <= maxBranches;
    }

    method AdmitItem(it: Item, rootBranchable: bool) returns (ok: bool)
      ensures ok == Fits(Abs(), it, rootBranchable)
    {
      if it.branch in branchIds.everUsed { return false; }
      if it.parent == ROOT_BRANCH_ID {
        if !rootBranchable { return false; }
      } else {
        if it.parent !in branchIds.everUsed || it.parent !in bookkeeping { return false; }
        var parent := bookkeeping[it.parent];
        if parent.internalId !in phase.records { return false; }
        var status := phase.records[parent.internalId].state;
        if status == Cancelled || status == Released || status == Faulted { return false; }
        if it.rngId != parent.rngId || parent.view != Some(true) { return false; }
      }
      ok := it.parent in decisions.current && decisions.current[it.parent] == it.decision && it.actionOffered;
    }

    /** Ids first, then entries, for every item. */
    method RegisterAll(items: seq<Item>, ids: seq<nat>)
      requires |ids| == |items| && Distinct(items) && forall it <- items :: it.branch !in bookkeeping
      modifies this`bookkeeping, branchIds
      ensures RegisteredAll(old(Abs()), Abs(), items)
      ensures HoldsNew(bookkeeping, items, ids)
    {
      RegisterIds(items);
      EnterAll(items, ids);
      var values := NewEntries(items, ids);
      PutAllKeys(old(bookkeeping), items, values, |items|);
      assert items[..|items|] == items;
      forall b <- old(bookkeeping) ensures bookkeeping[b] == old(bookkeeping)[b] {
        PutAllKeeps(old(bookkeeping), items, values, |items|, b);
      }
      forall k | 0 <= k < |items|
        ensures items[k].branch in bookkeeping && bookkeeping[items[k].branch] == NewEntry(items[k], ids[k])
      {
        PutAllHolds(old(bookkeeping), items, values, |items|, k);
      }
    }

    method RegisterIds(items: seq<Item>)
      modifies branchIds
      ensures branchIds.everUsed == old(branchIds.everUsed) + Branches(items)
    {
      for k := 0 to |items|
        invariant branchIds.everUsed == old(branchIds.everUsed) + Branches(items[..k])
      {
        BranchesGrow(items, k);
        var _ := branchIds.Register(items[k].branch);
      }
      assert items[..|items|] == items;
    }

    method EnterAll(items: seq<Item>, ids: seq<nat>)
      requires |ids| == |items|
      modifies this`bookkeeping
      ensures bookkeeping == PutAll(old(bookkeeping), items, NewEntries(items, ids), |items|)
    {
      for k := 0 to |items|
        invariant bookkeeping == PutAll(old(bookkeeping), items, NewEntries(items, ids), k)
      {
        bookkeeping := bookkeeping[items[k].branch := NewEntry(items[k], ids[k])];
      }
    }

    /** `_finalize_branch_result`. */
    method FinalizeBranch(it: Item, ids: seq<nat>, k: nat, results: map<nat, Outcome>) returns (ok: bool)
      requires k < |ids| && Waiting(Abs(), it, ids[k])
      modifies this`bookkeeping, decisions
      ensures ok == (ids[k] in results && !PublishRaises(results[ids[k]]))
      ensures OneTouched(old(Abs()), Abs(), it.branch)
      ensures ok ==> bookkeeping[it.branch] == EntryOf(it, ids[k], results[ids[k]])
      ensures ok ==> DecidedNext(old(Abs()), Abs(), it, ids, results, k)
    {
      if ids[k] !in results { return false; }
      var entry := bookkeeping[it.branch];
      match results[ids[k]]
      case Failed => ok := true;
      case Unreadable => ok := false;
      case Ended(known) =>
        if !known { return false; }
        bookkeeping := bookkeeping[it.branch := entry.(terminal := true)];
        var _ := decisions.Issue(it.branch);
        ok := true;
      case Next(branchable, raises) =>
        bookkeeping := bookkeeping[it.branch := entry.(view := Some(branchable))];
        var _ := decisions.Issue(it.branch);
        ok := !raises;
    }

    /** Results in item order, until one raises. */
    method FinalizeAll(items: seq<Item>, ids: seq<nat>, results: map<nat, Outcome>, ghost s: Combat) returns (ok: bool)
      requires |ids| == |items| && Distinct(items) && Abs() == s
      requires forall k | 0 <= k < |items| :: Waiting(s, items[k], ids[k])
      modifies this`bookkeeping, decisions
      ensures ok == Answered(ids, results)
      ensures Touched(s, Abs(), Branches(items))
      ensures ok ==> EnteredUpto(Abs(), s.counter, items, ids, results, |items|)
    {
      NothingEntered(s, items, ids, results);
      for k := 0 to |items|
        invariant FinalizedUpto(s, Abs(), items, ids, results, k)
      {
        ok := FinalizeNext(items, ids, results, k, s);
        if !ok { return; }
      }
      AllFinalized(s, Abs(), items, ids, results);
      ok := true;
    }

    method FinalizeNext(items: seq<Item>, ids: seq<nat>, results: map<nat, Outcome>, k: nat, ghost s: Combat)
      returns (ok: bool)
      requires k < |items| == |ids| && Distinct(items) && FinalizedUpto(s, Abs(), items, ids, results, k)
      modifies this`bookkeeping, decisions
      ensures ok ==> FinalizedUpto(s, Abs(), items, ids, results, k + 1)
      ensures !ok ==> !Answered(ids, results) && Touched(s, Abs(), Branches(items))
    {
      ghost var u := Abs();
      assert Waiting(u, items[k], ids[k]);
      ok := FinalizeBranch(items[k], ids, k, results);
      TouchedFurther(s, u, Abs(), items, k);
      if ok {
        OneMoreEntered(u, Abs(), s.counter, items, ids, results, k);
      } else {
        assert ids[k] in ids;
      }
    }

    /** Everything from the first work item to the last result. */
    method Attempt(items: seq<Item>, c: Script) returns (ok: bool, ids: seq<nat>)
      requires Started(Abs()) && Distinct(items)
      requires forall it <- items ::
                 it.branch !in branchIds.everUsed && it.branch !in bookkeeping && it.branch !in decisions.current
      modifies this`bookkeeping, branchIds, decisions, phase, phase.rng
      ensures ok == Succeeds(old(phase.serial), items, c) && ids == HandedOut(old(phase.serial), items, c)
      ensures ok ==> AllEntered(old(Abs()), Abs(), items, c)
      ensures !ok ==> Attempted(old(Abs()), Abs(), items, c)
    {
      ghost var s := Abs();
      ok, ids := phase.SubmitWorkItems(items, ParentIds(bookkeeping, items), c);
      if ok && |ids| == |items| {
        ok := RegisterAndFinalize(items, ids, c, s);
      } else {
        SubmittedIsAttempted(s, Abs(), items, c);
        ok := false;
      }
    }

    /** What follows once as many internal ids as items came back. */
    method RegisterAndFinalize(items: seq<Item>, ids: seq<nat>, c: Script, ghost s: Combat) returns (ok: bool)
      requires Started(s) && Distinct(items) && PollReached(items, c) && ids == Serials(s.phase.serial, |items|)
      requires forall it <- items :: it.branch !in s.used && it.branch !in s.entries && it.branch !in s.current
      requires Abs() == s.(phase := SubmittedPhase(s, items))
      modifies this`bookkeeping, branchIds, decisions, phase`records
      ensures ok == Succeeds(s.phase.serial, items, c)
      ensures ok ==> AllEntered(s, Abs(), items, c)
      ensures Attempted(s, Abs(), items, c)
    {
      RegisterAll(items, ids);
      ghost var v := Abs();
      ok := PollNew(items, ids, c, s);
      PolledPhaseGrows(s, items, c);
      if ok {
        ok := FinalizePolled(items, ids, c, s, v);
      } else {
        RegisteredIsAttempted(s, v, Abs(), items, c);
      }
    }

    method PollNew(items: seq<Item>, ids: seq<nat>, c: Script, ghost s: Combat) returns (ok: bool)
      requires ids == Serials(s.phase.serial, |items|) && phase.Abs() == SubmittedPhase(s, items)
      modifies phase`records
      ensures ok == c.poll.Polled?
      ensures phase.Abs() == PolledPhase(s, items, c)
    {
      SerialsAreNew(s.phase.serial, |items|);
      ok := phase.PollResults(ids, c.poll);
    }

    /** The results of a poll that returned. */
    method FinalizePolled(items: seq<Item>, ids: seq<nat>, c: Script, ghost s: Combat, ghost v: Combat)
      returns (ok: bool)
      requires Distinct(items) && PollReached(items, c) && c.poll.Polled? && ids == Serials(s.phase.serial, |items|)
      requires forall it <- items :: it.branch !in s.entries && it.branch !in s.current
      requires RegisteredAll(s.(phase := v.phase), v, items) && HoldsNew(v.entries, items, ids)
      requires Abs() == v.(phase := PolledPhase(s, items, c)) && PolledGrown(s, items, c)
      modifies this`bookkeeping, decisions
      ensures ok == Succeeds(s.phase.serial, items, c)
      ensures ok ==> AllEntered(s, Abs(), items, c)
      ensures Attempted(s, Abs(), items, c)
    {
      forall k | 0 <= k < |items| ensures Waiting(Abs(), items[k], ids[k]) {
        assert items[k] in items && items[k].branch in Branches(items);
      }
      ok := FinalizeAll(items, ids, c.poll.results, Abs());
      if ok { FinalizedIsEntered(s, s.(phase := v.phase), v, Abs(), items, c); }
      AttemptedSince(s, s.(phase := v.phase), v, Abs(), items, c);
    }

    method EmulateActions(items: seq<Item>, c: Script) returns (published: bool)
      requires Started(Abs())
      modifies this, branchIds, decisions, phase, phase.rng
      ensures BatchOutcome(old(Abs()), items, c, Abs())
      ensures published == old(Admitted(Abs(), items, c.rootBranchable) && Succeeds(phase.serial, items, c))
    {
      ghost var s := Abs();
      published := Admit(items, c.rootBranchable);
      if !published { return; }
      FitsAreFresh(s, items, c.rootBranchable);
      var marker := phase.rng.Snapshot();
      var ids;
      published, ids := Attempt(items, c);
      if !published { Undo(items, ids, marker, c, s); }
    }

    /** Cancel and release are both tried; everything is restored whatever they do, then errors close. */
    method Undo(items: seq<Item>, ids: seq<nat>, marker: nat, c: Script, ghost s: Combat)
      requires Started(s) && !s.closed && ids == HandedOut(s.phase.serial, items, c) && Attempted(s, Abs(), items, c)
      requires forall it <- items :: it.branch !in s.used
      requires marker == |s.phase.table.order|
      modifies this`bookkeeping, this`closed, decisions`current, phase`records, phase.rng
      ensures Undone(s, Abs(), items, c)
    {
      ghost var t := Abs();
      var errors := CancelAndRelease(ids, c, s.phase);
      GivenBackStaysAttempted(s, t, Abs(), items, c);
      RestoreAll(items, marker, c, s);
      CloseOnErrors(errors, items, c, s);
    }

    method RestoreAll(items: seq<Item>, marker: nat, c: Script, ghost s: Combat)
      requires Started(s) && Attempted(s, Abs(), items, c) && forall it <- items :: it.branch !in s.used
      requires marker == |s.phase.table.order|
      modifies this`bookkeeping, decisions`current, phase.rng
      ensures RestoredTo(s, Abs(), items, c) && phase.Abs() == old(phase.Abs()).(table := s.phase.table)
    {
      ForgottenIsRestored(s, Abs(), items, c);
      TakeBack(items);
      phase.RestoreHypotheses(marker, s.phase.table);
    }

    method CloseOnErrors(errors: bool, items: seq<Item>, c: Script, ghost s: Combat)
      requires !s.closed && RestoredTo(s, Abs(), items, c) && errors == CleanUpRaises(items, c)
      requires !errors ==> Grown(s.phase, phase.Abs(), HandedCount(items, c))
      requires !errors ==>
                 forall id <- NewIds(s.phase.serial, HandedCount(items, c)) :: phase.records[id].state == Released
      modifies this`closed, phase`records
      ensures Undone(s, Abs(), items, c)
    {
      ghost var r := Abs();
      if errors { Close(); }
      RestoredIsUndone(s, r, Abs(), items, c);
    }

    /** Both calls are tried; true if either raised. */
    method CancelAndRelease(ids: seq<nat>, c: Script, ghost p: PhaseState) returns (errors: bool)
      requires Numbered(p) && ids == Serials(p.serial, |ids|) && Grown(p, phase.Abs(), |ids|)
      modifies phase`records
      ensures errors == (ids != [] && (c.cancelRaises || c.release.raises))
      ensures Grown(p, phase.Abs(), |ids|)
      ensures !errors ==> forall id <- NewIds(p.serial, |ids|) :: phase.records[id].state == Released
    {
      if ids == [] {
        assert NewIds(p.serial, 0) == {};
        return false;
      }
      if !c.cancelRaises { phase.CancelNew(ids, p); }
      ghost var q := phase.Abs();
      SerialsAreNew(p.serial, |ids|);
      var ok := phase.Release(IdSet(ids), c.release);
      ReleaseStatesOnly(p, q, |ids|, phase.records, c.release);
      GrownThenStates(p, q, phase.Abs(), |ids|);
      errors := c.cancelRaises || !ok;
    }

    /** Entries and decisions, whatever the phase calls did. */
    method TakeBack(items: seq<Item>)
      modifies this`bookkeeping, decisions`current
      ensures bookkeeping == old(bookkeeping) - Branches(items)
      ensures decisions.current == old(decisions.current) - Branches(items)
    {
      for k := 0 to |items|
        invariant bookkeeping == old(bookkeeping) - Branches(items[..k])
        invariant decisions.current == old(decisions.current) - Branches(items[..k])
      {
        BranchesGrow(items, k);
        bookkeeping := bookkeeping - {items[k].branch};
        decisions.Clear(items[k].branch);
      }
      assert items[..|items|] == items;
    }

    /** Closes the instance and with it the phase, which gives every record up. */
    method Close()
      modifies this`closed, phase`records
      ensures closed && (old(closed) || Held(phase.Abs()) == {})
      ensures old(closed) ==> phase.records == old(phase.records)
    {
      if closed { return; }
      closed := true;
      var all := phase.records.Keys;
      var _ := phase.Release(all, ReleaseCall(false, {}));
    }
  }
}
