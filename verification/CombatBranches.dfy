/**
 Combat Branches of a whole-run instance (`_emulate_combat_phase_actions`, capacity reservations,
 cancel, release, status, commits in combat, poisoning and `_cancel_and_release_all_branches` in
 API/instance_whole_run.py).

 `Transition` says what an operation may do to the state.  Three questions are asked of it: do the
 reservations stay within capacity, is every reserved id a bookkept Branch that has not been released,
 and do the records of the phase agree.  Module CombatCoordinator takes the same steps in place.
 */
module CombatBranches {
  import opened Wrappers
  import opened Identifiers
  import opened PhaseRecords
  import TextIds

  /** What a Branch shows; only a combat view can be extended, and only with a decision context. */
  datatype View = NoView | EventView | CombatView(branchable: bool)

  datatype Book = Book(rngId: int, internalId: Option<nat>, status: Status, terminal: bool, view: View)

  datatype State = State(
    used: set<string>, books: map<string, Book>, current: map<string, string>, counter: nat,
    reserved: set<string>, phase: Option<PhaseState>, faulted: bool, maxBranches: nat)

  // ---- Admission -------------------------------------------------------------------------------------

  function ViewOf(s: State, parent: string, rootBranchable: bool): Option<View> {
    if s.phase.None? then None
    else if parent == ROOT_BRANCH_ID then Some(CombatView(rootBranchable))
    else if parent !in s.books then None
    else
      var b := s.books[parent];
      if b.status == Cancelled || b.status == Released || b.status == Faulted || b.terminal then None
      else if !b.view.CombatView? then None
      else Some(b.view)
  }

  predicate ItemOk(s: State, items: seq<Item>, k: nat, rootBranchable: bool)
    requires k < |items|
  {
    var it := items[k];
    && (forall j | 0 <= j < k :: items[j].branch != it.branch)
    && it.branch !in s.used
    && (forall j | 0 <= j <= k :: items[j].branch != it.parent)
    && (var v := ViewOf(s, it.parent, rootBranchable); v.Some? && v.value.CombatView? && v.value.branchable)
    && (it.parent != ROOT_BRANCH_ID ==> it.parent in s.books && it.rngId == s.books[it.parent].rngId)
    && it.parent in s.current && s.current[it.parent] == it.decision
    && it.actionOffered
  }

  predicate Admissible(s: State, items: seq<Item>, rootBranchable: bool) {
    && !s.faulted
    && 0 < |items| <= s.maxBranches
    && s.phase.Some?
    && (forall k | 0 <= k < |items| :: ItemOk(s, items, k, rootBranchable))
    && |s.reserved| + |items| <= s.maxBranches
  }

  // ---- What a batch may do ---------------------------------------------------------------------------

  function Serial(s: State): nat {
    if s.phase.Some? then s.phase.value.serial else 0
  }

  /** The record a Branch hangs under at the phase; the root has none. */
  function ParentOf(books: map<string, Book>, it: Item): Option<nat> {
    if it.parent in books then books[it.parent].internalId else None
  }

  function Parents(books: map<string, Book>, items: seq<Item>): seq<Option<nat>> {
    seq(|items|, k requires 0 <= k < |items| => ParentOf(books, items[k]))
  }

  predicate PublishRaises(o: Outcome) {
    o.Unreadable? || (o.Next? && o.fieldsRaise) || (o.Ended? && !o.outcomeKnown)
  }

  predicate Answered(ids: seq<nat>, results: map<nat, Outcome>) {
    forall id <- ids :: id in results && !PublishRaises(results[id])
  }

  predicate Succeeds(serial: nat, items: seq<Item>, c: Script) {
    && PollReached(items, c)
    && c.poll.Polled? && Answered(Serials(serial, |items|), c.poll.results)
  }

  predicate CleanUpRaises(items: seq<Item>, c: Script) {
    HandedCount(items, c) > 0 && (c.cancelRaises || c.release.raises)
  }

  function BookOf(it: Item, id: nat, o: Outcome): Book {
    Book(it.rngId, Some(id), Finished(o), o.Ended?, if o.Next? then CombatView(o.branchable) else NoView)
  }

  /** How many decisions the first `n` results open; a failed Branch has none. */
  function Opened(ids: seq<nat>, results: map<nat, Outcome>, n: nat): nat
    requires n <= |ids|
  {
    if n == 0 then 0
    else Opened(ids, results, n - 1) + if ids[n - 1] in results && results[ids[n - 1]].Failed? then 0 else 1
  }

  /** The decision Branch `k` of a batch gets, numbered after those before it; a failed one gets none. */
  predicate DecidedAt(current: map<string, string>, counter: nat, it: Item, ids: seq<nat>,
                      results: map<nat, Outcome>, k: nat)
    requires k < |ids| && ids[k] in results
  {
    if results[ids[k]].Failed? then it.branch !in current
    else
      it.branch in current && current[it.branch] == TextIds.DecisionId(it.branch, counter + Opened(ids, results, k))
  }

  /** Branch `k` is bookkept as its result says, with a decision of its own unless it failed. */
  ghost predicate PublishedAt(t: State, counter: nat, it: Item, ids: seq<nat>, results: map<nat, Outcome>, k: nat)
    requires k < |ids| && ids[k] in results
  {
    && it.branch in t.books && t.books[it.branch] == BookOf(it, ids[k], results[ids[k]])
    && DecidedAt(t.current, counter, it, ids, results, k)
  }

  /** The phase's record of it says the same, and hangs under its parent's. */
  ghost predicate RecordedAt(p: PhaseState, q: PhaseState, parent: Option<nat>, id: nat, results: map<nat, Outcome>) {
    id in results && id in q.records && q.records[id] == Record(Finished(results[id]), AboveOf(p.records, parent))
  }

  ghost predicate KeepsOthers(s: State, t: State, added: set<string>) {
    && s.books.Keys <= t.books.Keys <= s.books.Keys + added
    && (forall b <- s.books :: t.books[b] == s.books[b])
    && s.current.Keys <= t.current.Keys <= s.current.Keys + added
    && (forall b <- s.current :: t.current[b] == s.current[b])
    && t.maxBranches == s.maxBranches && t.faulted == s.faulted
  }

  ghost predicate AllPublished(s: State, t: State, items: seq<Item>, results: map<nat, Outcome>)
    requires forall id <- Serials(Serial(s), |items|) :: id in results
  {
    var ids := Serials(Serial(s), |items|);
    forall k | 0 <= k < |items| :: PublishedAt(t, s.counter, items[k], ids, results, k)
  }

  ghost predicate AllRecorded(s: State, t: State, items: seq<Item>, results: map<nat, Outcome>) {
    && s.phase.Some? && t.phase.Some?
    && forall k | 0 <= k < |items| ::
         RecordedAt(s.phase.value, t.phase.value, ParentOf(s.books, items[k]), Serial(s) + 1 + k, results)
  }

  /** Everything is public: the Branches, their reservations, their decisions, their hypotheses. */
  ghost predicate Published(s: State, t: State, items: seq<Item>, c: Script)
    requires Succeeds(Serial(s), items, c)
  {
    var ids := Serials(Serial(s), |items|);
    && t.used == s.used + Branches(items)
    && t.reserved == s.reserved + Branches(items)
    && KeepsOthers(s, t, Branches(items))
    && AllPublished(s, t, items, c.poll.results)
    && t.counter == s.counter + Opened(ids, c.poll.results, |ids|)
    && s.phase.Some? && t.phase.Some?
    && t.phase.value.table == AllocateAll(s.phase.value.table, RngKeys(items))
    && Grown(s.phase.value, t.phase.value, |items|)
    && AllRecorded(s, t, items, c.poll.results)
  }

  /** Nothing is public; the decision counter may have moved, and the phase keeps tombstones. */
  ghost predicate RolledBack(s: State, t: State, items: seq<Item>, count: nat) {
    && t == s.(counter := t.counter, phase := t.phase, reserved := s.reserved - Branches(items))
    && t.counter >= s.counter
    && s.phase.Some? && t.phase.Some? && t.phase.value.table == s.phase.value.table
    && Grown(s.phase.value, t.phase.value, count)
    && (forall id <- NewIds(Serial(s), count) :: t.phase.value.records[id].state == Released)
  }

  function Registered(items: seq<Item>, count: nat): (n: nat)
    ensures n <= |items| && n <= count
  {
    if count <= |items| then count else |items|
  }

  predicate HeldBy(b: Book, id: nat) {
    b.internalId == Some(id) && (b.status == Completed || b.status == Faulted)
  }

  ghost predicate AllHeld(t: State, items: seq<Item>, n: nat, serial: nat)
    requires n <= |items|
  {
    forall k | 0 <= k < n :: items[k].branch in t.books && HeldBy(t.books[items[k].branch], serial + 1 + k)
  }

  ghost predicate ReleasedIfGivenBack(q: PhaseState, items: seq<Item>, c: Script, serial: nat) {
    forall id <- NewIds(serial, HandedCount(items, c)) ::
      id in q.records && (q.records[id].state == Released <==> GivenBack(items, c, id))
  }

  /** A raising clean-up skips the restoration: reservations, ids and books of the batch stay. */
  ghost predicate Leaked(s: State, t: State, items: seq<Item>, c: Script) {
    var n := Registered(items, HandedCount(items, c));
    && t.used == s.used + Branches(items[..n])
    && t.reserved == s.reserved + Branches(items)
    && KeepsOthers(s, t, Branches(items[..n]))
    && AllHeld(t, items, n, Serial(s))
    && t.counter >= s.counter
    && s.phase.Some? && t.phase.Some?
    && Grown(s.phase.value, t.phase.value, HandedCount(items, c))
    && ReleasedIfGivenBack(t.phase.value, items, c, Serial(s))
  }

  ghost predicate Unwound(s: State, items: seq<Item>, c: Script, t: State) {
    if CleanUpRaises(items, c) then Leaked(s, t, items, c) else RolledBack(s, t, items, HandedCount(items, c))
  }

  /** The three ways an admitted batch can end. */
  ghost predicate EndedAs(s: State, items: seq<Item>, c: Script, t: State) {
    if Succeeds(Serial(s), items, c) then Published(s, t, items, c) else Unwound(s, items, c, t)
  }

  ghost predicate BatchStep(s: State, items: seq<Item>, c: Script, t: State) {
    if Admissible(s, items, c.rootBranchable) then EndedAs(s, items, c, t) else t == s
  }

  // ---- Cancel, release, status -----------------------------------------------------------------------

  datatype Sweep = Cancel | Release | Query

  predicate NeedsPhase(b: Book, w: Sweep) {
    b.internalId.Some? && b.status != Released && (w.Cancel? ==> b.status != Cancelled)
  }

  predicate Unreleased(s: State, b: string) {
    b in s.books && NeedsPhase(s.books[b], Release)
  }

  /** The phase has a record under the Branch's internal id, which may be another Branch's. */
  predicate Known(s: State, id: string) {
    && id in s.books && s.books[id].internalId.Some?
    && s.phase.Some? && s.books[id].internalId.value in s.phase.value.records
  }

  function RecordState(s: State, id: string): Status
    requires Known(s, id)
  {
    s.phase.value.records[s.books[id].internalId.value].state
  }

  /**
   One public id of a request: refused, or done.  `raising` has the ids whose phase call raises, and
   whether it had taken effect by then.
   */
  predicate Blocked(s: State, w: Sweep, id: string, raising: map<string, bool>) {
    || id == ROOT_BRANCH_ID
    || id !in s.books
    || (NeedsPhase(s.books[id], w) && (!Known(s, id) || id in raising))
  }

  function WithRecords(s: State, records: map<nat, Record>): State
    requires s.phase.Some?
  {
    s.(phase := Some(s.phase.value.(records := records)))
  }

  /** What the phase call of one id does to the records. */
  function PhaseCall(s: State, w: Sweep, id: string): State
    requires id in s.books
  {
    if !NeedsPhase(s.books[id], w) || !Known(s, id) then s
    else
      var i := s.books[id].internalId.value;
      match w
      case Cancel => WithRecords(s, CancelRecords(s.phase.value.records, i))
      case Release => WithRecords(s, ReleaseRecords(s.phase.value.records, {i}))
      case Query => s
  }

  /** A refused id changes nothing, unless its phase call took effect and raised then. */
  function Refuse(s: State, w: Sweep, id: string, raising: map<string, bool>): State {
    if id in raising && raising[id] && id != ROOT_BRANCH_ID && id in s.books then PhaseCall(s, w, id) else s
  }

  function SweepOne(s: State, w: Sweep, id: string): State
    requires id in s.books
  {
    var b := s.books[id];
    var t := PhaseCall(s, w, id);
    match w
    case Cancel =>
      if b.status == Cancelled || b.status == Released then t
      else t.(books := s.books[id := b.(status := Cancelled, view := NoView)])
    case Release =>
      if b.status == Released then t
      else
        t.(books := s.books[id := b.(status := Released, view := NoView)],
           reserved := if b.internalId.Some? then s.reserved - {id} else s.reserved)
    case Query =>
      if NeedsPhase(b, w) && Known(s, id) then t.(books := s.books[id := b.(status := RecordState(s, id))]) else t
  }

  /** Ids in order; the first refused one ends the request, what was done before it stays done. */
  function SweepAll(s: State, w: Sweep, ids: seq<string>, raising: map<string, bool>): State
    decreases |ids|
  {
    if ids == [] then s
    else if Blocked(s, w, ids[0], raising) then Refuse(s, w, ids[0], raising)
    else SweepAll(SweepOne(s, w, ids[0]), w, ids[1..], raising)
  }

  // ---- Retiring every Branch -------------------------------------------------------------------------

  /** Combat Branches the phase still has to give back, cancelled ones included. */
  function Owed(s: State): set<string> {
    set b | b in s.books && Unreleased(s, b)
  }

  function InternalIds(books: map<string, Book>, ids: set<string>): set<nat>
    requires forall b <- ids :: b in books && books[b].internalId.Some?
  {
    set b | b in ids :: books[b].internalId.value
  }

  function OwedIds(s: State): set<nat> {
    InternalIds(s.books, Owed(s))
  }

  /** No phase, an id the phase does not know, or a release that raises. */
  predicate RetireRaises(s: State, call: ReleaseCall) {
    Owed(s) != {} && (s.phase.None? || call.raises || !(OwedIds(s) <= s.phase.value.records.Keys))
  }

  function Tombstone(b: Book): Book {
    b.(status := if b.status == Cancelled then Cancelled else Released, view := NoView)
  }

  function Tombstoned(books: map<string, Book>, done: set<string>): map<string, Book> {
    map b | b in books :: if b in done then Tombstone(books[b]) else books[b]
  }

  lemma TombstoneOneMore(books: map<string, Book>, done: set<string>, b: string)
    requires b in books && b !in done
    ensures Tombstoned(books, done)[b := Tombstone(books[b])] == Tombstoned(books, done + {b})
  {
  }

  /** `_cancel_and_release_all_branches`. */
  function Retire(s: State, call: ReleaseCall): State {
    if RetireRaises(s, call) then
      if s.phase.None? then s else WithRecords(s, ReleaseRecords(s.phase.value.records, call.done * OwedIds(s)))
    else
      s.(books := Tombstoned(s.books, s.books.Keys),
         current := s.current - s.books.Keys,
         reserved := s.reserved - s.books.Keys,
         phase := if s.phase.None? then None
                  else Some(s.phase.value.(records := ReleaseRecords(s.phase.value.records, OwedIds(s)))))
  }

  /** Poisoning retires once more while there is a phase, ignores how that ends, and drops the phase. */
  function Poisoned(s: State, again: ReleaseCall): State {
    (if s.phase.None? || RetireRaises(s, again) then s else Retire(s, again)).(faulted := true, phase := None)
  }

  // ---- Commits ---------------------------------------------------------------------------------------

  /** The root's next decision. */
  function Decide(s: State): State {
    s.(current := s.current[ROOT_BRANCH_ID := TextIds.DecisionId(ROOT_BRANCH_ID, s.counter)], counter := s.counter + 1)
  }

  /** The recording of a root commit outside combat: Branches retired, the next decision published. */
  function Recorded(s: State, call: ReleaseCall, captureRaises: bool): State {
    if RetireRaises(s, call) || captureRaises then Retire(s, call) else Decide(Retire(s, call))
  }

  /** How a commit in combat ends; `again` is the release while poisoning, if it comes to that. */
  datatype CombatCommit =
    | StepRaises(advanced: bool, again: ReleaseCall)
    /** The fight goes on: every Branch is retired, the next decision published. */
    | Continues(call: ReleaseCall, publishRaises: bool, again: ReleaseCall)
    /** The fight is over: transfer begun, Branches retired, phase closed, run taken back, recorded. */
    | Completes(beginRaises: bool, call: ReleaseCall, closeRaises: bool, laterRaises: bool, again: ReleaseCall)

  /** `leave_combat_phase` and the recording after it. */
  function Left(s: State, c: CombatCommit): State
    requires c.Completes?
  {
    if c.beginRaises || RetireRaises(s, c.call) || c.closeRaises
    then Poisoned(if c.beginRaises then s else Retire(s, c.call), c.again)
    else
      var t := Retire(s, c.call).(phase := None);
      if c.laterRaises then Poisoned(t, c.again) else Decide(t)
  }

  function CommittedInCombat(s: State, c: CombatCommit): State {
    match c
    case StepRaises(advanced, again) => if advanced then Poisoned(s, again) else s
    case Continues(call, publishRaises, again) =>
      if RetireRaises(s, call) || publishRaises then Poisoned(Retire(s, call), again)
      else Decide(Retire(s, call))
    case Completes(_, _, _, _, _) => Left(s, c)
  }

  /** Adopting the board: given back before the lease commit, poisoned after it, or done and recorded. */
  datatype Entry = GivesBack(decided: bool) | Poisons | Enters(call: ReleaseCall)

  const NEW_PHASE := PhaseState(map[], 0, EMPTY_TABLE)

  function Entered(s: State, e: Entry): State {
    match e
    case GivesBack(decided) => if decided then s.(counter := s.counter + 1) else s
    case Poisons => Decide(s).(faulted := true)
    case Enters(call) => Retire(Decide(s).(phase := Some(NEW_PHASE)), call)
  }

  datatype Op =
    | Batch(items: seq<Item>, script: Script)
    | SweepOp(kind: Sweep, ids: seq<string>, raising: map<string, bool>)
    /** The recording of a root commit outside combat. */
    | RootCommit(call: ReleaseCall, captureRaises: bool)
    | EnterCombat(entry: Entry)
    | CommitInCombat(commit: CombatCommit)
    /** An Event Branch published outside combat. */
    | EventBranch(branch: string, rngId: int)

  ghost predicate Transition(s: State, op: Op, t: State) {
    match op
    case Batch(items, script) => BatchStep(s, items, script, t)
    case SweepOp(kind, ids, raising) => t == if s.faulted && !kind.Query? then s else SweepAll(s, kind, ids, raising)
    case RootCommit(call, raises) => t == if s.faulted || s.phase.Some? then s else Recorded(s, call, raises)
    case EnterCombat(e) => t == if s.faulted || s.phase.Some? then s else Entered(s, e)
    case CommitInCombat(c) => t == if s.faulted || s.phase.None? then s else CommittedInCombat(s, c)
    case EventBranch(b, rngId) =>
      t == if s.faulted || s.phase.Some? || b in s.used then s
           else s.(used := s.used + {b}, books := s.books[b := Book(rngId, None, Completed, false, EventView)])
  }

  /** A run: each state follows from the one before by its operation. */
  ghost predicate IsRun(states: seq<State>, ops: seq<Op>) {
    && |states| == |ops| + 1
    && (forall i | 0 <= i < |ops| :: Transition(states[i], ops[i], states[i + 1]))
  }

  /** One step tells whether `good` survives it: it does exactly unless the step breaks it. */
  ghost predicate Tells(good: State -> bool, broken: (State, Op) -> bool, s: State, op: Op, t: State) {
    good(s) ==> (good(t) <==> !broken(s, op))
  }

  /** What every single step tells, whole runs tell. */
  lemma {:induction false} GoodUntilBroken(
      good: State -> bool, broken: (State, Op) -> bool, states: seq<State>, ops: seq<Op>, n: nat)
    requires n <= |ops| && |states| == |ops| + 1 && good(states[0])
    requires forall i | 0 <= i < n :: Tells(good, broken, states[i], ops[i], states[i + 1])
    ensures (forall i | 0 <= i <= n :: good(states[i])) <==> (forall i | 0 <= i < n :: !broken(states[i], ops[i]))
  {
    if n > 0 {
      GoodUntilBroken(good, broken, states, ops, n - 1);
      assert Tells(good, broken, states[n - 1], ops[n - 1], states[n]);
    }
  }

  // ---- Reservations fit the capacity -----------------------------------------------------------------

  lemma {:induction false} BranchesBounded(items: seq<Item>)
    ensures |Branches(items)| <= |items|
  {
    if items != [] {
      var n := |items| - 1;
      BranchesBounded(items[..n]);
      assert items == items[..n] + [items[n]];
      assert Branches(items) == Branches(items[..n]) + {items[n].branch};
    }
  }

  lemma SumBounds(a: set<string>, b: set<string>)
    ensures |a + b| <= |a| + |b|
  {
    assert a + b == a + (b - a);
    assert |b - a| <= |b| by { SubsetSize(b - a, b); }
  }

  lemma {:induction false} SweepReserves(s: State, w: Sweep, ids: seq<string>, raising: map<string, bool>)
    ensures var t := SweepAll(s, w, ids, raising); t.reserved <= s.reserved && t.maxBranches == s.maxBranches
    decreases |ids|
  {
    if ids != [] && !Blocked(s, w, ids[0], raising) {
      SweepReserves(SweepOne(s, w, ids[0]), w, ids[1..], raising);
    }
  }

  lemma BatchReserves(s: State, items: seq<Item>, c: Script, t: State)
    requires BatchStep(s, items, c, t)
    ensures t.maxBranches == s.maxBranches
    ensures t.reserved <= s.reserved || |t.reserved| <= s.maxBranches
  {
    BranchesBounded(items);
    SumBounds(s.reserved, Branches(items));
  }

  lemma RetireReserves(s: State, call: ReleaseCall)
    ensures Retire(s, call).reserved <= s.reserved && Retire(s, call).maxBranches == s.maxBranches
    ensures Poisoned(s, call).reserved <= s.reserved && Poisoned(s, call).maxBranches == s.maxBranches
  {
  }

  lemma CommitReserves(s: State, c: CombatCommit)
    ensures CommittedInCombat(s, c).reserved <= s.reserved && CommittedInCombat(s, c).maxBranches == s.maxBranches
  {
    RetireReserves(s, c.again);
    if !c.StepRaises? {
      RetireReserves(s, c.call);
      RetireReserves(Retire(s, c.call), c.again);
      RetireReserves(Retire(s, c.call).(phase := None), c.again);
    }
  }

  lemma EnteringReserves(s: State, e: Entry)
    ensures Entered(s, e).reserved <= s.reserved && Entered(s, e).maxBranches == s.maxBranches
  {
    if e.Enters? { RetireReserves(Decide(s).(phase := Some(NEW_PHASE)), e.call); }
  }

  /** Only an admitted batch reserves anything, and it was admitted with its size counted in. */
  lemma StepReserves(s: State, op: Op, t: State)
    requires Transition(s, op, t)
    ensures t.maxBranches == s.maxBranches
    ensures t.reserved <= s.reserved || |t.reserved| <= s.maxBranches
  {
    match op
    case Batch(items, c) => BatchReserves(s, items, c, t);
    case SweepOp(kind, ids, raising) => SweepReserves(s, kind, ids, raising);
    case RootCommit(call, _) => RetireReserves(s, call);
    case EnterCombat(e) => EnteringReserves(s, e);
    case CommitInCombat(c) => CommitReserves(s, c);
    case EventBranch(_, _) =>
  }

  /** In every state of every run the reservations fit `max_branches`, whatever raised on the way. */
  lemma {:induction false} CapacityHoldsOnEveryRun(states: seq<State>, ops: seq<Op>, n: nat)
    requires IsRun(states, ops) && n <= |ops|
    requires |states[0].reserved| <= states[0].maxBranches
    ensures |states[n].reserved| <= states[n].maxBranches == states[0].maxBranches
  {
    if n > 0 {
      CapacityHoldsOnEveryRun(states, ops, n - 1);
      StepReserves(states[n - 1], ops[n - 1], states[n]);
      if states[n].reserved <= states[n - 1].reserved {
        SubsetSize(states[n].reserved, states[n - 1].reserved);
      }
    }
  }

  // ---- What every step keeps -------------------------------------------------------------------------

  ghost predicate WellFormed(s: State) {
    && ROOT_BRANCH_ID in s.used && ROOT_BRANCH_ID !in s.books
    && s.books.Keys <= s.used && s.current.Keys <= s.used
    && (s.faulted ==> s.phase.None?)
    && (s.phase.Some? ==> Consistent(s.phase.value.table) && Numbered(s.phase.value))
  }

  lemma BatchKeepsWellFormed(s: State, items: seq<Item>, c: Script, t: State)
    requires WellFormed(s) && Admissible(s, items, c.rootBranchable) && BatchStep(s, items, c, t)
    ensures WellFormed(t)
  {
    var n := Registered(items, HandedCount(items, c));
    assert Branches(items[..n]) <= Branches(items);
    forall k | 0 <= k < |items| ensures items[k].branch != ROOT_BRANCH_ID {
      assert ItemOk(s, items, k, c.rootBranchable);
    }
  }

  lemma SweepOneKeepsWellFormed(s: State, w: Sweep, id: string)
    requires WellFormed(s) && id in s.books
    ensures WellFormed(SweepOne(s, w, id)) && WellFormed(PhaseCall(s, w, id))
  {
  }

  lemma {:induction false} SweepKeepsWellFormed(s: State, w: Sweep, ids: seq<string>, raising: map<string, bool>)
    requires WellFormed(s)
    ensures WellFormed(SweepAll(s, w, ids, raising))
    decreases |ids|
  {
    if ids != [] {
      if Blocked(s, w, ids[0], raising) {
        if ids[0] in s.books { SweepOneKeepsWellFormed(s, w, ids[0]); }
      } else {
        SweepOneKeepsWellFormed(s, w, ids[0]);
        SweepKeepsWellFormed(SweepOne(s, w, ids[0]), w, ids[1..], raising);
      }
    }
  }

  lemma RetireKeepsWellFormed(s: State, call: ReleaseCall)
    requires WellFormed(s)
    ensures WellFormed(Retire(s, call))
  {
  }

  lemma PoisonKeepsWellFormed(s: State, again: ReleaseCall)
    requires WellFormed(s)
    ensures WellFormed(Poisoned(s, again))
  {
    RetireKeepsWellFormed(s, again);
  }

  lemma EnteringKeepsWellFormed(s: State, e: Entry)
    requires WellFormed(s) && s.phase.None? && !s.faulted
    ensures WellFormed(Entered(s, e))
  {
    if e.Enters? {
      assert Consistent(EMPTY_TABLE);
      RetireKeepsWellFormed(Decide(s).(phase := Some(NEW_PHASE)), e.call);
    }
  }

  lemma CommitKeepsWellFormed(s: State, c: CombatCommit)
    requires WellFormed(s) && s.phase.Some? && !s.faulted
    ensures WellFormed(CommittedInCombat(s, c))
  {
    PoisonKeepsWellFormed(s, c.again);
    if !c.StepRaises? {
      var t := Retire(s, c.call);
      RetireKeepsWellFormed(s, c.call);
      PoisonKeepsWellFormed(t, c.again);
      PoisonKeepsWellFormed(t.(phase := None), c.again);
    }
  }

  lemma StepKeepsWellFormed(s: State, op: Op, t: State)
    requires WellFormed(s) && Transition(s, op, t)
    ensures WellFormed(t)
  {
    match op
    case Batch(items, c) =>
      if Admissible(s, items, c.rootBranchable) { BatchKeepsWellFormed(s, items, c, t); }
    case SweepOp(kind, ids, raising) => SweepKeepsWellFormed(s, kind, ids, raising);
    case RootCommit(call, _) => RetireKeepsWellFormed(s, call);
    case EnterCombat(e) => if s.phase.None? && !s.faulted { EnteringKeepsWellFormed(s, e); }
    case CommitInCombat(c) => if s.phase.Some? && !s.faulted { CommitKeepsWellFormed(s, c); }
    case EventBranch(_, _) =>
  }

  /** Ids are registered before they are bookkept, a poisoned run has no phase, the phase's own tables are sound. */
  lemma {:induction false} WellFormedOnEveryRun(states: seq<State>, ops: seq<Op>, n: nat)
    requires IsRun(states, ops) && n <= |ops| && WellFormed(states[0])
    ensures WellFormed(states[n])
  {
    if n > 0 {
      WellFormedOnEveryRun(states, ops, n - 1);
      StepKeepsWellFormed(states[n - 1], ops[n - 1], states[n]);
    }
  }

  // ---- Reserved Branches are bookkept and unreleased -------------------------------------------------

  /** Each reserved id is a bookkept combat Branch that has not been released. */
  predicate Bookkept(s: State) {
    forall b <- s.reserved :: Unreleased(s, b)
  }

  /** How many ids a request gets through; what it does on the way never changes which ids are refused. */
  function Reach(s: State, w: Sweep, ids: seq<string>, raising: map<string, bool>): (n: nat)
    ensures n <= |ids|
    ensures forall j | 0 <= j < n :: !Blocked(s, w, ids[j], raising)
    ensures n < |ids| ==> Blocked(s, w, ids[n], raising)
    decreases |ids|
  {
    if ids == [] || Blocked(s, w, ids[0], raising) then 0 else 1 + Reach(s, w, ids[1..], raising)
  }

  lemma StillBlocked(s: State, w: Sweep, id: string, x: string, raising: map<string, bool>)
    requires !Blocked(s, w, id, raising)
    ensures Blocked(SweepOne(s, w, id), w, x, raising) == Blocked(s, w, x, raising)
  {
  }

  lemma {:induction false} ReachStays(s: State, w: Sweep, id: string, ids: seq<string>, raising: map<string, bool>)
    requires !Blocked(s, w, id, raising)
    ensures Reach(SweepOne(s, w, id), w, ids, raising) == Reach(s, w, ids, raising)
    decreases |ids|
  {
    if ids != [] {
      StillBlocked(s, w, id, ids[0], raising);
      ReachStays(s, w, id, ids[1..], raising);
    }
  }

  /** Reserved and unreleased, but released at the phase: the next status request will say so. */
  predicate Diverged(s: State, b: string) {
    b in s.reserved && Unreleased(s, b) && Known(s, b) && RecordState(s, b) == Released
  }

  /** The operations that leave a reserved id without an unreleased book. */
  predicate Unbooks(s: State, op: Op) {
    match op
    case Batch(items, c) =>
      && Admissible(s, items, c.rootBranchable) && !Succeeds(Serial(s), items, c) && CleanUpRaises(items, c)
      && HandedCount(items, c) < |items|
    case SweepOp(Query, ids, raising) => exists j | 0 <= j < Reach(s, Query, ids, raising) :: Diverged(s, ids[j])
    case _ => false
  }

  lemma PublishedIsBookkept(s: State, items: seq<Item>, c: Script, t: State)
    requires Bookkept(s) && Succeeds(Serial(s), items, c) && Published(s, t, items, c)
    ensures Bookkept(t)
  {
    forall b <- t.reserved ensures Unreleased(t, b) {
      if b in s.reserved {
        assert Unreleased(s, b);
      } else {
        var k :| 0 <= k < |items| && items[k].branch == b;
        assert PublishedAt(t, s.counter, items[k], Serials(Serial(s), |items|), c.poll.results, k);
      }
    }
  }

  /** After a raising clean-up every reservation is still bookkept exactly when enough ids had come back. */
  lemma LeakIsBookkeptIff(s: State, items: seq<Item>, c: Script, t: State)
    requires WellFormed(s) && Bookkept(s) && Admissible(s, items, c.rootBranchable) && Leaked(s, t, items, c)
    ensures Bookkept(t) <==> HandedCount(items, c) >= |items|
  {
    var n := Registered(items, HandedCount(items, c));
    if n < |items| {
      assert ItemOk(s, items, n, c.rootBranchable);
      assert items[n].branch in Branches(items) && items[n].branch !in Branches(items[..n]);
      assert items[n].branch in t.reserved && items[n].branch !in t.books;
    } else {
      forall b <- t.reserved ensures Unreleased(t, b) {
        if b in s.reserved {
          assert Unreleased(s, b);
        } else {
          var k :| 0 <= k < |items| && items[k].branch == b;
          assert HeldBy(t.books[items[k].branch], Serial(s) + 1 + k);
        }
      }
    }
  }

  lemma BatchIsBookkeptIff(s: State, items: seq<Item>, c: Script, t: State)
    requires WellFormed(s) && Bookkept(s) && BatchStep(s, items, c, t)
    ensures Bookkept(t) <==> !Unbooks(s, Batch(items, c))
  {
    if Admissible(s, items, c.rootBranchable) {
      if Succeeds(Serial(s), items, c) {
        PublishedIsBookkept(s, items, c, t);
      } else if CleanUpRaises(items, c) {
        LeakIsBookkeptIff(s, items, c, t);
      } else {
        assert forall b <- t.reserved :: Unreleased(s, b) == Unreleased(t, b);
      }
    }
  }

  lemma SweepOneIsBookkeptIff(s: State, w: Sweep, id: string, raising: map<string, bool>)
    requires Bookkept(s) && !Blocked(s, w, id, raising)
    ensures Bookkept(SweepOne(s, w, id)) <==> !(w.Query? && Diverged(s, id))
    ensures forall x :: w.Query? && x != id ==> Diverged(SweepOne(s, w, id), x) == Diverged(s, x)
    ensures w.Query? && !Diverged(s, id) ==> !Diverged(SweepOne(s, w, id), id)
  {
    var t := SweepOne(s, w, id);
    forall b <- t.reserved ensures Unreleased(t, b) == !(w.Query? && b == id && Diverged(s, id)) {
      assert Unreleased(s, b);
    }
  }

  /** A status request that recorded a release goes on without undoing it. */
  lemma {:induction false} QueryStaysUnbooked(s: State, ids: seq<string>, raising: map<string, bool>, b: string)
    requires b in s.reserved && !Unreleased(s, b)
    ensures var t := SweepAll(s, Query, ids, raising); b in t.reserved && !Unreleased(t, b)
    decreases |ids|
  {
    if ids != [] && !Blocked(s, Query, ids[0], raising) {
      QueryStaysUnbooked(SweepOne(s, Query, ids[0]), ids[1..], raising, b);
    }
  }

  lemma {:induction false} SweepIsBookkeptIff(s: State, w: Sweep, ids: seq<string>, raising: map<string, bool>)
    requires Bookkept(s)
    ensures Bookkept(SweepAll(s, w, ids, raising)) <==>
            !(w.Query? && exists j | 0 <= j < Reach(s, w, ids, raising) :: Diverged(s, ids[j]))
    decreases |ids|
  {
    if ids != [] && Blocked(s, w, ids[0], raising) {
      assert forall b <- s.reserved :: Unreleased(SweepAll(s, w, ids, raising), b) == Unreleased(s, b);
    } else if ids != [] {
      var u := SweepOne(s, w, ids[0]);
      SweepOneIsBookkeptIff(s, w, ids[0], raising);
      ReachStays(s, w, ids[0], ids[1..], raising);
      if w.Query? && Diverged(s, ids[0]) {
        assert ids[0] in u.reserved && !Unreleased(u, ids[0]);
        QueryStaysUnbooked(u, ids[1..], raising, ids[0]);
        var t := SweepAll(u, w, ids[1..], raising);
        assert t == SweepAll(s, w, ids, raising);
        assert ids[0] in t.reserved && !Unreleased(t, ids[0]);
        assert 0 < Reach(s, w, ids, raising);
      } else {
        SweepIsBookkeptIff(u, w, ids[1..], raising);
        if w.Query? { LaterDivergence(s, ids, raising); }
      }
    }
  }

  /** Whether a later id of a status request diverges is settled before the request. */
  lemma LaterDivergence(s: State, ids: seq<string>, raising: map<string, bool>)
    requires ids != [] && !Blocked(s, Query, ids[0], raising) && Bookkept(s) && !Diverged(s, ids[0])
    ensures var u := SweepOne(s, Query, ids[0]);
            (exists j | 0 <= j < Reach(u, Query, ids[1..], raising) :: Diverged(u, ids[1..][j]))
            <==> (exists j | 0 <= j < Reach(s, Query, ids, raising) :: Diverged(s, ids[j]))
  {
    var u, m := SweepOne(s, Query, ids[0]), Reach(s, Query, ids, raising);
    ReachStays(s, Query, ids[0], ids[1..], raising);
    SweepOneIsBookkeptIff(s, Query, ids[0], raising);
    if j :| 0 <= j < m && Diverged(s, ids[j]) {
      assert j > 0 && ids[1..][j - 1] == ids[j] && ids[j] != ids[0];
      assert Diverged(u, ids[1..][j - 1]);
    }
    if j :| 0 <= j < m - 1 && Diverged(u, ids[1..][j]) {
      assert ids[1..][j] == ids[j + 1] && ids[j + 1] != ids[0];
      assert Diverged(s, ids[j + 1]);
    }
  }

  /** Retiring ends with no reservation of a bookkept Branch, or with books and reservations as before. */
  lemma RetireIsBookkept(s: State, call: ReleaseCall)
    requires Bookkept(s)
    ensures Bookkept(Retire(s, call))
    ensures !RetireRaises(s, call) ==> Retire(s, call).reserved == {}
    ensures RetireRaises(s, call) ==> Retire(s, call) == s.(phase := Retire(s, call).phase)
  {
    forall b <- s.reserved ensures b in s.books {
      assert Unreleased(s, b);
    }
    forall b <- Retire(s, call).reserved ensures Unreleased(Retire(s, call), b) {
      assert Unreleased(s, b);
    }
  }

  /** A poisoned instance keeps reservations exactly if its second attempt to release them raised as well. */
  lemma PoisonedKeepsReservationsIff(s: State, again: ReleaseCall)
    requires Bookkept(s) && s.phase.Some?
    ensures Bookkept(Poisoned(s, again))
    ensures Poisoned(s, again).reserved == if RetireRaises(s, again) then s.reserved else {}
  {
    RetireIsBookkept(s, again);
    forall b <- Poisoned(s, again).reserved ensures Unreleased(Poisoned(s, again), b) {
      assert Unreleased(s, b);
    }
  }

  /** A commit that leaves a fight, and does not poison, leaves nothing reserved. */
  lemma CommitIsBookkept(s: State, c: CombatCommit)
    requires Bookkept(s) && s.phase.Some?
    ensures Bookkept(CommittedInCombat(s, c))
    ensures var t := CommittedInCombat(s, c); t.phase.None? && !t.faulted ==> t.reserved == {}
  {
    PoisonedKeepsReservationsIff(s, c.again);
    if !c.StepRaises? {
      var t := Retire(s, c.call);
      RetireIsBookkept(s, c.call);
      PoisonedKeepsReservationsIff(t, c.again);
      if t.reserved == {} { DecidingIsBookkept(t); }
    }
  }

  lemma StepIsBookkeptIff(s: State, op: Op, t: State)
    requires WellFormed(s) && Bookkept(s) && Transition(s, op, t)
    ensures Bookkept(t) <==> !Unbooks(s, op)
  {
    match op
    case Batch(items, c) => BatchIsBookkeptIff(s, items, c, t);
    case SweepOp(kind, ids, raising) => SweepIsBookkeptIff(s, kind, ids, raising); QueryOnly(s, op);
    case RootCommit(call, raises) => RecordingIsBookkept(s, call, raises);
    case EnterCombat(e) => EnteringIsBookkept(s, e);
    case CommitInCombat(c) => if s.phase.Some? { CommitIsBookkept(s, c); }
    case EventBranch(b, rngId) =>
      forall x <- t.reserved ensures Unreleased(t, x) {
        assert Unreleased(s, x);
      }
  }

  lemma DecidingIsBookkept(s: State)
    ensures Bookkept(Decide(s)) == Bookkept(s)
  {
    assert forall b <- s.reserved :: Unreleased(Decide(s), b) == Unreleased(s, b);
  }

  lemma RecordingIsBookkept(s: State, call: ReleaseCall, captureRaises: bool)
    requires Bookkept(s)
    ensures Bookkept(Recorded(s, call, captureRaises))
  {
    RetireIsBookkept(s, call);
    DecidingIsBookkept(Retire(s, call));
  }

  lemma QueryOnly(s: State, op: Op)
    requires op.SweepOp?
    ensures Unbooks(s, op) <==>
            op.kind.Query? && exists j | 0 <= j < Reach(s, op.kind, op.ids, op.raising) :: Diverged(s, op.ids[j])
  {
  }

  lemma EnteringIsBookkept(s: State, e: Entry)
    requires Bookkept(s)
    ensures Bookkept(Entered(s, e))
  {
    forall b <- s.reserved
      ensures Unreleased(Entered(s, GivesBack(true)), b) && Unreleased(Entered(s, Poisons), b)
      ensures Unreleased(Decide(s).(phase := Some(NEW_PHASE)), b)
    {
      assert Unreleased(s, b);
    }
    if e.Enters? { RetireIsBookkept(Decide(s).(phase := Some(NEW_PHASE)), e.call); }
  }

  lemma BookkeptOnce(s: State, op: Op, t: State)
    requires WellFormed(s) && Transition(s, op, t)
    ensures Tells(Bookkept, Unbooks, s, op, t)
  {
    if Bookkept(s) { StepIsBookkeptIff(s, op, t); }
  }

  /**
   In every state of a run each reserved id is a bookkept, unreleased combat Branch, exactly unless some
   status request reaches a reserved Branch whose record is released, or a batch that got too few
   internal ids cannot be cleaned up.
   */
  lemma ReservedAreUnreleasedIff(states: seq<State>, ops: seq<Op>, n: nat)
    requires IsRun(states, ops) && n <= |ops|
    requires WellFormed(states[0]) && Bookkept(states[0])
    ensures (forall i | 0 <= i <= n :: Bookkept(states[i])) <==> (forall i | 0 <= i < n :: !Unbooks(states[i], ops[i]))
  {
    forall i | 0 <= i < n ensures Tells(Bookkept, Unbooks, states[i], ops[i], states[i + 1]) {
      WellFormedOnEveryRun(states, ops, i);
      BookkeptOnce(states[i], ops[i], states[i + 1]);
    }
    GoodUntilBroken(Bookkept, Unbooks, states, ops, n);
  }

  // ---- The phase's records agree ---------------------------------------------------------------------

  /** Reserved, bookkept, unreleased here, and while there is a phase on record there, unreleased as well. */
  predicate Agreed(s: State, b: string) {
    Unreleased(s, b) && (s.phase.Some? ==> Known(s, b) && RecordState(s, b) != Released)
  }

  predicate Agree(s: State) {
    && (forall b <- s.reserved :: Agreed(s, b))
    && (s.phase.None? && !s.faulted ==> s.reserved == {})
  }

  function InternalId(s: State, id: string): Option<nat> {
    if id in s.books then s.books[id].internalId else None
  }

  /** Some id the request gets through gives the record up. */
  predicate GivesUpWithin(s: State, ids: seq<string>, n: nat, i: nat)
    requires n <= |ids|
  {
    exists j | 0 <= j < n :: Unreleased(s, ids[j]) && InternalId(s, ids[j]) == Some(i)
  }

  /** The records a release request gives back: of every id it gets through, and of one that raised too late. */
  predicate GivesUp(s: State, ids: seq<string>, raising: map<string, bool>, i: nat) {
    var n := Reach(s, Release, ids, raising);
    || GivesUpWithin(s, ids, n, i)
    || (n < |ids| && RaisesTooLate(s, ids[n], raising) && InternalId(s, ids[n]) == Some(i))
  }

  /** The phase call of this id takes effect and then raises. */
  predicate RaisesTooLate(s: State, id: string, raising: map<string, bool>) {
    id in raising && raising[id] && id != ROOT_BRANCH_ID && Unreleased(s, id) && Known(s, id)
  }

  /**
   The operations after which a reserved Branch is released at the phase: a release request that gives
   up its record without getting through to the Branch itself, and a batch whose clean-up raised
   although some of its ids were given back, or that got too few.
   */
  predicate Diverges(s: State, op: Op) {
    match op
    case Batch(items, c) =>
      && Admissible(s, items, c.rootBranchable) && !Succeeds(Serial(s), items, c) && CleanUpRaises(items, c)
      && (HandedCount(items, c) < |items|
          || exists id <- NewIds(Serial(s), |items|) :: GivenBack(items, c, id))
    case SweepOp(Release, ids, raising) =>
      !s.faulted && exists b <- s.reserved ::
        b !in ids[..Reach(s, Release, ids, raising)] && InternalId(s, b).Some?
        && GivesUp(s, ids, raising, InternalId(s, b).value)
    case _ => false
  }

  /** Releasing one id leaves all others what they were. */
  lemma OthersStay(s: State, id: string, x: string, raising: map<string, bool>)
    requires id in s.books && x != id
    ensures var u := SweepOne(s, Release, id);
            && Unreleased(u, x) == Unreleased(s, x) && InternalId(u, x) == InternalId(s, x)
            && RaisesTooLate(u, x, raising) == RaisesTooLate(s, x, raising)
  {
  }

  lemma GivesUpWithinFirst(s: State, ids: seq<string>, n: nat, raising: map<string, bool>, i: nat)
    requires 0 < n <= |ids| && ids[0] in s.books
    ensures GivesUpWithin(s, ids, n, i) <==>
            || (Unreleased(s, ids[0]) && InternalId(s, ids[0]) == Some(i))
            || GivesUpWithin(SweepOne(s, Release, ids[0]), ids[1..], n - 1, i)
  {
    var u := SweepOne(s, Release, ids[0]);
    forall j | 0 < j < n && ids[j] != ids[0]
      ensures ids[1..][j - 1] == ids[j]
      ensures Unreleased(u, ids[j]) == Unreleased(s, ids[j]) && InternalId(u, ids[j]) == InternalId(s, ids[j])
    {
      OthersStay(s, ids[0], ids[j], raising);
    }
    if GivesUpWithin(u, ids[1..], n - 1, i) {
      var j :| 0 <= j < n - 1 && Unreleased(u, ids[1..][j]) && InternalId(u, ids[1..][j]) == Some(i);
      assert ids[j + 1] == ids[1..][j] && ids[j + 1] != ids[0];
    }
  }

  lemma GivesUpFirst(s: State, ids: seq<string>, raising: map<string, bool>, i: nat)
    requires ids != [] && !Blocked(s, Release, ids[0], raising)
    ensures GivesUp(s, ids, raising, i) <==>
            || (Unreleased(s, ids[0]) && InternalId(s, ids[0]) == Some(i))
            || GivesUp(SweepOne(s, Release, ids[0]), ids[1..], raising, i)
  {
    var n := Reach(s, Release, ids, raising);
    ReachStays(s, Release, ids[0], ids[1..], raising);
    GivesUpWithinFirst(s, ids, n, raising, i);
    if n < |ids| {
      assert ids[1..][n - 1] == ids[n] && ids[n] != ids[0];
      OthersStay(s, ids[0], ids[n], raising);
    }
  }

  /** What a release request does to the record of one internal id. */
  lemma {:induction false} ReleasedRecordIff(s: State, ids: seq<string>, raising: map<string, bool>, i: nat)
    requires ROOT_BRANCH_ID !in s.books && s.phase.Some? && i in s.phase.value.records
    ensures var t := SweepAll(s, Release, ids, raising);
            && t.phase.Some? && t.phase.value.records.Keys == s.phase.value.records.Keys
            && (t.phase.value.records[i].state == Released <==>
                s.phase.value.records[i].state == Released || GivesUp(s, ids, raising, i))
    decreases |ids|
  {
    if ids != [] && !Blocked(s, Release, ids[0], raising) {
      GivesUpFirst(s, ids, raising, i);
      ReleasedRecordIff(SweepOne(s, Release, ids[0]), ids[1..], raising, i);
    }
  }

  lemma FirstDone(ids: seq<string>, n: nat, b: string)
    requires 0 < n <= |ids|
    ensures b in ids[..n] <==> b == ids[0] || b in ids[1..][..n - 1]
  {
    assert ids[..n] == [ids[0]] + ids[1..][..n - 1];
  }

  /** What it does to the reservation and the book of one public id. */
  lemma {:induction false} ReleasedIdIff(s: State, ids: seq<string>, raising: map<string, bool>, b: string)
    requires Bookkept(s)
    ensures var t, done := SweepAll(s, Release, ids, raising), ids[..Reach(s, Release, ids, raising)];
            && (b in t.reserved <==> b in s.reserved && b !in done)
            && (b !in done ==> Unreleased(t, b) == Unreleased(s, b) && InternalId(t, b) == InternalId(s, b))
            && t.faulted == s.faulted && t.phase.Some? == s.phase.Some?
    decreases |ids|
  {
    if ids != [] && !Blocked(s, Release, ids[0], raising) {
      var u, n := SweepOne(s, Release, ids[0]), Reach(s, Release, ids, raising);
      SweepOneIsBookkeptIff(s, Release, ids[0], raising);
      ReachStays(s, Release, ids[0], ids[1..], raising);
      ReleasedIdIff(u, ids[1..], raising, b);
      FirstDone(ids, n, b);
      assert ids[0] in s.reserved ==> Unreleased(s, ids[0]);
      if b != ids[0] { OthersStay(s, ids[0], b, raising); }
    }
  }

  lemma AgreeIsBookkept(s: State)
    requires Agree(s)
    ensures Bookkept(s)
  {
    forall b <- s.reserved ensures Unreleased(s, b) {
      assert Agreed(s, b);
    }
  }

  /** One reserved id before and after a release request. */
  lemma ReleaseAgreesOn(s: State, ids: seq<string>, raising: map<string, bool>, b: string)
    requires WellFormed(s) && Agree(s) && s.phase.Some? && b in s.reserved
    ensures var t, done := SweepAll(s, Release, ids, raising), ids[..Reach(s, Release, ids, raising)];
            && InternalId(s, b).Some?
            && (b in t.reserved <==> b !in done)
            && (b !in done ==> (Agreed(t, b) <==> !GivesUp(s, ids, raising, InternalId(s, b).value)))
  {
    AgreeIsBookkept(s);
    assert Agreed(s, b);
    ReleasedIdIff(s, ids, raising, b);
    ReleasedRecordIff(s, ids, raising, InternalId(s, b).value);
  }

  lemma ReleaseAgreesIff(s: State, ids: seq<string>, raising: map<string, bool>)
    requires WellFormed(s) && Agree(s) && !s.faulted
    ensures Agree(SweepAll(s, Release, ids, raising)) <==> !Diverges(s, SweepOp(Release, ids, raising))
  {
    var t, done := SweepAll(s, Release, ids, raising), ids[..Reach(s, Release, ids, raising)];
    SweepReserves(s, Release, ids, raising);
    AgreeIsBookkept(s);
    ReleasedIdIff(s, ids, raising, "");
    if s.phase.Some? {
      forall b | b in s.reserved
        ensures InternalId(s, b).Some?
        ensures b in t.reserved && !Agreed(t, b) <==> b !in done && GivesUp(s, ids, raising, InternalId(s, b).value)
      {
        ReleaseAgreesOn(s, ids, raising, b);
      }
      assert forall b <- t.reserved :: b in s.reserved;
    }
  }

  lemma OtherSweepAgrees(s: State, w: Sweep, id: string)
    requires Agree(s) && !w.Release? && id in s.books
    ensures Agree(PhaseCall(s, w, id)) && (Agree(SweepOne(s, w, id)))
  {
    forall b <- s.reserved ensures Agreed(PhaseCall(s, w, id), b) && Agreed(SweepOne(s, w, id), b) {
      assert Agreed(s, b);
    }
  }

  /** Cancelling and asking never give a record up. */
  lemma {:induction false} OtherSweepsAgree(s: State, w: Sweep, ids: seq<string>, raising: map<string, bool>)
    requires Agree(s) && !w.Release?
    ensures Agree(SweepAll(s, w, ids, raising))
    decreases |ids|
  {
    if ids != [] {
      if ids[0] in s.books { OtherSweepAgrees(s, w, ids[0]); }
      if !Blocked(s, w, ids[0], raising) {
        OtherSweepsAgree(SweepOne(s, w, ids[0]), w, ids[1..], raising);
      }
    }
  }

  /** A reserved id from before a batch, while the older records stay as they are. */
  lemma OlderAgree(s: State, t: State, b: string)
    requires Agree(s) && b in s.reserved && s.phase.Some? && t.phase.Some?
    requires b in s.books ==> b in t.books && t.books[b] == s.books[b]
    requires forall k <- s.phase.value.records :: k in t.phase.value.records
    requires forall k <- s.phase.value.records :: t.phase.value.records[k] == s.phase.value.records[k]
    ensures Agreed(t, b)
  {
    assert Agreed(s, b);
  }

  lemma PublishedAgreesAt(s: State, items: seq<Item>, results: map<nat, Outcome>, t: State, k: nat)
    requires forall id <- Serials(Serial(s), |items|) :: id in results
    requires AllPublished(s, t, items, results) && AllRecorded(s, t, items, results) && k < |items|
    ensures Agreed(t, items[k].branch)
  {
    var ids := Serials(Serial(s), |items|);
    assert PublishedAt(t, s.counter, items[k], ids, results, k);
    assert ids[k] == Serial(s) + 1 + k;
  }

  lemma PublishedAgrees(s: State, items: seq<Item>, c: Script, t: State)
    requires Agree(s) && Succeeds(Serial(s), items, c) && Published(s, t, items, c)
    ensures Agree(t)
  {
    forall b | b in s.reserved ensures Agreed(t, b) {
      OlderAgree(s, t, b);
    }
    forall k | 0 <= k < |items| ensures Agreed(t, items[k].branch) {
      PublishedAgreesAt(s, items, c.poll.results, t, k);
    }
    assert forall b <- Branches(items) :: exists k :: 0 <= k < |items| && items[k].branch == b;
  }

  lemma LeakedAgreesAt(t: State, items: seq<Item>, c: Script, serial: nat, k: nat)
    requires k < |items| <= HandedCount(items, c) && t.phase.Some?
    requires AllHeld(t, items, |items|, serial) && ReleasedIfGivenBack(t.phase.value, items, c, serial)
    ensures Agreed(t, items[k].branch) <==> !GivenBack(items, c, serial + 1 + k)
  {
    var i := serial + 1 + k;
    assert i in NewIds(serial, HandedCount(items, c));
    assert HeldBy(t.books[items[k].branch], i);
  }

  /** One of the given-back ids belongs to one of the Branches. */
  lemma GivenBackAt(serial: nat, items: seq<Item>, c: Script)
    ensures (exists id <- NewIds(serial, |items|) :: GivenBack(items, c, id)) <==>
            (exists k: nat | k < |items| :: items[k] in items && GivenBack(items, c, serial + 1 + k))
  {
    if id :| id in NewIds(serial, |items|) && GivenBack(items, c, id) {
      var k := id - serial - 1;
      assert items[k] in items && GivenBack(items, c, serial + 1 + k);
    }
    if k: nat :| k < |items| && items[k] in items && GivenBack(items, c, serial + 1 + k) {
      assert serial + 1 + k in NewIds(serial, |items|);
    }
  }

  lemma LeakedAgreesIff(s: State, items: seq<Item>, c: Script, t: State)
    requires WellFormed(s) && Agree(s) && Admissible(s, items, c.rootBranchable) && Leaked(s, t, items, c)
    ensures Agree(t) <==>
            HandedCount(items, c) >= |items| && !exists id <- NewIds(Serial(s), |items|) :: GivenBack(items, c, id)
  {
    GivenBackAt(Serial(s), items, c);
    if HandedCount(items, c) < |items| {
      AgreeIsBookkept(s);
      LeakIsBookkeptIff(s, items, c, t);
      if Agree(t) { AgreeIsBookkept(t); }
    } else {
      LeakedAgreesIfAll(s, items, c, t);
    }
  }

  lemma LeakedAgreesIfAll(s: State, items: seq<Item>, c: Script, t: State)
    requires Agree(s) && Leaked(s, t, items, c) && HandedCount(items, c) >= |items|
    ensures Agree(t) <==> !exists k: nat | k < |items| :: items[k] in items && GivenBack(items, c, Serial(s) + 1 + k)
  {
    forall k: nat | k < |items|
      ensures items[k].branch in t.reserved && items[k] in items
      ensures Agreed(t, items[k].branch) <==> !GivenBack(items, c, Serial(s) + 1 + k)
    {
      LeakedAgreesAt(t, items, c, Serial(s), k);
      assert items[k].branch in Branches(items);
    }
    if !exists k: nat | k < |items| :: items[k] in items && GivenBack(items, c, Serial(s) + 1 + k) {
      forall b <- t.reserved ensures Agreed(t, b) {
        if b in s.reserved {
          OlderAgree(s, t, b);
        } else {
          var k: nat :| k < |items| && items[k].branch == b;
        }
      }
    }
  }

  lemma BatchAgreesIff(s: State, items: seq<Item>, c: Script, t: State)
    requires WellFormed(s) && Agree(s) && BatchStep(s, items, c, t)
    ensures Agree(t) <==> !Diverges(s, Batch(items, c))
  {
    if Admissible(s, items, c.rootBranchable) {
      if Succeeds(Serial(s), items, c) {
        PublishedAgrees(s, items, c, t);
      } else if CleanUpRaises(items, c) {
        LeakedAgreesIff(s, items, c, t);
      } else {
        forall b <- t.reserved ensures Agreed(t, b) {
          OlderAgree(s, t, b);
        }
      }
    }
  }

  /** With nothing reserved there is nothing to disagree about. */
  lemma RetiringAgrees(s: State, call: ReleaseCall)
    requires Agree(s) && (s.reserved == {} || !RetireRaises(s, call))
    ensures Agree(Retire(s, call)) && Retire(s, call).reserved == {}
  {
    AgreeIsBookkept(s);
    RetireIsBookkept(s, call);
  }

  lemma EnteringAgrees(s: State, e: Entry)
    requires Agree(s) && s.phase.None? && !s.faulted
    ensures Agree(Entered(s, e))
  {
    if e.Enters? { RetiringAgrees(Decide(s).(phase := Some(NEW_PHASE)), e.call); }
  }

  lemma CommitAgrees(s: State, c: CombatCommit)
    requires Agree(s) && s.phase.Some?
    ensures Agree(CommittedInCombat(s, c))
  {
    var t := CommittedInCombat(s, c);
    AgreeIsBookkept(s);
    CommitIsBookkept(s, c);
    if t.phase.None? {
      assert forall b <- t.reserved :: Unreleased(t, b);
    } else if c.Continues? {
      RetiringAgrees(s, c.call);
    }
  }

  lemma StepAgreesIff(s: State, op: Op, t: State)
    requires WellFormed(s) && Agree(s) && Transition(s, op, t)
    ensures Agree(t) <==> !Diverges(s, op)
  {
    match op
    case Batch(items, c) => BatchAgreesIff(s, items, c, t);
    case SweepOp(kind, ids, raising) =>
      if kind.Release? {
        if !s.faulted { ReleaseAgreesIff(s, ids, raising); }
      } else {
        OtherSweepsAgree(s, kind, ids, raising);
      }
    case RootCommit(call, _) => if s.phase.None? && !s.faulted { RetiringAgrees(s, call); }
    case EnterCombat(e) => if s.phase.None? && !s.faulted { EnteringAgrees(s, e); }
    case CommitInCombat(c) => if s.phase.Some? && !s.faulted { CommitAgrees(s, c); }
    case EventBranch(_, _) => EventBranchAgrees(s, op, t);
  }

  lemma EventBranchAgrees(s: State, op: Op, t: State)
    requires WellFormed(s) && Agree(s) && Transition(s, op, t) && op.EventBranch?
    ensures Agree(t)
  {
    forall b <- t.reserved ensures Agreed(t, b) {
      assert Agreed(s, b);
    }
  }

  lemma PhaseAgreesOnce(s: State, op: Op, t: State)
    requires WellFormed(s) && Transition(s, op, t)
    ensures Tells(Agree, Diverges, s, op, t)
  {
    if Agree(s) { StepAgreesIff(s, op, t); }
  }

  /**
   A reserved Branch is held here and at the phase, in every state of a run, exactly unless some release
   gives a record up without getting through to the Branch; and only after that can a reservation ever
   end up without an unreleased book.
   */
  lemma PhaseAgreesIff(states: seq<State>, ops: seq<Op>, n: nat)
    requires IsRun(states, ops) && n <= |ops|
    requires WellFormed(states[0]) && Agree(states[0])
    ensures (forall i | 0 <= i <= n :: Agree(states[i])) <==> (forall i | 0 <= i < n :: !Diverges(states[i], ops[i]))
    ensures (forall i | 0 <= i < n :: !Diverges(states[i], ops[i])) ==>
              forall i | 0 <= i <= n :: Bookkept(states[i])
  {
    forall i | 0 <= i < n ensures Tells(Agree, Diverges, states[i], ops[i], states[i + 1]) {
      WellFormedOnEveryRun(states, ops, i);
      PhaseAgreesOnce(states[i], ops[i], states[i + 1]);
    }
    GoodUntilBroken(Agree, Diverges, states, ops, n);
    forall i | 0 <= i <= n ensures Agree(states[i]) ==> Bookkept(states[i]) {
      if Agree(states[i]) { AgreeIsBookkept(states[i]); }
    }
  }

  // ---- Internal ids are one phase's own --------------------------------------------------------------

  /** While there is a phase, what is owed to it is on its records, each Branch under its own id. */
  ghost predicate OwnIds(s: State) {
    s.phase.Some? ==>
      && (forall b <- Owed(s) :: Known(s, b))
      && (forall a, b | a in Owed(s) && b in Owed(s) && a != b :: InternalId(s, a) != InternalId(s, b))
  }

  /** Nothing newly owed, and no record lost. */
  ghost predicate OwesNoMore(s: State, t: State) {
    && Owed(t) <= Owed(s)
    && (forall b <- Owed(t) :: InternalId(t, b) == InternalId(s, b))
    && (t.phase.Some? ==> s.phase.Some? && s.phase.value.records.Keys <= t.phase.value.records.Keys)
  }

  lemma OwingNoMoreKeepsOwnIds(s: State, t: State)
    requires OwnIds(s) && OwesNoMore(s, t)
    ensures OwnIds(t)
  {
    if t.phase.Some? {
      forall b <- Owed(t) ensures Known(t, b) {
        assert Known(s, b);
        assert InternalId(t, b) == InternalId(s, b);
      }
    }
  }

  lemma SweepOneOwes(s: State, w: Sweep, id: string)
    requires id in s.books
    ensures OwesNoMore(s, SweepOne(s, w, id)) && OwesNoMore(s, PhaseCall(s, w, id))
  {
  }

  lemma OwesTransitive(s: State, u: State, t: State)
    requires OwesNoMore(s, u) && OwesNoMore(u, t)
    ensures OwesNoMore(s, t)
  {
    forall b <- Owed(t) ensures InternalId(t, b) == InternalId(s, b) {
      assert b in Owed(u);
    }
  }

  lemma {:induction false} SweepOwes(s: State, w: Sweep, ids: seq<string>, raising: map<string, bool>)
    ensures OwesNoMore(s, SweepAll(s, w, ids, raising))
    decreases |ids|
  {
    if ids != [] {
      if ids[0] in s.books { SweepOneOwes(s, w, ids[0]); }
      if !Blocked(s, w, ids[0], raising) {
        var u := SweepOne(s, w, ids[0]);
        SweepOwes(u, w, ids[1..], raising);
        OwesTransitive(s, u, SweepAll(u, w, ids[1..], raising));
      }
    }
  }

  lemma RetireOwes(s: State, call: ReleaseCall)
    ensures OwesNoMore(s, Retire(s, call))
  {
  }

  lemma CommitOwes(s: State, c: CombatCommit)
    ensures CommittedInCombat(s, c).phase.Some? ==> OwesNoMore(s, CommittedInCombat(s, c))
  {
    if c.Continues? { RetireOwes(s, c.call); }
  }

  /** The Branches of a batch are owed under fresh ids, the older ones under theirs. */
  lemma BatchKeepsOwnIds(s: State, t: State, items: seq<Item>, n: nat, count: nat)
    requires WellFormed(s) && OwnIds(s) && s.phase.Some? && t.phase.Some? && n <= |items| && n <= count
    requires Grown(s.phase.value, t.phase.value, count)
    requires KeepsOthers(s, t, Branches(items[..n]))
    requires forall k | 0 <= k < n :: InternalId(t, items[k].branch) == Some(Serial(s) + 1 + k)
    ensures OwnIds(t)
  {
    forall b <- Owed(t)
      ensures Known(t, b)
      ensures b in s.books ==>
                b in Owed(s) && InternalId(t, b) == InternalId(s, b) && InternalId(s, b).value <= Serial(s)
      ensures b !in s.books ==> exists k :: 0 <= k < n && items[k].branch == b
    {
      if b in s.books {
        assert Known(s, b);
      } else {
        var it :| it in items[..n] && it.branch == b;
        var k :| 0 <= k < n && items[k] == it;
        assert Serial(s) + 1 + k in NewIds(Serial(s), count);
      }
    }
  }

  lemma LeakedKeepsOwnIds(s: State, items: seq<Item>, c: Script, t: State)
    requires WellFormed(s) && OwnIds(s) && Leaked(s, t, items, c)
    ensures OwnIds(t)
  {
    var n := Registered(items, HandedCount(items, c));
    forall k | 0 <= k < n ensures InternalId(t, items[k].branch) == Some(Serial(s) + 1 + k) {
      assert HeldBy(t.books[items[k].branch], Serial(s) + 1 + k);
    }
    BatchKeepsOwnIds(s, t, items, n, HandedCount(items, c));
  }

  lemma PublishedId(s: State, t: State, items: seq<Item>, results: map<nat, Outcome>, k: nat)
    requires forall id <- Serials(Serial(s), |items|) :: id in results
    requires AllPublished(s, t, items, results) && k < |items|
    ensures InternalId(t, items[k].branch) == Some(Serial(s) + 1 + k)
  {
    var ids := Serials(Serial(s), |items|);
    assert PublishedAt(t, s.counter, items[k], ids, results, k);
    assert ids[k] == Serial(s) + 1 + k;
  }

  lemma PublishedKeepsOwnIds(s: State, items: seq<Item>, c: Script, t: State)
    requires WellFormed(s) && OwnIds(s) && Succeeds(Serial(s), items, c) && Published(s, t, items, c)
    ensures OwnIds(t)
  {
    forall k | 0 <= k < |items| ensures InternalId(t, items[k].branch) == Some(Serial(s) + 1 + k) {
      PublishedId(s, t, items, c.poll.results, k);
    }
    assert items[..|items|] == items;
    BatchKeepsOwnIds(s, t, items, |items|, |items|);
  }

  lemma BatchStepKeepsOwnIds(s: State, items: seq<Item>, c: Script, t: State)
    requires WellFormed(s) && OwnIds(s) && BatchStep(s, items, c, t)
    ensures OwnIds(t)
  {
    if Admissible(s, items, c.rootBranchable) {
      if Succeeds(Serial(s), items, c) {
        PublishedKeepsOwnIds(s, items, c, t);
      } else if CleanUpRaises(items, c) {
        LeakedKeepsOwnIds(s, items, c, t);
      } else {
        assert OwesNoMore(s, t);
        OwingNoMoreKeepsOwnIds(s, t);
      }
    }
  }

  /** A fight is entered while something is still owed to an earlier one, whose ids the new phase never gave out. */
  predicate EntersOwing(s: State, op: Op) {
    op.EnterCombat? && op.entry.Enters? && s.phase.None? && !s.faulted && Owed(s) != {}
  }

  lemma EnteringSharesIds(s: State, op: Op, t: State)
    requires Transition(s, op, t) && EntersOwing(s, op)
    ensures !OwnIds(t)
  {
    var fight := Decide(s).(phase := Some(NEW_PHASE));
    var b :| b in Owed(s);
    assert b in Owed(fight) && !Known(fight, b);
    assert RetireRaises(fight, op.entry.call);
    assert b in Owed(t) && !Known(t, b);
  }

  lemma StepKeepsOwnIds(s: State, op: Op, t: State)
    requires WellFormed(s) && OwnIds(s) && Transition(s, op, t) && !EntersOwing(s, op)
    ensures OwnIds(t)
  {
    match op
    case Batch(items, c) => BatchStepKeepsOwnIds(s, items, c, t);
    case SweepOp(kind, ids, raising) =>
      SweepOwes(s, kind, ids, raising);
      OwingNoMoreKeepsOwnIds(s, SweepAll(s, kind, ids, raising));
    case RootCommit(_, _) =>
    case EnterCombat(e) =>
      if s.phase.None? && !s.faulted && e.Enters? { RetireOwes(Decide(s).(phase := Some(NEW_PHASE)), e.call); }
    case CommitInCombat(c) =>
      CommitOwes(s, c);
      if t.phase.Some? && s.phase.Some? && !s.faulted { OwingNoMoreKeepsOwnIds(s, t); }
    case EventBranch(_, _) =>
  }

  lemma OwnIdsOnce(s: State, op: Op, t: State)
    requires WellFormed(s) && Transition(s, op, t)
    ensures Tells(OwnIds, EntersOwing, s, op, t)
  {
    if EntersOwing(s, op) {
      EnteringSharesIds(s, op, t);
    } else if OwnIds(s) {
      StepKeepsOwnIds(s, op, t);
    }
  }

  /**
   In every state of a run whatever is owed to the phase is on its records, each Branch under an id of
   its own, exactly unless some fight is entered while something is still owed to an earlier one.
   */
  lemma IdsAreOwnIff(states: seq<State>, ops: seq<Op>, n: nat)
    requires IsRun(states, ops) && n <= |ops|
    requires WellFormed(states[0]) && OwnIds(states[0])
    ensures (forall i | 0 <= i <= n :: OwnIds(states[i]))
            <==> (forall i | 0 <= i < n :: !EntersOwing(states[i], ops[i]))
  {
    forall i | 0 <= i < n ensures Tells(OwnIds, EntersOwing, states[i], ops[i], states[i + 1]) {
      WellFormedOnEveryRun(states, ops, i);
      OwnIdsOnce(states[i], ops[i], states[i + 1]);
    }
    GoodUntilBroken(OwnIds, EntersOwing, states, ops, n);
  }

  /** Under ids of their own the only release request that diverges is one whose phase call takes effect and raises. */
  lemma OnlyLateRaisesDiverge(s: State, ids: seq<string>, raising: map<string, bool>)
    requires WellFormed(s) && Agree(s) && OwnIds(s) && s.phase.Some?
    ensures var n := Reach(s, Release, ids, raising);
            Diverges(s, SweepOp(Release, ids, raising)) <==>
            n < |ids| && ids[n] in s.reserved && RaisesTooLate(s, ids[n], raising)
  {
    var n := Reach(s, Release, ids, raising);
    forall b <- s.reserved ensures b in Owed(s) && InternalId(s, b).Some? {
      assert Agreed(s, b);
    }
    assert n < |ids| ==> ids[n] !in ids[..n];
    if b :| b in s.reserved && b !in ids[..n] && GivesUp(s, ids, raising, InternalId(s, b).value) {
      forall j | 0 <= j < n && Unreleased(s, ids[j]) ensures InternalId(s, ids[j]) != InternalId(s, b) {
        assert ids[j] in ids[..n];
        assert ids[j] in Owed(s);
      }
      assert ids[n] in Owed(s);
    }
  }

  // ---- The two ways to a reserved, released Branch ---------------------------------------------------

  /** `release` raises after taking effect; the next status request records the release. */
  lemma LateRaiseThenQuery()
    ensures var p := PhaseState(map[1 := Record(Completed, {})], 1, EMPTY_TABLE);
            var n := Book(1, Some(1), Completed, false, CombatView(true));
            var s := State({ROOT_BRANCH_ID, "n"}, map["n" := n], map[], 1, {"n"}, Some(p), false, 64);
            var released := SweepAll(s, Release, ["n"], map["n" := true]);
            var asked := SweepAll(released, Query, ["n"], map[]);
            && WellFormed(s) && Agree(s) && OwnIds(s)
            && released.books == s.books && "n" in asked.reserved && asked.books["n"].status == Released
  {
    RootIsNot("n");
  }

  const FINE := ReleaseCall(false, {})

  /** A fight whose only Branch, `b`, was cancelled; the phase knows it as its first record. */
  function FirstFight(b: string, n: nat): State {
    State({ROOT_BRANCH_ID, b}, map[b := Book(1, Some(1), Cancelled, false, NoView)], map[], n, {b},
          Some(PhaseState(map[1 := Record(Cancelled, {})], 1, EMPTY_TABLE)), false, 64)
  }

  function Between(b: string, n: nat): State {
    Decide(FirstFight(b, n).(reserved := {}, phase := None))
  }

  function SecondFight(b: string, n: nat): State {
    Decide(Between(b, n)).(phase := Some(NEW_PHASE))
  }

  function OneItem(m: string, n: nat): Item {
    Item(m, ROOT_BRANCH_ID, 1, TextIds.DecisionId(ROOT_BRANCH_ID, n + 1), true)
  }

  function GoodScript(): Script {
    Script(true, AllBuilt, Submitted(1), Polled(map[1 := Next(true, false)]), false, FINE)
  }

  function FirstRecordOf(m: string, n: nat): PhaseState {
    PhaseState(map[1 := Record(Completed, {})], 1, AllocateAll(EMPTY_TABLE, RngKeys([OneItem(m, n)])))
  }

  /** `m` is the first record of the second phase, so it shares its internal id with `b`. */
  function SharedId(b: string, m: string, n: nat): State {
    var s := SecondFight(b, n);
    s.(used := s.used + {m},
       books := s.books[m := Book(1, Some(1), Completed, false, CombatView(true))],
       current := s.current[m := TextIds.DecisionId(m, n + 2)], counter := n + 3, reserved := {m},
       phase := Some(FirstRecordOf(m, n)))
  }

  lemma FirstFightEnds(b: string, n: nat)
    requires b != ROOT_BRANCH_ID
    ensures CommittedInCombat(FirstFight(b, n), Completes(false, FINE, false, false, FINE)) == Between(b, n)
    ensures WellFormed(FirstFight(b, n)) && Agree(FirstFight(b, n)) && OwnIds(FirstFight(b, n))
  {
    var s := FirstFight(b, n);
    assert Owed(s) == {b} && OwedIds(s) == {1};
    assert Tombstoned(s.books, s.books.Keys) == s.books;
    assert Retire(s, FINE).(phase := None) == s.(reserved := {}, phase := None);
  }

  lemma SecondFightIsEntered(b: string, n: nat)
    ensures Entered(Between(b, n), Enters(FINE)) == SecondFight(b, n)
  {
    var u := SecondFight(b, n);
    assert Owed(u) == {b} && 1 in OwedIds(u);
    assert ReleaseRecords(map[], FINE.done * OwedIds(u)) == map[];
  }

  lemma SecondFightAdmits(b: string, m: string, n: nat)
    requires b != ROOT_BRANCH_ID && m != ROOT_BRANCH_ID && b != m
    ensures Admissible(SecondFight(b, n), [OneItem(m, n)], true)
  {
    assert ItemOk(SecondFight(b, n), [OneItem(m, n)], 0, true);
  }

  lemma FirstSerial()
    ensures Serials(0, 1) == [1] && NewIds(0, 1) == {1}
  {
    assert NewIds(0, 1) == NewIds(0, 0) + {1};
  }

  lemma FirstTable(item: Item)
    ensures Consistent(AllocateAll(EMPTY_TABLE, RngKeys([item])))
  {
    AllocateAllExtends(EMPTY_TABLE, RngKeys([item]));
  }

  lemma FirstRecordGrows(m: string, n: nat)
    ensures Grown(NEW_PHASE, FirstRecordOf(m, n), 1)
  {
    FirstSerial();
    FirstTable(OneItem(m, n));
  }

  lemma FirstIsRecorded(b: string, m: string, n: nat)
    requires b != ROOT_BRANCH_ID
    ensures AllRecorded(SecondFight(b, n), SharedId(b, m, n), [OneItem(m, n)], GoodScript().poll.results)
  {
    assert ParentOf(SecondFight(b, n).books, OneItem(m, n)) == None;
  }

  lemma OneOpened(results: map<nat, Outcome>)
    requires 1 in results && !results[1].Failed?
    ensures Opened([1], results, 1) == 1
  {
    assert Opened([1], results, 1) == Opened([1], results, 0) + 1;
  }

  lemma SecondFightPublishes(b: string, m: string, n: nat)
    ensures Succeeds(0, [OneItem(m, n)], GoodScript())
    ensures AllPublished(SecondFight(b, n), SharedId(b, m, n), [OneItem(m, n)], GoodScript().poll.results)
  {
    FirstSerial();
    var results := GoodScript().poll.results;
    assert PublishedAt(SharedId(b, m, n), n + 2, OneItem(m, n), [1], results, 0);
  }

  lemma SecondFightParts(b: string, m: string, n: nat)
    requires b != ROOT_BRANCH_ID && m != ROOT_BRANCH_ID && b != m
    ensures var s, t := SecondFight(b, n), SharedId(b, m, n);
            && s.counter == n + 2 && t.counter == n + 3 && t.used == s.used + {m} && t.reserved == s.reserved + {m}
            && s.phase == Some(NEW_PHASE) && t.phase == Some(FirstRecordOf(m, n))
            && KeepsOthers(s, t, {m})
            && Branches([OneItem(m, n)]) == {m}
  {
  }

  lemma PublishesOne(s: State, t: State, it: Item, c: Script, q: PhaseState)
    requires Succeeds(0, [it], c) && Opened([1], c.poll.results, 1) == 1 && Serials(0, 1) == [1]
    requires t.counter == s.counter + 1 && t.used == s.used + {it.branch} && t.reserved == s.reserved + {it.branch}
    requires s.phase == Some(NEW_PHASE) && t.phase == Some(q) && q.table == AllocateAll(EMPTY_TABLE, RngKeys([it]))
    requires Grown(NEW_PHASE, q, 1) && KeepsOthers(s, t, {it.branch}) && Branches([it]) == {it.branch}
    requires AllPublished(s, t, [it], c.poll.results) && AllRecorded(s, t, [it], c.poll.results)
    ensures Published(s, t, [it], c)
  {
  }

  lemma SecondFightBranches(b: string, m: string, n: nat)
    requires b != ROOT_BRANCH_ID && m != ROOT_BRANCH_ID && b != m
    ensures Succeeds(0, [OneItem(m, n)], GoodScript())
    ensures Published(SecondFight(b, n), SharedId(b, m, n), [OneItem(m, n)], GoodScript())
  {
    FirstSerial();
    FirstRecordGrows(m, n);
    FirstIsRecorded(b, m, n);
    SecondFightPublishes(b, m, n);
    OneOpened(GoodScript().poll.results);
    SecondFightParts(b, m, n);
    PublishesOne(SecondFight(b, n), SharedId(b, m, n), OneItem(m, n), GoodScript(), FirstRecordOf(m, n));
  }

  function AfterRelease(b: string, m: string, n: nat): State {
    SweepAll(SharedId(b, m, n), Release, [b], map[])
  }

  function AfterQuery(b: string, m: string, n: nat): State {
    SweepAll(AfterRelease(b, m, n), Query, [m], map[])
  }

  lemma SweepsOne(s: State, w: Sweep, id: string, raising: map<string, bool>)
    requires !Blocked(s, w, id, raising)
    ensures SweepAll(s, w, [id], raising) == SweepOne(s, w, id)
  {
    assert SweepAll(SweepOne(s, w, id), w, [], raising) == SweepOne(s, w, id);
  }

  lemma ReleasingTheOlderFreesTheNewer(b: string, m: string, n: nat)
    requires b != ROOT_BRANCH_ID && m != ROOT_BRANCH_ID && b != m
    ensures m in AfterRelease(b, m, n).reserved && Diverged(AfterRelease(b, m, n), m)
  {
    var s := SharedId(b, m, n);
    assert !Blocked(s, Release, b, map[]);
    SweepsOne(s, Release, b, map[]);
  }

  lemma AskingRecordsIt(b: string, m: string, n: nat)
    requires b != ROOT_BRANCH_ID && m != ROOT_BRANCH_ID && b != m
    ensures m in AfterQuery(b, m, n).reserved
    ensures m in AfterQuery(b, m, n).books && AfterQuery(b, m, n).books[m].status == Released
  {
    ReleasingTheOlderFreesTheNewer(b, m, n);
    SweepsOne(AfterRelease(b, m, n), Query, m, map[]);
  }

  /**
   Internal ids restart with every phase.  Every call below returns: a Branch is cancelled, its fight
   won, the next fight entered, a Branch opened there; releasing the old one frees the record of the
   new one, and a status request then calls the new one released while it is still reserved.
   */
  lemma SharedIdThenQuery(b: string, m: string, n: nat)
    requires b != ROOT_BRANCH_ID && m != ROOT_BRANCH_ID && b != m
    ensures IsRun([FirstFight(b, n), Between(b, n), SecondFight(b, n), SharedId(b, m, n),
                   AfterRelease(b, m, n), AfterQuery(b, m, n)],
                  [CommitInCombat(Completes(false, FINE, false, false, FINE)), EnterCombat(Enters(FINE)),
                   Batch([OneItem(m, n)], GoodScript()), SweepOp(Release, [b], map[]), SweepOp(Query, [m], map[])])
    ensures WellFormed(FirstFight(b, n)) && Agree(FirstFight(b, n)) && OwnIds(FirstFight(b, n))
    ensures var t := AfterQuery(b, m, n); m in t.reserved && m in t.books && t.books[m].status == Released
  {
    FirstFightEnds(b, n);
    SecondFightIsEntered(b, n);
    SecondFightAdmits(b, m, n);
    SecondFightBranches(b, m, n);
    AskingRecordsIt(b, m, n);
    RunOfFive(
      FirstFight(b, n), Between(b, n), SecondFight(b, n), SharedId(b, m, n), AfterRelease(b, m, n), AfterQuery(b, m, n),
      CommitInCombat(Completes(false, FINE, false, false, FINE)), EnterCombat(Enters(FINE)),
      Batch([OneItem(m, n)], GoodScript()), SweepOp(Release, [b], map[]), SweepOp(Query, [m], map[]));
  }

  lemma RunOfFive(s0: State, s1: State, s2: State, s3: State, s4: State, s5: State, a: Op, b: Op, c: Op, d: Op, e: Op)
    requires Transition(s0, a, s1) && Transition(s1, b, s2) && Transition(s2, c, s3)
    requires Transition(s3, d, s4) && Transition(s4, e, s5)
    ensures IsRun([s0, s1, s2, s3, s4, s5], [a, b, c, d, e])
  {
  }

  lemma RootIsNot(b: string)
    requires |b| == 1
    ensures b != ROOT_BRANCH_ID
  {
  }

  // ---- When a failed batch is undone -----------------------------------------------------------------

  /**
   A failed batch leaves everything but the decision counter and the phase's tombstones as it was exactly
   when no clean-up call raised on ids handed out (and none of its ids was left reserved without a
   book); and exactly then it can be sent again under the same Branch ids.
   */
  lemma FailedBatchIsUndoneIff(s: State, items: seq<Item>, c: Script, t: State)
    requires WellFormed(s) && Admissible(s, items, c.rootBranchable) && !Succeeds(Serial(s), items, c)
    requires BatchStep(s, items, c, t)
    ensures t.phase.Some? && t.counter >= s.counter
    ensures (&& t == s.(counter := t.counter, phase := t.phase)
             && t.phase.value.table == s.phase.value.table && Held(t.phase.value) == Held(s.phase.value))
            <==> !CleanUpRaises(items, c) && Branches(items) !! s.reserved
    ensures Bookkept(s) ==> Branches(items) !! s.reserved
    ensures Admissible(t, items, c.rootBranchable) <==> !CleanUpRaises(items, c)
  {
    if CleanUpRaises(items, c) {
      LeakIsNotUndone(s, items, c, t);
    } else {
      RolledBackCanBeResent(s, items, c, t);
    }
    if Bookkept(s) { BookkeptAreOthers(s, items, c); }
  }

  lemma LeakIsNotUndone(s: State, items: seq<Item>, c: Script, t: State)
    requires Admissible(s, items, c.rootBranchable) && Leaked(s, t, items, c) && CleanUpRaises(items, c)
    ensures t.used != s.used && !Admissible(t, items, c.rootBranchable)
  {
    assert ItemOk(s, items, 0, c.rootBranchable);
    var n := Registered(items, HandedCount(items, c));
    assert items[..n][0] == items[0] && items[0].branch in Branches(items[..n]);
    assert !ItemOk(t, items, 0, c.rootBranchable);
  }

  lemma RolledBackCanBeResent(s: State, items: seq<Item>, c: Script, t: State)
    requires WellFormed(s) && Admissible(s, items, c.rootBranchable)
    requires RolledBack(s, t, items, HandedCount(items, c))
    ensures Admissible(t, items, c.rootBranchable)
    ensures t.phase.value.table == s.phase.value.table && Held(t.phase.value) == Held(s.phase.value)
    ensures t == s.(counter := t.counter, phase := t.phase) <==> Branches(items) !! s.reserved
  {
    StillAdmissible(s, t, items, c.rootBranchable);
    HeldAsBefore(s.phase.value, t.phase.value, HandedCount(items, c));
    assert s.reserved - Branches(items) == s.reserved <==> Branches(items) !! s.reserved;
  }

  lemma StillAdmissible(s: State, t: State, items: seq<Item>, rootBranchable: bool)
    requires Admissible(s, items, rootBranchable) && t.phase.Some? && t.reserved <= s.reserved
    requires t == s.(counter := t.counter, phase := t.phase, reserved := t.reserved)
    ensures Admissible(t, items, rootBranchable)
  {
    SubsetSize(t.reserved, s.reserved);
    forall k | 0 <= k < |items| ensures ItemOk(t, items, k, rootBranchable) {
      assert ItemOk(s, items, k, rootBranchable);
    }
  }

  lemma HeldAsBefore(p: PhaseState, q: PhaseState, count: nat)
    requires Numbered(p) && Grown(p, q, count)
    requires forall id <- NewIds(p.serial, count) :: q.records[id].state == Released
    ensures Held(q) == Held(p)
  {
  }

  /** An admitted batch names no id that is reserved already, as long as reserved ids are bookkept. */
  lemma BookkeptAreOthers(s: State, items: seq<Item>, c: Script)
    requires WellFormed(s) && Bookkept(s) && Admissible(s, items, c.rootBranchable)
    ensures Branches(items) !! s.reserved
  {
    forall k | 0 <= k < |items| ensures items[k].branch !in s.used {
      assert ItemOk(s, items, k, c.rootBranchable);
    }
    assert forall b <- s.reserved :: Unreleased(s, b);
    assert s.reserved <= s.books.Keys;
  }

  predicate Names(op: Op, b: string) {
    || (op.Batch? && b in Branches(op.items))
    || (op.EventBranch? && op.branch == b)
  }

  lemma {:induction false} SweepKeepsStranded(
    s: State, w: Sweep, ids: seq<string>, raising: map<string, bool>, b: string)
    requires b in s.reserved && b !in s.books
    ensures var t := SweepAll(s, w, ids, raising); b in t.reserved && b !in t.books
    decreases |ids|
  {
    if ids != [] && !Blocked(s, w, ids[0], raising) {
      SweepKeepsStranded(SweepOne(s, w, ids[0]), w, ids[1..], raising, b);
    }
  }

  lemma BatchKeepsStranded(s: State, items: seq<Item>, c: Script, t: State, b: string)
    requires BatchStep(s, items, c, t) && b !in Branches(items)
    requires b in s.reserved && b !in s.books
    ensures b in t.reserved && b !in t.books
  {
    if Admissible(s, items, c.rootBranchable) && !Succeeds(Serial(s), items, c) && CleanUpRaises(items, c) {
      var n := Registered(items, HandedCount(items, c));
      assert Branches(items[..n]) <= Branches(items);
    }
  }

  lemma PoisonKeepsStranded(s: State, again: ReleaseCall, b: string)
    requires b in s.reserved && b !in s.books
    ensures b in Poisoned(s, again).reserved && b !in Poisoned(s, again).books
    ensures b in Retire(s, again).reserved && b !in Retire(s, again).books
  {
  }

  lemma CommitKeepsStranded(s: State, c: CombatCommit, b: string)
    requires b in s.reserved && b !in s.books
    ensures var t := CommittedInCombat(s, c); b in t.reserved && b !in t.books
  {
    PoisonKeepsStranded(s, c.again, b);
    if !c.StepRaises? { PoisonKeepsStranded(Retire(s, c.call), c.again, b); }
  }

  lemma StrandedStep(s: State, op: Op, t: State, b: string)
    requires Transition(s, op, t) && !Names(op, b)
    requires b in s.reserved && b !in s.books
    ensures b in t.reserved && b !in t.books
  {
    match op
    case SweepOp(kind, ids, raising) => SweepKeepsStranded(s, kind, ids, raising, b);
    case Batch(items, c) => BatchKeepsStranded(s, items, c, t, b);
    case CommitInCombat(c) => CommitKeepsStranded(s, c, b);
    case _ =>
  }

  /** A reservation without a book is never given back, whatever is done, until its id is named again. */
  lemma {:induction false} StrandedCapacityIsLost(states: seq<State>, ops: seq<Op>, b: string, n: nat)
    requires IsRun(states, ops) && n <= |ops|
    requires b in states[0].reserved && b !in states[0].books
    requires forall i | 0 <= i < |ops| :: !Names(ops[i], b)
    ensures b in states[n].reserved && b !in states[n].books
  {
    if n > 0 {
      StrandedCapacityIsLost(states, ops, b, n - 1);
      StrandedStep(states[n - 1], ops[n - 1], states[n], b);
    }
  }

  // ---- A cancelled Branch outlives its phase ---------------------------------------------------------

  function CancelledCombat(s: State): set<string> {
    set b | b in s.books && s.books[b].internalId.Some? && s.books[b].status == Cancelled
  }

  /** With the phase folded, retiring everything raises exactly when a combat Branch was cancelled before. */
  lemma RetireAfterFoldRaisesIff(s: State, first: ReleaseCall, later: ReleaseCall)
    requires s.phase.Some? && !RetireRaises(s, first)
    ensures RetireRaises(Retire(s, first).(phase := None), later) <==> CancelledCombat(s) != {}
  {
    assert Owed(Retire(s, first).(phase := None)) == CancelledCombat(s);
  }

  lemma {:induction false} SweepKeepsOwed(
    s: State, w: Sweep, ids: seq<string>, raising: map<string, bool>, b: string)
    requires s.phase.None? && b in Owed(s)
    ensures var t := SweepAll(s, w, ids, raising);
            t.phase.None? && b in Owed(t) && t.books.Keys == s.books.Keys && t.used == s.used
    decreases |ids|
  {
    if ids != [] && !Blocked(s, w, ids[0], raising) {
      SweepKeepsOwed(SweepOne(s, w, ids[0]), w, ids[1..], raising, b);
    }
  }

  ghost predicate Wedged(s: State, b: string) {
    s.phase.None? && b in Owed(s) && s.books.Keys <= s.used
  }

  lemma StaysWedged(s: State, op: Op, t: State, b: string)
    requires Wedged(s, b) && Transition(s, op, t) && !op.EnterCombat?
    ensures Wedged(t, b)
  {
    match op
    case SweepOp(kind, ids, raising) => SweepKeepsOwed(s, kind, ids, raising, b);
    case RootCommit(call, _) => assert RetireRaises(s, call);
    case _ =>
  }

  /** From then on every root commit's retirement raises until another combat is entered. */
  lemma {:induction false} WedgedUntilNextCombat(states: seq<State>, ops: seq<Op>, b: string, n: nat, call: ReleaseCall)
    requires IsRun(states, ops) && n <= |ops|
    requires forall i | 0 <= i < n :: !ops[i].EnterCombat?
    requires Wedged(states[0], b)
    ensures Wedged(states[n], b) && RetireRaises(states[n], call)
  {
    if n > 0 {
      WedgedUntilNextCombat(states, ops, b, n - 1, call);
      StaysWedged(states[n - 1], ops[n - 1], states[n], b);
    }
  }

  /** In a fight whose phase does not know an owed id, every commit that advances the board poisons the run. */
  lemma UnknownIdPoisons(s: State, b: string, c: CombatCommit)
    requires s.phase.Some? && b in Owed(s) && !Known(s, b)
    requires c.StepRaises? ==> c.advanced
    ensures CommittedInCombat(s, c).faulted && CommittedInCombat(s, c).phase.None?
  {
    assert s.books[b].internalId.value in OwedIds(s);
    if !c.StepRaises? { assert RetireRaises(s, c.call); }
  }

  /** After a leftover the next fight is entered unrecorded, and one commit there, with no Branch opened, poisons. */
  lemma LeftoverPoisonsNextFight(s: State, b: string, call: ReleaseCall, c: CombatCommit)
    requires s.phase.None? && b in Owed(s) && (c.StepRaises? ==> c.advanced)
    ensures var entered := Entered(s, Enters(call));
            && entered == Decide(s).(phase := Some(NEW_PHASE))
            && CommittedInCombat(entered, c).faulted && CommittedInCombat(entered, c).phase.None?
  {
    var fight := Decide(s).(phase := Some(NEW_PHASE));
    assert s.books[b].internalId.value in OwedIds(fight);
    assert ReleaseRecords(map[], call.done * OwedIds(fight)) == map[];
    assert b in Owed(fight) && !Known(fight, b);
    UnknownIdPoisons(fight, b, c);
  }

  /** One cancelled Branch is enough: cancel it, win the fight, and the next root commit fails. */
  lemma CancelledBranchOutlivesCombat()
    ensures var p := PhaseState(map[1 := Record(Completed, {})], 1, EMPTY_TABLE);
            var b := Book(1, Some(1), Completed, false, CombatView(true));
            var s := State({ROOT_BRANCH_ID, "b"}, map["b" := b], map[], 1, {"b"}, Some(p), false, 64);
            var cancelled := SweepAll(s, Cancel, ["b"], map[]);
            var fine := ReleaseCall(false, {});
            && WellFormed(s) && Agree(s) && OwnIds(s)
            && !RetireRaises(cancelled, fine) && RetireRaises(Retire(cancelled, fine).(phase := None), fine)
  {
    var p := PhaseState(map[1 := Record(Completed, {})], 1, EMPTY_TABLE);
    var b := Book(1, Some(1), Completed, false, CombatView(true));
    var s := State({ROOT_BRANCH_ID, "b"}, map["b" := b], map[], 1, {"b"}, Some(p), false, 64);
    var cancelled := SweepAll(s, Cancel, ["b"], map[]);
    var fine := ReleaseCall(false, {});
    RootIsNot("b");
    assert cancelled == SweepOne(s, Cancel, "b");
    assert "b" in CancelledCombat(cancelled);
    assert OwedIds(cancelled) <= {1};
    RetireAfterFoldRaisesIff(cancelled, fine, fine);
  }
}
