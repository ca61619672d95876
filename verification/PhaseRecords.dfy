/**
 The combat phase as the whole-run instance sees it (API/combat_phase.py) and the records its
 BranchManager keeps (Combat/search/branch_manager.py): an internal id per Branch, numbered from one
 in every phase, a state per record, and the records above it, which a cancel reaches it through.

 How a foreign call ends is part of the `Script` of a batch.
 */
module PhaseRecords {
  import opened Wrappers
  import opened Identifiers

  datatype Status = Completed | Faulted | Cancelled | Released | Queued | Running

  datatype Record = Record(state: Status, above: set<nat>)

  datatype PhaseState = PhaseState(records: map<nat, Record>, serial: nat, table: Table)

  datatype Item = Item(branch: string, parent: string, rngId: int, decision: string, actionOffered: bool)

  datatype Build = AllBuilt | BuildRaises(at: nat, indexed: bool)

  /** How many internal ids come back; the manager's own answer is one for each work item. */
  datatype Submit = SubmitRaises | Submitted(count: nat)

  /** A poll that raises while dispatching has cancelled and released its own records first. */
  datatype Poll = PollRaises(quarantined: bool) | Polled(results: map<nat, Outcome>)

  /** A Branch's result, and whether publishing it raises. */
  datatype Outcome = Failed | Unreadable | Next(branchable: bool, fieldsRaise: bool) | Ended(outcomeKnown: bool)

  /** A release of several records; `done` are those it had released before it raised. */
  datatype ReleaseCall = ReleaseCall(raises: bool, done: set<nat>)

  datatype Script = Script(
    rootBranchable: bool, build: Build, submit: Submit, poll: Poll, cancelRaises: bool, release: ReleaseCall)

  // ---- Batches ---------------------------------------------------------------------------------------

  function Branches(items: seq<Item>): set<string> {
    set it <- items :: it.branch
  }

  predicate Distinct(items: seq<Item>) {
    forall j, k | 0 <= j < k < |items| :: items[j].branch != items[k].branch
  }

  lemma BranchesGrow(items: seq<Item>, k: nat)
    requires k < |items|
    ensures Branches(items[..k + 1]) == Branches(items[..k]) + {items[k].branch}
  {
    assert items[..k + 1] == items[..k] + [items[k]];
  }

  /** The first `n` Branches of a batch filed one after the other. */
  function PutAll<V>(m: map<string, V>, items: seq<Item>, values: seq<V>, n: nat): map<string, V>
    requires n <= |items| && n <= |values|
  {
    if n == 0 then m else PutAll(m, items, values, n - 1)[items[n - 1].branch := values[n - 1]]
  }

  lemma {:induction false} PutAllKeys<V>(m: map<string, V>, items: seq<Item>, values: seq<V>, n: nat)
    requires n <= |items| && n <= |values|
    ensures PutAll(m, items, values, n).Keys == m.Keys + Branches(items[..n])
  {
    if n > 0 {
      PutAllKeys(m, items, values, n - 1);
      BranchesGrow(items, n - 1);
    }
  }

  lemma {:induction false} PutAllKeeps<V>(m: map<string, V>, items: seq<Item>, values: seq<V>, n: nat, b: string)
    requires n <= |items| && n <= |values| && b in m && forall it <- items :: it.branch != b
    ensures b in PutAll(m, items, values, n) && PutAll(m, items, values, n)[b] == m[b]
  {
    if n > 0 {
      PutAllKeeps(m, items, values, n - 1, b);
      assert items[n - 1] in items;
    }
  }

  lemma {:induction false} PutAllHolds<V>(m: map<string, V>, items: seq<Item>, values: seq<V>, n: nat, k: nat)
    requires k < n <= |items| && n <= |values| && Distinct(items)
    ensures items[k].branch in PutAll(m, items, values, n)
    ensures PutAll(m, items, values, n)[items[k].branch] == values[k]
  {
    if k < n - 1 { PutAllHolds(m, items, values, n - 1, k); }
  }

  // ---- Records ---------------------------------------------------------------------------------------

  /** Serials never run ahead of the counter, and what is above a record is older. */
  ghost predicate Numbered(p: PhaseState) {
    forall k <- p.records :: k <= p.serial && forall a <- p.records[k].above :: a < k
  }

  /** Records the phase has not been asked to give up. */
  function Held(p: PhaseState): set<nat> {
    set k | k in p.records && p.records[k].state != Released
  }

  function Active(p: PhaseState): set<nat> {
    set k | k in p.records && (p.records[k].state == Queued || p.records[k].state == Running)
  }

  function Serials(serial: nat, count: nat): seq<nat> {
    seq(count, i requires 0 <= i < count => serial + 1 + i)
  }

  function NewIds(serial: nat, count: nat): (ids: set<nat>)
    ensures forall k: nat :: k in ids <==> serial < k <= serial + count
  {
    if count == 0 then {} else NewIds(serial, count - 1) + {serial + count}
  }

  function IdSet(ids: seq<nat>): set<nat> {
    set i <- ids
  }

  lemma SerialsAreNew(serial: nat, count: nat)
    ensures IdSet(Serials(serial, count)) == NewIds(serial, count)
  {
    forall k | k in NewIds(serial, count) ensures k in Serials(serial, count) {
      assert Serials(serial, count)[k - serial - 1] == k;
    }
  }

  function AboveOf(records: map<nat, Record>, parent: Option<nat>): set<nat> {
    if parent.Some? && parent.value in records then {parent.value} + records[parent.value].above else {}
  }

  function ParentAt(parents: seq<Option<nat>>, i: int): Option<nat> {
    if 0 <= i < |parents| then parents[i] else None
  }

  function SubmitRecords(records: map<nat, Record>, serial: nat, parents: seq<Option<nat>>, count: nat)
    : map<nat, Record>
  {
    map k: nat | k in records.Keys + NewIds(serial, count) ::
      if serial < k <= serial + count
      then Record(Queued, AboveOf(records, ParentAt(parents, k - serial - 1)))
      else records[k]
  }

  lemma SubmitOneMore(records: map<nat, Record>, serial: nat, parents: seq<Option<nat>>, n: nat)
    ensures SubmitRecords(records, serial, parents, n + 1) ==
            SubmitRecords(records, serial, parents, n)[
              serial + n + 1 := Record(Queued, AboveOf(records, ParentAt(parents, n)))]
  {
  }

  function Finished(o: Outcome): Status {
    if o.Failed? then Faulted else Completed
  }

  function PolledRecord(r: Record, k: nat, poll: Poll): Record {
    match poll
    case PollRaises(quarantined) => if quarantined then r.(state := Released) else r
    case Polled(results) => if k in results then r.(state := Finished(results[k])) else r
  }

  function PollRecords(records: map<nat, Record>, ids: set<nat>, poll: Poll): map<nat, Record> {
    map k | k in records :: if k in ids then PolledRecord(records[k], k, poll) else records[k]
  }

  function CancelRecord(r: Record): Record {
    if r.state == Cancelled || r.state == Released then r else r.(state := Cancelled)
  }

  /** A cancel cascades to everything below the record. */
  function CancelRecords(records: map<nat, Record>, id: nat): map<nat, Record> {
    map k | k in records :: if k == id || id in records[k].above then CancelRecord(records[k]) else records[k]
  }

  /** A release does not cascade. */
  function ReleaseRecords(records: map<nat, Record>, ids: set<nat>): map<nat, Record> {
    map k | k in records :: if k in ids then records[k].(state := Released) else records[k]
  }

  // ---- What a batch does to them ---------------------------------------------------------------------

  function Key(it: Item): RngKey {
    RngKey(it.parent, it.decision, it.rngId)
  }

  function RngKeys(items: seq<Item>): seq<RngKey> {
    seq(|items|, k requires 0 <= k < |items| => Key(items[k]))
  }

  predicate AllBuild(items: seq<Item>, build: Build) {
    build.BuildRaises? ==> build.at >= |items|
  }

  /** How many hypotheses are allocated before the build ends or raises. */
  function Allocations(items: seq<Item>, build: Build): (n: nat)
    ensures n <= |items|
  {
    if AllBuild(items, build) then |items| else build.at + if build.indexed then 1 else 0
  }

  /** How many internal ids the phase hands out. */
  function HandedCount(items: seq<Item>, c: Script): nat {
    if !AllBuild(items, c.build) || c.submit.SubmitRaises? then 0 else c.submit.count
  }

  /** The internal ids the unwinding has to give back. */
  function HandedOut(serial: nat, items: seq<Item>, c: Script): seq<nat> {
    Serials(serial, HandedCount(items, c))
  }

  /** Every work item built and `count` of them given a record. */
  function AfterSubmit(p: PhaseState, items: seq<Item>, parents: seq<Option<nat>>, count: nat): PhaseState {
    PhaseState(SubmitRecords(p.records, p.serial, parents, count), p.serial + count,
               AllocateAll(p.table, RngKeys(items)))
  }

  predicate PollReached(items: seq<Item>, c: Script) {
    AllBuild(items, c.build) && c.submit.Submitted? && c.submit.count == |items|
  }

  /** Whether an id handed out to a batch that failed is released at the phase in the end. */
  predicate GivenBack(items: seq<Item>, c: Script, id: nat) {
    || !c.release.raises
    || id in c.release.done
    || (PollReached(items, c) && c.poll.PollRaises? && c.poll.quarantined)
  }

  /** `q` is `p` with `count` more records; nothing older has changed. */
  ghost predicate Grown(p: PhaseState, q: PhaseState, count: nat) {
    && q.serial == p.serial + count
    && q.records.Keys == p.records.Keys + NewIds(p.serial, count)
    && (forall k <- p.records :: q.records[k] == p.records[k])
    && Numbered(q) && Consistent(q.table)
  }

  /** The same records, in other states where they are named. */
  ghost predicate OnlyStatesOf(before: map<nat, Record>, after: map<nat, Record>, ids: set<nat>) {
    && after.Keys == before.Keys
    && (forall k <- before :: after[k].above == before[k].above)
    && (forall k <- before | k !in ids :: after[k] == before[k])
  }

  /** Released exactly where it was before. */
  ghost predicate SameReleased(before: map<nat, Record>, after: map<nat, Record>) {
    after.Keys == before.Keys && forall k <- before :: after[k].state == Released <==> before[k].state == Released
  }

  /** Every new record is released, or none is. */
  ghost predicate AllOrNoneReleased(records: map<nat, Record>, serial: nat, count: nat, gone: bool) {
    forall k <- NewIds(serial, count) :: k in records && (records[k].state == Released <==> gone)
  }

  lemma GrownThenStates(p: PhaseState, q: PhaseState, r: PhaseState, count: nat)
    requires Numbered(p) && Grown(p, q, count)
    requires OnlyStatesOf(q.records, r.records, NewIds(p.serial, count)) && r.serial == q.serial && Consistent(r.table)
    ensures Grown(p, r, count)
  {
  }

  lemma NothingGrown(p: PhaseState, q: PhaseState)
    requires Numbered(p) && q == p.(table := q.table) && Consistent(q.table)
    ensures Grown(p, q, 0)
  {
    assert NewIds(p.serial, 0) == {};
  }

  lemma NoneHandedOut(serial: nat, items: seq<Item>, c: Script)
    requires HandedCount(items, c) == 0
    ensures HandedOut(serial, items, c) == []
  {
  }

  lemma SubmitGrows(p: PhaseState, q: PhaseState, parents: seq<Option<nat>>, count: nat)
    requires Numbered(p) && q.records == SubmitRecords(p.records, p.serial, parents, count)
             && q.serial == p.serial + count
    requires Consistent(q.table)
    ensures Grown(p, q, count)
  {
  }

  /** New records are queued under the next serials, each below its parent and all above that; older ones stand. */
  lemma SubmittedAre(p: PhaseState, parents: seq<Option<nat>>, count: nat, k: nat, id: nat)
    requires Numbered(p) && k < count == |parents| && id == p.serial + 1 + k
    ensures var after := SubmitRecords(p.records, p.serial, parents, count);
            && id in after && after[id].state == Queued && id !in p.records
            && after[id].above == (if parents[k].Some? && parents[k].value in p.records
                                   then {parents[k].value} + p.records[parents[k].value].above else {})
            && forall older <- p.records :: older in after && after[older] == p.records[older]
  {
  }

  lemma PollStatesOnly(p: PhaseState, q: PhaseState, count: nat, poll: Poll)
    requires Grown(p, q, count)
    ensures OnlyStatesOf(q.records, PollRecords(q.records, NewIds(p.serial, count), poll), NewIds(p.serial, count))
  {
  }

  /** What became of one new record once its result is in. */
  lemma SubmittedThenPolled(p: PhaseState, parents: seq<Option<nat>>, results: map<nat, Outcome>, count: nat, k: nat)
    requires k < count == |parents| && p.serial + 1 + k in results
    ensures var records := PollRecords(
              SubmitRecords(p.records, p.serial, parents, count), NewIds(p.serial, count), Polled(results));
            && p.serial + 1 + k in records
            && records[p.serial + 1 + k] == Record(Finished(results[p.serial + 1 + k]), AboveOf(p.records, parents[k]))
  {
  }

  /** No new record is released before the clean-up, unless the poll has quarantined them all. */
  lemma QueuedThenPolled(p: PhaseState, parents: seq<Option<nat>>, count: nat, poll: Poll)
    ensures var records := SubmitRecords(p.records, p.serial, parents, count);
            && AllOrNoneReleased(records, p.serial, count, false)
            && AllOrNoneReleased(PollRecords(records, NewIds(p.serial, count), poll), p.serial, count,
                                 poll.PollRaises? && poll.quarantined)
  {
  }

  lemma CancelledNewOnly(p: PhaseState, q: PhaseState, count: nat, id: nat)
    requires Numbered(p) && Grown(p, q, count) && id in NewIds(p.serial, count)
    ensures OnlyStatesOf(q.records, CancelRecords(q.records, id), NewIds(p.serial, count))
  {
  }

  // ---- The phase -------------------------------------------------------------------------------------

  class CombatPhase {
    const rng: RngHypothesisTable
    var records: map<nat, Record>
    var serial: nat

    ghost function Abs(): PhaseState
      reads this, rng
    {
      PhaseState(records, serial, rng.Abs())
    }

    constructor ()
      ensures fresh(rng) && Consistent(rng.Abs()) && Abs() == PhaseState(map[], 0, EMPTY_TABLE)
    {
      rng := new RngHypothesisTable();
      records, serial := map[], 0;
    }

    /** `build_work_item` for each item: allocates hypotheses, in order, until one raises. */
    method BuildWorkItems(items: seq<Item>, build: Build) returns (ok: bool)
      requires Consistent(rng.Abs())
      modifies rng
      ensures ok == AllBuild(items, build)
      ensures Consistent(rng.Abs()) && old(rng.order) <= rng.order
      ensures rng.Abs() == AllocateAll(old(rng.Abs()), RngKeys(items[..Allocations(items, build)]))
    {
      ghost var before := rng.Abs();
      for k := 0 to |items|
        invariant Consistent(rng.Abs()) && old(rng.order) <= rng.order
        invariant build.BuildRaises? ==> build.at >= k
        invariant rng.Abs() == AllocateAll(before, RngKeys(items[..k]))
      {
        KeysSnoc(items, k);
        AllocateAllSnoc(before, RngKeys(items[..k]), Key(items[k]));
        ok := BuildWorkItem(items[k], build, k);
        if !ok { return; }
      }
      assert items[..|items|] == items;
      ok := true;
    }

    method BuildWorkItem(it: Item, build: Build, k: nat) returns (ok: bool)
      requires Consistent(rng.Abs())
      modifies rng
      ensures Consistent(rng.Abs()) && old(rng.order) <= rng.order
      ensures ok == !(build.BuildRaises? && build.at == k)
      ensures rng.Abs() == if ok || build.indexed then Allocate(old(rng.Abs()), Key(it)) else old(rng.Abs())
    {
      ok := !(build.BuildRaises? && build.at == k);
      AllocateKeepsConsistent(rng.Abs(), Key(it));
      if ok || build.indexed {
        var _ := rng.HypothesisIndexFor(it.parent, it.decision, it.rngId);
      }
    }

    /** New queued records, numbered on. */
    method SubmitMany(parents: seq<Option<nat>>, count: nat) returns (ids: seq<nat>)
      modifies this
      ensures ids == Serials(old(serial), count) && serial == old(serial) + count
      ensures records == SubmitRecords(old(records), old(serial), parents, count)
    {
      ids := [];
      var known := records;
      ghost var first := serial;
      for n := 0 to count
        invariant ids == Serials(first, n) && serial == first + n
        invariant known == old(records) && records == SubmitRecords(known, first, parents, n)
      {
        SubmitOneMore(known, first, parents, n);
        serial := serial + 1;
        records := records[serial := Record(Queued, AboveOf(known, ParentAt(parents, n)))];
        ids := ids + [serial];
      }
    }

    /** Build every work item, then submit them all. */
    method SubmitWorkItems(items: seq<Item>, parents: seq<Option<nat>>, c: Script) returns (ok: bool, ids: seq<nat>)
      requires Consistent(rng.Abs()) && Numbered(Abs())
      modifies this, rng
      ensures ok == (AllBuild(items, c.build) && c.submit.Submitted?)
      ensures ids == HandedOut(old(serial), items, c) && |ids| == HandedCount(items, c)
      ensures Grown(old(Abs()), Abs(), |ids|) && old(rng.order) <= rng.order
      ensures ok ==> Abs() == AfterSubmit(old(Abs()), items, parents, |ids|)
    {
      ghost var p := Abs();
      ids := [];
      ok := BuildWorkItems(items, c.build);
      if !ok || c.submit.SubmitRaises? {
        NothingGrown(p, Abs());
        NoneHandedOut(serial, items, c);
        return false, [];
      }
      assert items[..|items|] == items;
      ids := SubmitMany(parents, c.submit.count);
      SubmitGrows(p, Abs(), parents, c.submit.count);
    }

    /** The results, as the records have them. */
    method PollResults(ids: seq<nat>, poll: Poll) returns (ok: bool)
      modifies this`records
      ensures ok == poll.Polled?
      ensures records == PollRecords(old(records), IdSet(ids), poll)
    {
      ok := poll.Polled?;
      var polled := IdSet(ids);
      records := map k | k in records :: if k in polled then PolledRecord(records[k], k, poll) else records[k];
    }

    /** How many records are queued or running. */
    method ActiveBranchCount() returns (n: nat)
      ensures n == |Active(Abs())|
    {
      var active := set k | k in records && (records[k].state == Queued || records[k].state == Running);
      assert active == Active(Abs());
      n := |active|;
    }

    /** One record and everything below it; an unknown id raises. */
    method Cancel(id: nat) returns (ok: bool)
      modifies this`records
      ensures ok == (id in old(records))
      ensures records == if ok then CancelRecords(old(records), id) else old(records)
    {
      ok := id in records;
      if ok { records := CancelRecords(records, id); }
    }

    /** The records of one batch. */
    method CancelNew(ids: seq<nat>, ghost p: PhaseState)
      requires Numbered(p) && ids == Serials(p.serial, |ids|) && Grown(p, Abs(), |ids|)
      modifies this`records
      ensures Grown(p, Abs(), |ids|) && SameReleased(old(records), records)
    {
      for n := 0 to |ids|
        invariant Grown(p, Abs(), |ids|) && SameReleased(old(records), records)
      {
        ghost var q := Abs();
        assert ids[n] in NewIds(p.serial, |ids|);
        CancelledNewOnly(p, q, |ids|, ids[n]);
        var _ := Cancel(ids[n]);
        GrownThenStates(p, q, Abs(), |ids|);
      }
    }

    /** `restore_rng_hypotheses`, back to the table a marker was taken from. */
    method RestoreHypotheses(marker: nat, ghost before: Table)
      requires Consistent(rng.Abs()) && Consistent(before) && before.order <= rng.order && marker == |before.order|
      modifies rng
      ensures rng.Abs() == before
    {
      RestoredIs(rng.Abs(), before);
      var _ := rng.Restore(marker);
    }

    /** Raises at an unknown id too; what was released before stays released. */
    method Release(ids: set<nat>, call: ReleaseCall) returns (ok: bool)
      modifies this`records
      ensures ok == (!call.raises && ids <= old(records).Keys)
      ensures records == ReleaseRecords(old(records), if ok then ids else call.done * ids)
    {
      ok := !call.raises && ids <= records.Keys;
      records := ReleaseRecords(records, if ok then ids else call.done * ids);
    }
  }

  lemma KeysSnoc(items: seq<Item>, k: nat)
    requires k < |items|
    ensures RngKeys(items[..k + 1]) == RngKeys(items[..k]) + [Key(items[k])]
  {
  }
}
