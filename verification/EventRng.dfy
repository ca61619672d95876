/**
 Reference counting of Event RNG hypotheses (API/whole_run_event_rng.py).

 A hypothesis lives from its first Branch to its last; each new life of a key takes the next
 generation.  The registry keeps three dictionaries for all keys at once; `Life` is the same
 story told for one key, and `StepIsALifeStep` says the registry never departs from it.
 */
module EventRng {
  import opened Wrappers
  import opened Identifiers

  /** The four RNG streams of one active event, as plain data. */
  datatype RngState = RngState(eventId: string, words: seq<int>)

  datatype Entry = Entry(state: RngState, generation: nat)

  datatype Registry = Registry(
    entries: map<RngKey, Entry>, refs: map<RngKey, set<string>>, generations: map<RngKey, nat>)

  const NO_HYPOTHESES := Registry(map[], map[], map[])

  function Refs(r: Registry, k: RngKey): set<string> {
    if k in r.refs then r.refs[k] else {}
  }

  function Generation(r: Registry, k: RngKey): nat {
    if k in r.generations then r.generations[k] else 0
  }

  /** `prepare_state`: the live override if there is one, else the derived state; no mutation. */
  function PrepareState(r: Registry, k: RngKey, base: RngState, rngId: int, derive: (RngState, int) -> RngState)
    : RngState
  {
    if k in r.entries then r.entries[k].state else derive(base, rngId)
  }

  /** `commit_branch`; `None` when the prepared state no longer matches the live hypothesis. */
  function WithBranch(r: Registry, k: RngKey, s: RngState, branch: string): Option<Registry> {
    if k in r.entries then
      if r.entries[k].state != s then None
      else Some(r.(refs := r.refs[k := Refs(r, k) + {branch}]))
    else
      var g := Generation(r, k) + 1;
      Some(Registry(r.entries[k := Entry(s, g)], r.refs[k := Refs(r, k) + {branch}], r.generations[k := g]))
  }

  function WithoutBranch(r: Registry, k: RngKey, branch: string): Registry {
    if k in r.refs then
      var left := r.refs[k] - {branch};
      if left == {} then r.(entries := r.entries - {k}, refs := r.refs - {k})
      else r.(refs := r.refs[k := left])
    else r.(entries := r.entries - {k})
  }

  function WithoutBranches(r: Registry): Registry {
    r.(entries := map[], refs := map[])
  }

  /** Live entries and reference sets name the same keys; generations agree with live entries. */
  ghost predicate Sound(r: Registry) {
    && r.entries.Keys == r.refs.Keys
    && (forall k | k in r.refs :: r.refs[k] != {})
    && (forall k | k in r.entries :: k in r.generations && r.entries[k].generation == r.generations[k])
    && (forall k | k in r.generations :: r.generations[k] > 0)
  }

  class EventRngHypothesisRegistry {
    var entries: map<RngKey, Entry>
    var branchRefs: map<RngKey, set<string>>
    var generationCounts: map<RngKey, nat>

    ghost function Abs(): Registry
      reads this
    {
      Registry(entries, branchRefs, generationCounts)
    }

    constructor ()
      ensures Abs() == NO_HYPOTHESES
    {
      entries, branchRefs, generationCounts := map[], map[], map[];
    }

    method CommitBranch(k: RngKey, s: RngState, branch: string) returns (ok: bool)
      modifies this
      ensures ok == WithBranch(old(Abs()), k, s, branch).Some?
      ensures Abs() == if ok then WithBranch(old(Abs()), k, s, branch).value else old(Abs())
    {
      ok := EnsureEntry(k, s);
      if ok {
        branchRefs := branchRefs[k := (if k in branchRefs then branchRefs[k] else {}) + {branch}];
      }
    }

    /** `_ensure_entry`: starts a new life for a key that has none. */
    method EnsureEntry(k: RngKey, s: RngState) returns (ok: bool)
      modifies this`entries, this`generationCounts
      ensures ok == (k in old(entries) ==> old(entries)[k].state == s)
      ensures k in old(entries) ==> entries == old(entries) && generationCounts == old(generationCounts)
      ensures k !in old(entries) ==>
                var g := Generation(old(Abs()), k) + 1;
                entries == old(entries)[k := Entry(s, g)] && generationCounts == old(generationCounts)[k := g]
    {
      if k in entries { return entries[k].state == s; }
      var g := (if k in generationCounts then generationCounts[k] else 0) + 1;
      generationCounts := generationCounts[k := g];
      entries := entries[k := Entry(s, g)];
      ok := true;
    }

    method ReleaseBranch(k: RngKey, branch: string)
      modifies this`entries, this`branchRefs
      ensures Abs() == WithoutBranch(old(Abs()), k, branch)
    {
      if k in branchRefs {
        var left := branchRefs[k] - {branch};
        branchRefs := branchRefs[k := left];
        if left == {} {
          branchRefs := branchRefs - {k};
          entries := entries - {k};
        }
        return;
      }
      if k in entries {
        entries := entries - {k};
      } else {
        assert entries - {k} == entries;
      }
    }

    method ReleaseAll()
      modifies this`entries, this`branchRefs
      ensures Abs() == WithoutBranches(old(Abs()))
    {
      entries, branchRefs := map[], map[];
    }

    method SnapshotGenerations(keys: set<RngKey>) returns (snapshot: map<RngKey, nat>)
      ensures snapshot == map k | k in keys :: Generation(Abs(), k)
    {
      snapshot := map k | k in keys :: if k in generationCounts then generationCounts[k] else 0;
    }

    /** Puts every captured counter back; refuses to move one forward. */
    method RestoreGenerations(snapshot: map<RngKey, nat>) returns (ok: bool)
      modifies this`generationCounts
      ensures ok == forall k | k in snapshot :: snapshot[k] <= Generation(old(Abs()), k)
      ensures ok ==> forall k ::
                Generation(Abs(), k) == if k in snapshot then snapshot[k] else Generation(old(Abs()), k)
      ensures ok ==> forall k :: k in generationCounts <==>
                       if k in snapshot then snapshot[k] > 0 else k in old(generationCounts)
    {
      ghost var before := Abs();
      var todo := snapshot.Keys;
      while todo != {}
        invariant todo <= snapshot.Keys
        invariant forall k | k in snapshot && k !in todo :: snapshot[k] <= Generation(before, k)
        invariant forall k :: Generation(Abs(), k) ==
                    if k in snapshot && k !in todo then snapshot[k] else Generation(before, k)
        invariant forall k :: k in generationCounts <==>
                    if k in snapshot && k !in todo then snapshot[k] > 0 else k in before.generations
        decreases todo
      {
        var k :| k in todo;
        var current := if k in generationCounts then generationCounts[k] else 0;
        assert current == Generation(Abs(), k) == Generation(before, k);
        if current < snapshot[k] { return false; }
        if snapshot[k] == 0 {
          generationCounts := generationCounts - {k};
        } else {
          generationCounts := generationCounts[k := snapshot[k]];
        }
        todo := todo - {k};
      }
      ok := true;
    }
  }

  // ---- One key's story --------------------------------------------------------------------------

  /** What one Branch contributes to a batch. */
  datatype Reference = Reference(key: RngKey, state: RngState, branch: string)

  datatype Op =
    | Commit(ref: Reference)
    | Release(key: RngKey, branch: string)
    | DropAll
    /** A batch that failed before becoming visible: commits, reversed releases, generation restore. */
    | FailedBatch(items: seq<Reference>)

  /** The override in force, who holds it, and how many lives the key has had. */
  datatype Life = Life(state: Option<RngState>, holders: set<string>, started: nat)

  function LifeOf(r: Registry, k: RngKey): Life {
    Life(if k in r.entries then Some(r.entries[k].state) else None, Refs(r, k), Generation(r, k))
  }

  /** The reference definition: a life starts with its first holder and ends with its last. */
  function LifeStep(l: Life, k: RngKey, op: Op): Life {
    match op
    case Commit(ref) =>
      if ref.key != k then l
      else if l.holders == {} then Life(Some(ref.state), {ref.branch}, l.started + 1)
      else if l.state == Some(ref.state) then l.(holders := l.holders + {ref.branch})
      else l
    case Release(key, branch) =>
      if key != k then l
      else if l.holders - {branch} == {} then Life(None, {}, l.started)
      else l.(holders := l.holders - {branch})
    case DropAll => Life(None, {}, l.started)
    case FailedBatch(_) => l
  }

  function CommitRef(r: Registry, ref: Reference): Registry {
    var o := WithBranch(r, ref.key, ref.state, ref.branch);
    if o.Some? then o.value else r
  }

  function CommitRefs(r: Registry, items: seq<Reference>): Registry {
    if items == [] then r
    else CommitRef(CommitRefs(r, items[..|items| - 1]), items[|items| - 1])
  }

  /** Releases in reverse order of commit. */
  function ReleaseRefs(r: Registry, items: seq<Reference>): Registry
    decreases |items|
  {
    if items == [] then r
    else
      var last := items[|items| - 1];
      ReleaseRefs(WithoutBranch(r, last.key, last.branch), items[..|items| - 1])
  }

  function Keys(items: seq<Reference>): set<RngKey> {
    set i | 0 <= i < |items| :: items[i].key
  }

  /** `restore_generations` of counters captured from `before`. */
  function WithGenerationsOf(r: Registry, before: Registry, keys: set<RngKey>): Registry {
    r.(generations := (map k | k in r.generations && k !in keys :: r.generations[k])
                      + (map k | k in before.generations && k in keys :: before.generations[k]))
  }

  /** The i-th commit of a batch is accepted. */
  predicate Accepted(r: Registry, items: seq<Reference>, i: nat)
    requires i < |items|
  {
    WithBranch(CommitRefs(r, items[..i]), items[i].key, items[i].state, items[i].branch).Some?
  }

  /** Every commit of the batch is accepted and takes a branch id nobody holds yet. */
  ghost predicate Committable(r: Registry, items: seq<Reference>) {
    && (forall i | 0 <= i < |items| :: Accepted(r, items, i))
    && (forall i | 0 <= i < |items| :: items[i].branch !in Refs(r, items[i].key))
    && (forall i, j | 0 <= i < j < |items| :: items[i].branch != items[j].branch)
  }

  function Step(r: Registry, op: Op): Registry {
    match op
    case Commit(ref) => CommitRef(r, ref)
    case Release(key, branch) => WithoutBranch(r, key, branch)
    case DropAll => WithoutBranches(r)
    case FailedBatch(items) => WithGenerationsOf(ReleaseRefs(CommitRefs(r, items), items), r, Keys(items))
  }

  ghost predicate Admissible(r: Registry, op: Op) {
    op.FailedBatch? ==> Committable(r, op.items)
  }

  /** Everything but the generation counters. */
  function NoGenerations(r: Registry): Registry {
    r.(generations := map[])
  }

  lemma CommitKeepsSound(r: Registry, ref: Reference)
    requires Sound(r)
    ensures Sound(CommitRef(r, ref))
    ensures forall k :: Generation(CommitRef(r, ref), k) >= Generation(r, k)
    ensures forall k | k != ref.key :: Generation(CommitRef(r, ref), k) == Generation(r, k)
  {
  }

  /** A release undoes the commit of a fresh holder, up to the generation a new life took. */
  lemma ReleaseUndoesCommit(r: Registry, ref: Reference)
    requires Sound(r) && ref.branch !in Refs(r, ref.key)
    requires WithBranch(r, ref.key, ref.state, ref.branch).Some?
    ensures NoGenerations(WithoutBranch(CommitRef(r, ref), ref.key, ref.branch)) == NoGenerations(r)
  {
    var c := CommitRef(r, ref);
    var d := WithoutBranch(c, ref.key, ref.branch);
    assert c.refs[ref.key] - {ref.branch} == Refs(r, ref.key);
    assert d.entries == r.entries;
    assert d.refs == r.refs;
  }

  lemma {:induction false} ReleaseIgnoresGenerations(r: Registry, s: Registry, items: seq<Reference>)
    requires NoGenerations(r) == NoGenerations(s)
    ensures NoGenerations(ReleaseRefs(r, items)) == NoGenerations(ReleaseRefs(s, items))
    ensures ReleaseRefs(r, items).generations == r.generations
    decreases |items|
  {
    if items != [] {
      var last := items[|items| - 1];
      ReleaseIgnoresGenerations(WithoutBranch(r, last.key, last.branch), WithoutBranch(s, last.key, last.branch),
                                items[..|items| - 1]);
    }
  }

  /** Committing touches only the batch's own counters, and only upwards. */
  lemma {:induction false} CommitsOnlyRaise(r: Registry, items: seq<Reference>)
    requires Sound(r)
    ensures Sound(CommitRefs(r, items))
    ensures forall k :: Generation(CommitRefs(r, items), k) >= Generation(r, k)
    ensures forall k | k !in Keys(items) :: Generation(CommitRefs(r, items), k) == Generation(r, k)
  {
    if items != [] {
      var init, last := items[..|items| - 1], items[|items| - 1];
      CommitsOnlyRaise(r, init);
      CommitKeepsSound(CommitRefs(r, init), last);
      assert Keys(items) == Keys(init) + {last.key};
    }
  }

  lemma {:induction false} StrangersStayOut(r: Registry, items: seq<Reference>, k: RngKey, b: string)
    requires b !in Refs(r, k)
    requires forall i | 0 <= i < |items| :: items[i].branch != b
    ensures b !in Refs(CommitRefs(r, items), k)
  {
    if items != [] {
      StrangersStayOut(r, items[..|items| - 1], k, b);
    }
  }

  /** All but the last item of a committable batch, and the last item after them. */
  lemma CommittableParts(r: Registry, items: seq<Reference>)
    requires Committable(r, items) && items != []
    ensures var init, last := items[..|items| - 1], items[|items| - 1];
            && Committable(r, init)
            && WithBranch(CommitRefs(r, init), last.key, last.state, last.branch).Some?
            && last.branch !in Refs(r, last.key)
            && (forall i | 0 <= i < |init| :: init[i].branch != last.branch)
  {
    var n := |items| - 1;
    forall i | 0 <= i < n ensures Accepted(r, items[..n], i) {
      assert Accepted(r, items, i);
      assert items[..n][..i] == items[..i];
    }
    assert Accepted(r, items, n);
  }

  lemma {:induction false} ReversedReleaseUndoes(r: Registry, items: seq<Reference>)
    requires Sound(r) && Committable(r, items)
    ensures NoGenerations(ReleaseRefs(CommitRefs(r, items), items)) == NoGenerations(r)
    decreases |items|
  {
    if items != [] {
      var init, last := items[..|items| - 1], items[|items| - 1];
      CommittableParts(r, items);
      ReversedReleaseUndoes(r, init);
      LastReleaseUndoes(r, init, last);
      var c := CommitRef(CommitRefs(r, init), last);
      assert CommitRefs(r, items) == c;
      assert ReleaseRefs(c, items) == ReleaseRefs(WithoutBranch(c, last.key, last.branch), init);
    }
  }

  lemma LastReleaseUndoes(r: Registry, init: seq<Reference>, last: Reference)
    requires Sound(r) && WithBranch(CommitRefs(r, init), last.key, last.state, last.branch).Some?
    requires last.branch !in Refs(r, last.key) && forall i | 0 <= i < |init| :: init[i].branch != last.branch
    ensures var mid := CommitRefs(r, init);
            NoGenerations(ReleaseRefs(WithoutBranch(CommitRef(mid, last), last.key, last.branch), init))
            == NoGenerations(ReleaseRefs(mid, init))
  {
    var mid := CommitRefs(r, init);
    CommitsOnlyRaise(r, init);
    StrangersStayOut(r, init, last.key, last.branch);
    ReleaseUndoesCommit(mid, last);
    ReleaseIgnoresGenerations(WithoutBranch(CommitRef(mid, last), last.key, last.branch), mid, init);
  }

  lemma GenerationRestoreUndoes(r: Registry, e: Registry, keys: set<RngKey>)
    requires Sound(r)
    requires forall k | k in e.generations :: e.generations[k] > 0
    requires forall k | k !in keys :: Generation(e, k) == Generation(r, k)
    ensures WithGenerationsOf(e, r, keys).generations == r.generations
  {
    var d := WithGenerationsOf(e, r, keys);
    forall k
      ensures k in d.generations <==> k in r.generations
      ensures k in r.generations ==> k in d.generations && d.generations[k] == r.generations[k]
    {
      if k !in keys {
        assert Generation(e, k) == Generation(r, k);
      }
    }
  }

  /**
   Batch atomicity of the registry: reversed releases and the generation restore give back all
   three dictionaries, also when several items share one key.
   */
  lemma FailedBatchIsInvisible(r: Registry, items: seq<Reference>)
    requires Sound(r) && Committable(r, items)
    ensures Step(r, FailedBatch(items)) == r
  {
    var c := CommitRefs(r, items);
    var e := ReleaseRefs(c, items);
    CommitsOnlyRaise(r, items);
    ReversedReleaseUndoes(r, items);
    ReleaseIgnoresGenerations(c, c, items);
    GenerationRestoreUndoes(r, e, Keys(items));
    assert e.entries == NoGenerations(e).entries == NoGenerations(r).entries;
    assert e.refs == NoGenerations(e).refs == NoGenerations(r).refs;
  }

  /**
   The registry tells each key's story exactly: live exactly while somebody holds it, one override
   for all holders, and a generation equal to the number of surviving lives.
   */
  lemma StepIsALifeStep(r: Registry, op: Op, k: RngKey)
    requires Sound(r) && Admissible(r, op)
    ensures Sound(Step(r, op))
    ensures LifeOf(Step(r, op), k) == LifeStep(LifeOf(r, k), k, op)
  {
    match op
    case Commit(ref) => CommitKeepsSound(r, ref);
    case Release(key, branch) =>
    case DropAll =>
    case FailedBatch(items) => FailedBatchIsInvisible(r, items);
  }

  function RunOps(r: Registry, ops: seq<Op>): Registry
    decreases |ops|
  {
    if ops == [] then r else RunOps(Step(r, ops[0]), ops[1..])
  }

  ghost predicate AdmissibleRun(r: Registry, ops: seq<Op>)
    decreases |ops|
  {
    ops != [] ==> Admissible(r, ops[0]) && AdmissibleRun(Step(r, ops[0]), ops[1..])
  }

  function LiveThrough(l: Life, k: RngKey, ops: seq<Op>): Life
    decreases |ops|
  {
    if ops == [] then l else LiveThrough(LifeStep(l, k, ops[0]), k, ops[1..])
  }

  lemma {:induction false} RunsFollowLives(r: Registry, ops: seq<Op>, k: RngKey)
    requires Sound(r) && AdmissibleRun(r, ops)
    ensures Sound(RunOps(r, ops))
    ensures LifeOf(RunOps(r, ops), k) == LiveThrough(LifeOf(r, k), k, ops)
    decreases |ops|
  {
    if ops != [] {
      StepIsALifeStep(r, ops[0], k);
      RunsFollowLives(Step(r, ops[0]), ops[1..], k);
    }
  }

  /** In every reachable registry a hypothesis is live exactly when some Branch holds it. */
  lemma LiveIffHeld(ops: seq<Op>, k: RngKey)
    requires AdmissibleRun(NO_HYPOTHESES, ops)
    ensures k in RunOps(NO_HYPOTHESES, ops).entries <==> Refs(RunOps(NO_HYPOTHESES, ops), k) != {}
    ensures k in RunOps(NO_HYPOTHESES, ops).entries ==>
              RunOps(NO_HYPOTHESES, ops).entries[k].generation == LiveThrough(Life(None, {}, 0), k, ops).started
  {
    RunsFollowLives(NO_HYPOTHESES, ops, k);
  }
}
