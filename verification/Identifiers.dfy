/**
 The per-instance id registries (API/identifiers.py).

 The interesting one is `RngHypothesisTable`: a batch takes an O(1) marker, allocates, and on
 failure pops entries until the marker is reached again.  A Python dict keeps insertion order, so
 the model is the order of the keys beside the two dictionaries.
 */
module Identifiers {
  import opened Wrappers
  import TextIds

  const ROOT_BRANCH_ID := "root"

  class BranchIdRegistry {
    var everUsed: set<string>

    constructor ()
      ensures everUsed == {ROOT_BRANCH_ID}
    {
      everUsed := {ROOT_BRANCH_ID};
    }

    method Register(branchId: string) returns (ok: bool)
      modifies this
      ensures ok == (branchId !in old(everUsed))
      ensures everUsed == old(everUsed) + {branchId}
    {
      ok := branchId !in everUsed;
      everUsed := everUsed + {branchId};
    }

    /** Undo of a registration that never became public; the root id is never given up. */
    method RollbackRegistration(branchId: string)
      modifies this
      ensures everUsed == if branchId == ROOT_BRANCH_ID then old(everUsed) else old(everUsed) - {branchId}
    {
      if branchId != ROOT_BRANCH_ID {
        everUsed := everUsed - {branchId};
      }
    }
  }

  class DecisionPointRegistry {
    var counter: nat
    var current: map<string, string>

    constructor ()
      ensures counter == 1 && current == map[]
    {
      counter, current := 1, map[];
    }

    method Issue(branchId: string) returns (id: string)
      modifies this
      ensures id == TextIds.DecisionId(branchId, old(counter))
      ensures counter == old(counter) + 1
      ensures current == old(current)[branchId := id]
    {
      id := TextIds.DecisionId(branchId, counter);
      counter := counter + 1;
      current := current[branchId := id];
    }

    method Clear(branchId: string)
      modifies this`current
      ensures current == old(current) - {branchId}
    {
      current := current - {branchId};
    }

    method RestoreCurrent(branchId: string, id: Option<string>)
      modifies this`current
      ensures current == if id.None? then old(current) - {branchId} else old(current)[branchId := id.value]
    {
      if id.None? {
        current := current - {branchId};
      } else {
        current := current[branchId := id.value];
      }
    }
  }

  // ---- RNG hypothesis table -------------------------------------------------------------------

  datatype RngKey = RngKey(parent: string, decision: string, rngId: int)

  datatype ParentDecision = ParentDecision(parent: string, decision: string)

  function Owner(k: RngKey): ParentDecision {
    ParentDecision(k.parent, k.decision)
  }

  /** The two dictionaries, with the insertion order of the first. */
  datatype Table = Table(order: seq<RngKey>, index: map<RngKey, nat>, next: map<ParentDecision, nat>)

  function IndexOr(next: map<ParentDecision, nat>, pd: ParentDecision): nat {
    if pd in next then next[pd] else 0
  }

  function Allocate(t: Table, key: RngKey): Table {
    if key in t.index then t
    else
      var n := IndexOr(t.next, Owner(key));
      Table(t.order + [key], t.index[key := n], t.next[Owner(key) := n + 1])
  }

  function AllocateAll(t: Table, keys: seq<RngKey>): Table
    decreases |keys|
  {
    if keys == [] then t else AllocateAll(Allocate(t, keys[0]), keys[1..])
  }

  /** `popitem` plus the rewind of the counter it came from. */
  function PopNewest(t: Table): Table
    requires t.order != [] && t.order[|t.order| - 1] in t.index
  {
    var key := t.order[|t.order| - 1];
    var i := t.index[key];
    Table(t.order[..|t.order| - 1], t.index - {key},
          if i == 0 then t.next - {Owner(key)} else t.next[Owner(key) := i])
  }

  const EMPTY_TABLE := Table([], map[], map[])

  /** The table a sequence of distinct allocations builds from nothing. */
  function Build(order: seq<RngKey>): Table {
    if order == [] then EMPTY_TABLE else Allocate(Build(order[..|order| - 1]), order[|order| - 1])
  }

  /** Allocation history determines both dictionaries. */
  ghost predicate Consistent(t: Table) {
    && (forall i, j | 0 <= i < j < |t.order| :: t.order[i] != t.order[j])
    && t == Build(t.order)
  }

  class RngHypothesisTable {
    var order: seq<RngKey>
    var indexByKey: map<RngKey, nat>
    var nextIndex: map<ParentDecision, nat>

    ghost function Abs(): Table
      reads this
    {
      Table(order, indexByKey, nextIndex)
    }

    constructor ()
      ensures Abs() == Table([], map[], map[]) && Consistent(Abs())
    {
      order, indexByKey, nextIndex := [], map[], map[];
    }

    method HypothesisIndexFor(parent: string, decision: string, rngId: int) returns (i: nat)
      requires Consistent(Abs())
      modifies this
      ensures Consistent(Abs())
      ensures Abs() == Allocate(old(Abs()), RngKey(parent, decision, rngId))
      ensures RngKey(parent, decision, rngId) in indexByKey && i == indexByKey[RngKey(parent, decision, rngId)]
    {
      AllocateKeepsConsistent(Abs(), RngKey(parent, decision, rngId));
      i := IndexFor(RngKey(parent, decision, rngId));
    }

    method IndexFor(key: RngKey) returns (i: nat)
      modifies this
      ensures Abs() == Allocate(old(Abs()), key)
      ensures key in indexByKey && i == indexByKey[key]
    {
      if key in indexByKey {
        return indexByKey[key];
      }
      i := if Owner(key) in nextIndex then nextIndex[Owner(key)] else 0;
      order := order + [key];
      indexByKey := indexByKey[key := i];
      nextIndex := nextIndex[Owner(key) := i + 1];
    }

    method Snapshot() returns (marker: nat)
      ensures marker == |order|
    {
      marker := |order|;
    }

    /** `popitem`, and the counter it came from rewound. */
    method PopItem()
      requires order != [] && order[|order| - 1] in indexByKey
      modifies this
      ensures Abs() == PopNewest(old(Abs()))
    {
      var key := order[|order| - 1];
      var i := indexByKey[key];
      order := order[..|order| - 1];
      indexByKey := indexByKey - {key};
      if i == 0 {
        nextIndex := nextIndex - {Owner(key)};
      } else {
        nextIndex := nextIndex[Owner(key) := i];
      }
    }

    /** Pops back to `marker`; a marker outside the history is refused and nothing changes. */
    method Restore(marker: int) returns (ok: bool)
      requires Consistent(Abs())
      modifies this
      ensures ok == (0 <= marker <= |old(order)|)
      ensures Consistent(Abs())
      ensures Abs() == if ok then Restored(old(Abs()), marker) else old(Abs())
    {
      ok := 0 <= marker <= |order|;
      if !ok { return; }
      while |order| > marker
        invariant marker <= |order| <= |old(order)|
        invariant order == old(order)[..|order|]
        invariant Consistent(Abs())
      {
        PopKeepsConsistent(Abs());
        PopItem();
      }
      OrderDetermines(Abs(), Restored(old(Abs()), marker));
    }
  }

  /** The dictionary holds exactly the allocated keys, and no counter is ever zero. */
  lemma {:induction false} BuildHolds(order: seq<RngKey>)
    ensures forall k :: k in Build(order).index <==> k in order
    ensures forall pd | pd in Build(order).next :: Build(order).next[pd] > 0
  {
    if order != [] {
      var n := |order| - 1;
      BuildHolds(order[..n]);
      assert forall k :: k in order <==> k in order[..n] || k == order[n];
    }
  }

  lemma BuildSnoc(order: seq<RngKey>, key: RngKey)
    ensures Build(order + [key]) == Allocate(Build(order), key)
  {
    assert (order + [key])[..|order|] == order;
  }

  lemma AllocateKeepsConsistent(t: Table, key: RngKey)
    requires Consistent(t)
    ensures Consistent(Allocate(t, key))
    ensures t.order <= Allocate(t, key).order
    ensures key in Allocate(t, key).index
  {
    if key !in t.index {
      BuildHolds(t.order);
      BuildSnoc(t.order, key);
    }
  }

  lemma PopKeepsConsistent(t: Table)
    requires Consistent(t) && t.order != []
    ensures t.order[|t.order| - 1] in t.index
    ensures Consistent(PopNewest(t))
  {
    var n := |t.order| - 1;
    var u := Build(t.order[..n]);
    BuildHolds(t.order[..n]);
    assert t.order[n] !in u.index;
    assert t == Allocate(u, t.order[n]);
    BuildOrder(t.order[..n]);
    PopUndoesAllocate(u, t.order[n]);
  }

  lemma {:induction false} BuildOrder(order: seq<RngKey>)
    requires forall i, j | 0 <= i < j < |order| :: order[i] != order[j]
    ensures Build(order).order == order
  {
    if order != [] {
      var n := |order| - 1;
      BuildOrder(order[..n]);
      BuildHolds(order[..n]);
      assert order[n] !in Build(order[..n]).index;
    }
  }

  /** Popping takes back exactly the last allocation. */
  lemma PopUndoesAllocate(u: Table, key: RngKey)
    requires key !in u.index && forall pd | pd in u.next :: u.next[pd] > 0
    ensures PopNewest(Allocate(u, key)) == u
  {
    var t := Allocate(u, key);
    assert t.order[..|t.order| - 1] == u.order;
    assert t.index - {key} == u.index;
    var pd := Owner(key);
    if pd in u.next {
      assert t.next[pd := u.next[pd]] == u.next;
    } else {
      assert t.next - {pd} == u.next;
    }
  }

  /** The allocation order alone determines a consistent table. */
  lemma OrderDetermines(t: Table, u: Table)
    requires Consistent(t) && Consistent(u) && t.order == u.order
    ensures t == u
  {
  }

  lemma {:induction false} AllocateAllExtends(t: Table, keys: seq<RngKey>)
    requires Consistent(t)
    ensures Consistent(AllocateAll(t, keys))
    ensures t.order <= AllocateAll(t, keys).order
    decreases |keys|
  {
    if keys != [] {
      AllocateKeepsConsistent(t, keys[0]);
      AllocateAllExtends(Allocate(t, keys[0]), keys[1..]);
    }
  }

  lemma {:induction false} AllocateAllSnoc(t: Table, keys: seq<RngKey>, key: RngKey)
    ensures AllocateAll(t, keys + [key]) == Allocate(AllocateAll(t, keys), key)
    decreases |keys|
  {
    if keys == [] {
      assert keys + [key] == [key];
      assert AllocateAll(Allocate(t, key), []) == Allocate(t, key);
    } else {
      assert (keys + [key])[1..] == keys[1..] + [key];
      AllocateAllSnoc(Allocate(t, keys[0]), keys[1..], key);
    }
  }

  /** Popping until only `marker` allocations are left. */
  ghost function Restored(t: Table, marker: nat): (r: Table)
    requires Consistent(t)
    ensures Consistent(r)
    ensures r.order == if marker <= |t.order| then t.order[..marker] else t.order
    decreases |t.order|
  {
    if |t.order| <= marker then t
    else
      PopKeepsConsistent(t);
      Restored(PopNewest(t), marker)
  }

  /**
   Undo is a true inverse: popping back to a marker yields both dictionaries exactly as they were
   there, whatever was allocated since; and an outer marker can be restored through an inner one.
   */
  lemma RestoreIsInverse(t: Table, first: seq<RngKey>, second: seq<RngKey>)
    requires Consistent(t)
    ensures var a := AllocateAll(t, first);
            var b := AllocateAll(a, second);
            && Consistent(b)
            && Restored(b, |a.order|) == a
            && Restored(b, |t.order|) == t
            && Restored(Restored(b, |a.order|), |t.order|) == t
  {
    var a := AllocateAll(t, first);
    var b := AllocateAll(a, second);
    AllocateAllExtends(t, first);
    AllocateAllExtends(a, second);
    assert t.order <= b.order;
    RestoredIs(b, a);
    RestoredIs(b, t);
    RestoredIs(a, t);
  }

  lemma RestoredIs(later: Table, earlier: Table)
    requires Consistent(later) && Consistent(earlier) && earlier.order <= later.order
    ensures Restored(later, |earlier.order|) == earlier
  {
    OrderDetermines(Restored(later, |earlier.order|), earlier);
  }

  /** The same, run on the class: allocate, then restore, then compare the whole table. */
  method AllocateThenRestore(table: RngHypothesisTable, keys: seq<RngKey>)
    requires Consistent(table.Abs())
    modifies table
    ensures table.Abs() == old(table.Abs())
  {
    var marker := table.Snapshot();
    ghost var before := table.Abs();
    for n := 0 to |keys|
      invariant Consistent(table.Abs()) && before.order <= table.order
    {
      AllocateKeepsConsistent(table.Abs(), keys[n]);
      var _ := table.HypothesisIndexFor(keys[n].parent, keys[n].decision, keys[n].rngId);
    }
    RestoredIs(table.Abs(), before);
    var _ := table.Restore(marker);
  }

  /** `r` is the index of some key of `pd`. */
  ghost predicate RankTaken(t: Table, pd: ParentDecision, r: nat) {
    exists k :: k in t.index && Owner(k) == pd && t.index[k] == r
  }

  /**
   Under each parent decision the indices are exactly 0..n-1, one per rng id, where n is the
   counter; so an index never depends on which other decisions are being explored.
   */
  lemma {:induction false} IndicesAreDense(t: Table, pd: ParentDecision)
    requires Consistent(t)
    ensures forall k | k in t.index && Owner(k) == pd :: t.index[k] < IndexOr(t.next, pd)
    ensures forall k, l | k in t.index && l in t.index && Owner(k) == Owner(l) == pd && t.index[k] == t.index[l] ::
              k == l
    ensures forall r: nat | r < IndexOr(t.next, pd) :: RankTaken(t, pd, r)
    decreases |t.order|
  {
    if t.order != [] {
      var n := |t.order| - 1;
      var u := Build(t.order[..n]);
      var key := t.order[n];
      BuildHolds(t.order[..n]);
      assert t == Allocate(u, key) && key !in u.index;
      PopKeepsConsistent(t);
      assert Consistent(u);
      IndicesAreDense(u, pd);
      AllocateKeepsDense(u, key, pd);
    }
  }

  /** The next allocation takes the next rank of its own decision and disturbs no other. */
  lemma AllocateKeepsDense(u: Table, key: RngKey, pd: ParentDecision)
    requires key !in u.index
    requires forall k | k in u.index && Owner(k) == pd :: u.index[k] < IndexOr(u.next, pd)
    requires forall k, l | k in u.index && l in u.index && Owner(k) == pd && Owner(l) == pd && k != l ::
               u.index[k] != u.index[l]
    requires forall r: nat | r < IndexOr(u.next, pd) :: RankTaken(u, pd, r)
    ensures var t := Allocate(u, key);
            && (forall k | k in t.index && Owner(k) == pd :: t.index[k] < IndexOr(t.next, pd))
            && (forall k, l | k in t.index && l in t.index && Owner(k) == pd && Owner(l) == pd && k != l ::
                  t.index[k] != t.index[l])
            && (forall r: nat | r < IndexOr(t.next, pd) :: RankTaken(t, pd, r))
  {
    var t := Allocate(u, key);
    forall r: nat | r < IndexOr(t.next, pd)
      ensures RankTaken(t, pd, r)
    {
      if r < IndexOr(u.next, pd) {
        assert RankTaken(u, pd, r);
        var k :| k in u.index && Owner(k) == pd && u.index[k] == r;
        assert k in t.index && Owner(k) == pd && t.index[k] == r;
      } else {
        assert key in t.index && Owner(key) == pd && t.index[key] == r;
      }
    }
  }

  function AllocatedUnder(order: seq<RngKey>, parent: string, decision: string): nat {
    if order == [] then 0
    else
      var k := order[|order| - 1];
      AllocatedUnder(order[..|order| - 1], parent, decision) +
      if k.parent == parent && k.decision == decision then 1 else 0
  }

  lemma {:induction false} NextIsCount(order: seq<RngKey>, parent: string, decision: string)
    requires forall i, j | 0 <= i < j < |order| :: order[i] != order[j]
    ensures IndexOr(Build(order).next, ParentDecision(parent, decision)) == AllocatedUnder(order, parent, decision)
  {
    if order == [] {
    } else {
      var n := |order| - 1;
      NextIsCount(order[..n], parent, decision);
      BuildHolds(order[..n]);
      assert order[n] !in Build(order[..n]).index;
    }
  }

  /** A new key's index counts the keys of its own parent and decision allocated before it, and no others. */
  lemma IndexIsCount(t: Table, key: RngKey)
    requires Consistent(t) && key !in t.order
    ensures var u := Allocate(t, key);
            && u.order == t.order + [key]
            && (forall k :: k in u.index <==> k in t.index || k == key)
            && (forall k <- t.index :: u.index[k] == t.index[k])
            && u.index[key] == AllocatedUnder(t.order, key.parent, key.decision)
  {
    BuildHolds(t.order);
    NextIsCount(t.order, key.parent, key.decision);
    assert key !in t.index;
  }
}
