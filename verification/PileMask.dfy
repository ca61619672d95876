/**
 Order-erasing pile masking (`_card_identity_key`, `_sort_key`, `_multiset_of` in API/masking.py).

 A pile becomes one record per distinct public card state, with a count, in sorted order.  The
 question is whether the draw order can still show through.  A record shows the first card of its key,
 so it can exactly when two cards of one key look different.  Keys are compared the way Python compares
 dictionary keys, where 1 and True are equal, and a missing enchantment has the key of a blank one.
 */
module PileMask {
  import opened Wrappers

  /** A public field: missing or null, a number, a flag, a text. */
  datatype Part = Absent | Num(n: int) | Flag(b: bool) | Text(s: string)

  datatype Enchantment = NoEnchantment | Enchantment(id: Part, amount: Part, status: Part)

  datatype Entry =
    | NotACard
    | Card(id: Part, kind: Part, rarity: Part, cost: Part, targetType: Part, upgraded: Option<bool>,
           upgradeLevel: Option<int>, tinkerType: Part, tinkerRider: Part, enchantment: Enchantment)

  /** `_card_identity_key`, in its own order. */
  type Key = seq<Part>

  /** What is published of a card; `None` is the null enchantment. */
  datatype Shown = Shown(fields: seq<Part>, enchantment: Option<seq<Part>>)

  datatype Record = Record(card: Shown, count: nat)

  predicate Counted(e: Entry) {
    e.Card? && e.id != Absent
  }

  function PublicFields(e: Entry): seq<Part>
    requires e.Card?
  {
    [e.id, e.kind, e.rarity, e.cost, e.targetType,
     Flag(if e.upgraded.Some? then e.upgraded.value else false),
     Num(if e.upgradeLevel.Some? then e.upgradeLevel.value else 0),
     e.tinkerType, e.tinkerRider]
  }

  function EnchantmentParts(x: Enchantment): seq<Part> {
    if x.NoEnchantment? then [Absent, Absent, Absent] else [x.id, x.amount, x.status]
  }

  function RawKey(e: Entry): Key
    requires e.Card?
  {
    PublicFields(e) + EnchantmentParts(e.enchantment)
  }

  /** Equal parts of a dictionary key have the same canonical part: a flag is the number it equals. */
  function CanonPart(p: Part): Part {
    if p.Flag? then Num(if p.b then 1 else 0) else p
  }

  function Canon(k: Key): Key {
    seq(|k|, i requires 0 <= i < |k| => CanonPart(k[i]))
  }

  /** What a dictionary tells keys apart by. */
  function KeyOf(e: Entry): Key
    requires e.Card?
  {
    Canon(RawKey(e))
  }

  function Publish(e: Entry): Shown
    requires e.Card?
  {
    Shown(PublicFields(e), if e.enchantment.NoEnchantment? then None else Some(EnchantmentParts(e.enchantment)))
  }

  lemma RawKeyParts(e: Entry)
    requires e.Card?
    ensures PublicFields(e) == RawKey(e)[..9] && EnchantmentParts(e.enchantment) == RawKey(e)[9..]
  {
  }

  /**
   Two cards are published alike exactly if no field differs, be it in type alone, and both have an
   enchantment or both lack one.
   */
  lemma PublishedAlikeIff(a: Entry, b: Entry)
    requires a.Card? && b.Card?
    ensures Publish(a) == Publish(b) <==>
            RawKey(a) == RawKey(b) && (a.enchantment.NoEnchantment? <==> b.enchantment.NoEnchantment?)
  {
    RawKeyParts(a);
    RawKeyParts(b);
  }

  /** Said of the cards: every public field is the same, a missing flag or level counting as false or zero. */
  lemma PublishedAlikeByField(a: Entry, b: Entry)
    requires a.Card? && b.Card?
    ensures Publish(a) == Publish(b) <==>
            && a.id == b.id && a.kind == b.kind && a.rarity == b.rarity && a.cost == b.cost
            && a.targetType == b.targetType && a.tinkerType == b.tinkerType && a.tinkerRider == b.tinkerRider
            && (a.upgraded == Some(true) <==> b.upgraded == Some(true))
            && (if a.upgradeLevel.Some? then a.upgradeLevel.value else 0)
               == (if b.upgradeLevel.Some? then b.upgradeLevel.value else 0)
            && a.enchantment == b.enchantment
  {
    var x, y := PublicFields(a), PublicFields(b);
    assert x == y <==> forall i | 0 <= i < 9 :: x[i] == y[i];
    assert x[0] == a.id && x[1] == a.kind && x[2] == a.rarity && x[3] == a.cost && x[4] == a.targetType;
    assert y[0] == b.id && y[1] == b.kind && y[2] == b.rarity && y[3] == b.cost && y[4] == b.targetType;
    assert x[7] == a.tinkerType && x[8] == a.tinkerRider && y[7] == b.tinkerType && y[8] == b.tinkerRider;
    if a.enchantment.Enchantment? && b.enchantment.Enchantment? { EnchantmentsAlike(a.enchantment, b.enchantment); }
  }

  lemma EnchantmentsAlike(a: Enchantment, b: Enchantment)
    requires a.Enchantment? && b.Enchantment?
    ensures EnchantmentParts(a) == EnchantmentParts(b) <==> a == b
  {
    assert EnchantmentParts(a)[0] == a.id && EnchantmentParts(a)[1] == a.amount && EnchantmentParts(a)[2] == a.status;
    assert EnchantmentParts(b)[0] == b.id && EnchantmentParts(b)[1] == b.amount && EnchantmentParts(b)[2] == b.status;
  }

  // ---- The sort order --------------------------------------------------------------------------------

  predicate TextLeq(a: string, b: string) {
    a == [] || (b != [] && (a[0] < b[0] || (a[0] == b[0] && TextLeq(a[1..], b[1..]))))
  }

  /** Tuples of texts, first difference decides. */
  predicate TupleLeq(a: seq<string>, b: seq<string>) {
    a == [] || (b != [] && if a[0] == b[0] then TupleLeq(a[1..], b[1..]) else TextLeq(a[0], b[0]))
  }

  /** `_sort_key`; `text` stands for the type name and representation of one part. */
  function SortKey(text: Part -> string, k: Key): seq<string> {
    seq(|k|, i requires 0 <= i < |k| => text(k[i]))
  }

  predicate KeyLeq(text: Part -> string, a: Key, b: Key) {
    TupleLeq(SortKey(text, a), SortKey(text, b))
  }

  /** Parts of different type or value are written differently. */
  ghost predicate Injective(text: Part -> string) {
    forall p, q :: text(p) == text(q) ==> p == q
  }

  lemma {:induction false} TextOrder(a: string, b: string, c: string)
    ensures TextLeq(a, b) || TextLeq(b, a)
    ensures TextLeq(a, b) && TextLeq(b, a) ==> a == b
    ensures TextLeq(a, b) && TextLeq(b, c) ==> TextLeq(a, c)
  {
    if a != [] && b != [] {
      TextOrder(a[1..], b[1..], if c == [] then [] else c[1..]);
      assert a == [a[0]] + a[1..] && b == [b[0]] + b[1..];
    }
  }

  lemma {:induction false} TupleOrder(a: seq<string>, b: seq<string>, c: seq<string>)
    ensures TupleLeq(a, b) || TupleLeq(b, a)
    ensures TupleLeq(a, b) && TupleLeq(b, a) ==> a == b
    ensures TupleLeq(a, b) && TupleLeq(b, c) ==> TupleLeq(a, c)
  {
    if a != [] && b != [] {
      TupleOrder(a[1..], b[1..], if c == [] then [] else c[1..]);
      assert a == [a[0]] + a[1..] && b == [b[0]] + b[1..];
      TextOrder(a[0], b[0], if c == [] then "" else c[0]);
      if c != [] {
        TextOrder(b[0], a[0], c[0]);
        TextOrder(c[0], b[0], a[0]);
        TextOrder(b[0], c[0], a[0]);
      }
    }
  }

  /** The sort key orders card keys totally. */
  lemma KeyOrder(text: Part -> string, a: Key, b: Key, c: Key)
    requires Injective(text)
    ensures KeyLeq(text, a, b) || KeyLeq(text, b, a)
    ensures KeyLeq(text, a, b) && KeyLeq(text, b, a) ==> a == b
    ensures KeyLeq(text, a, b) && KeyLeq(text, b, c) ==> KeyLeq(text, a, c)
  {
    var x, y := SortKey(text, a), SortKey(text, b);
    TupleOrder(x, y, SortKey(text, c));
    if x == y {
      forall i | 0 <= i < |a| ensures a[i] == b[i] {
        assert x[i] == y[i];
      }
    }
  }

  predicate Ascending(text: Part -> string, keys: seq<Key>) {
    forall i, j | 0 <= i < j < |keys| :: keys[i] != keys[j] && KeyLeq(text, keys[i], keys[j])
  }

  function Insert(text: Part -> string, k: Key, keys: seq<Key>): seq<Key> {
    if keys == [] || KeyLeq(text, k, keys[0]) then [k] + keys else [keys[0]] + Insert(text, k, keys[1..])
  }

  function Sorted(text: Part -> string, keys: seq<Key>): seq<Key> {
    if keys == [] then [] else Insert(text, keys[|keys| - 1], Sorted(text, keys[..|keys| - 1]))
  }

  lemma {:induction false} InsertKeepsAscending(text: Part -> string, k: Key, keys: seq<Key>)
    requires Injective(text) && Ascending(text, keys) && k !in keys
    ensures Ascending(text, Insert(text, k, keys))
    ensures forall x :: x in Insert(text, k, keys) <==> x == k || x in keys
  {
    if keys == [] {
    } else if KeyLeq(text, k, keys[0]) {
      forall j | 0 <= j < |keys| ensures KeyLeq(text, k, keys[j]) {
        if j > 0 { KeyOrder(text, k, keys[0], keys[j]); }
      }
    } else {
      InsertKeepsAscending(text, k, keys[1..]);
      var rest := Insert(text, k, keys[1..]);
      KeyOrder(text, k, keys[0], k);
      forall j | 0 <= j < |rest| ensures keys[0] != rest[j] && KeyLeq(text, keys[0], rest[j]) {
        assert rest[j] in rest;
      }
    }
  }

  lemma {:induction false} SortedIsAscending(text: Part -> string, keys: seq<Key>)
    requires Injective(text) && forall i, j | 0 <= i < j < |keys| :: keys[i] != keys[j]
    ensures Ascending(text, Sorted(text, keys))
    ensures forall x :: x in Sorted(text, keys) <==> x in keys
  {
    if keys != [] {
      var n := |keys| - 1;
      SortedIsAscending(text, keys[..n]);
      InsertKeepsAscending(text, keys[n], Sorted(text, keys[..n]));
      assert forall x :: x in keys <==> x in keys[..n] || x == keys[n];
    }
  }

  /** Two ascending sequences of the same keys are the same sequence. */
  lemma {:induction false} AscendingIsUnique(text: Part -> string, a: seq<Key>, b: seq<Key>)
    requires Injective(text) && Ascending(text, a) && Ascending(text, b)
    requires forall x :: x in a <==> x in b
    ensures a == b
  {
    if a == [] {
      assert forall i | 0 <= i < |b| :: b[i] in b;
    } else {
      assert a[0] in a && a[0] in b;
      assert b[0] in b && b[0] in a;
      HeadIsLeast(text, a, b[0]);
      HeadIsLeast(text, b, a[0]);
      KeyOrder(text, a[0], b[0], a[0]);
      forall x ensures x in a[1..] <==> x in b[1..] {
        assert x in a <==> x == a[0] || x in a[1..];
        assert x in b <==> x == b[0] || x in b[1..];
      }
      AscendingIsUnique(text, a[1..], b[1..]);
      assert a == [a[0]] + a[1..] && b == [b[0]] + b[1..];
    }
  }

  lemma HeadIsLeast(text: Part -> string, keys: seq<Key>, x: Key)
    requires Injective(text) && Ascending(text, keys) && x in keys
    ensures KeyLeq(text, keys[0], x)
  {
    KeyOrder(text, x, x, x);
    var i :| 0 <= i < |keys| && keys[i] == x;
  }

  // ---- Counting --------------------------------------------------------------------------------------

  predicate Has(e: Entry, k: Key) {
    Counted(e) && KeyOf(e) == k
  }

  function Count(pile: seq<Entry>, k: Key): nat {
    if pile == [] then 0 else Count(pile[..|pile| - 1], k) + if Has(pile[|pile| - 1], k) then 1 else 0
  }

  /** Keys in order of first appearance. */
  function Keys(pile: seq<Entry>): seq<Key> {
    if pile == [] then []
    else
      var before, e := Keys(pile[..|pile| - 1]), pile[|pile| - 1];
      if Counted(e) && KeyOf(e) !in before then before + [KeyOf(e)] else before
  }

  /** The first card of a key; its enchantment is the one published. */
  function First(pile: seq<Entry>, k: Key): (e: Entry)
    requires k in Keys(pile)
    ensures Has(e, k)
  {
    var init := pile[..|pile| - 1];
    if k in Keys(init) then First(init, k) else pile[|pile| - 1]
  }

  /** The keys the dictionary holds: of the first card of each kind, in order of first appearance. */
  function Stored(pile: seq<Entry>): seq<Key> {
    seq(|Keys(pile)|, i requires 0 <= i < |Keys(pile)| => StoredAt(pile, i))
  }

  function StoredAt(pile: seq<Entry>, i: nat): Key
    requires i < |Keys(pile)|
  {
    assert Keys(pile)[i] in Keys(pile);
    RawKey(First(pile, Keys(pile)[i]))
  }

  function RecordOf(pile: seq<Entry>, k: Key): Record
    requires k in Keys(pile)
  {
    Record(Publish(First(pile, k)), Count(pile, k))
  }

  function Records(pile: seq<Entry>, keys: seq<Key>): seq<Record>
    requires forall k <- keys :: Canon(k) in Keys(pile)
  {
    seq(|keys|, i requires 0 <= i < |keys| => assert keys[i] in keys; RecordOf(pile, Canon(keys[i])))
  }

  /** What masking a pile gives. */
  ghost function Masked(text: Part -> string, pile: seq<Entry>): seq<Record>
    requires Injective(text)
  {
    SortedKeysOf(text, pile);
    Records(pile, Sorted(text, Stored(pile)))
  }

  lemma {:induction false} KeysAre(pile: seq<Entry>)
    ensures forall k :: k in Keys(pile) <==> Count(pile, k) > 0
    ensures forall i, j | 0 <= i < j < |Keys(pile)| :: Keys(pile)[i] != Keys(pile)[j]
  {
    if pile != [] {
      KeysAre(pile[..|pile| - 1]);
    }
  }

  /** A stored key is the one of the first card of its kind, and of no other kind. */
  lemma StoredIs(pile: seq<Entry>, k: Key)
    ensures k in Stored(pile) <==> Canon(k) in Keys(pile) && k == RawKey(First(pile, Canon(k)))
  {
    if i :| 0 <= i < |Stored(pile)| && Stored(pile)[i] == k {
      assert Keys(pile)[i] in Keys(pile);
      assert Canon(StoredAt(pile, i)) == Keys(pile)[i];
    }
    if Canon(k) in Keys(pile) && k == RawKey(First(pile, Canon(k))) {
      var i :| 0 <= i < |Keys(pile)| && Keys(pile)[i] == Canon(k);
      assert Stored(pile)[i] == StoredAt(pile, i) == k;
    }
  }

  lemma StoredAreDistinct(pile: seq<Entry>)
    ensures forall i, j | 0 <= i < j < |Stored(pile)| :: Stored(pile)[i] != Stored(pile)[j]
  {
    KeysAre(pile);
    forall i, j | 0 <= i < j < |Stored(pile)| ensures Stored(pile)[i] != Stored(pile)[j] {
      assert Keys(pile)[i] in Keys(pile) && Keys(pile)[j] in Keys(pile);
      assert Canon(StoredAt(pile, i)) == Keys(pile)[i] && Canon(StoredAt(pile, j)) == Keys(pile)[j];
    }
  }

  lemma SortedKeysOf(text: Part -> string, pile: seq<Entry>)
    requires Injective(text)
    ensures var keys := Sorted(text, Stored(pile));
            && Ascending(text, keys)
            && (forall k :: k in keys <==> k in Stored(pile))
            && (forall k <- keys :: Canon(k) in Keys(pile) && k == RawKey(First(pile, Canon(k))))
  {
    StoredAreDistinct(pile);
    SortedIsAscending(text, Stored(pile));
    forall k | k in Sorted(text, Stored(pile))
      ensures Canon(k) in Keys(pile) && k == RawKey(First(pile, Canon(k)))
    {
      StoredIs(pile, k);
    }
  }

  predicate TalliedAt(pile: seq<Entry>, k: Key, counts: map<Key, nat>, representatives: map<Key, Entry>)
    requires k in Keys(pile)
  {
    && k in counts && k in representatives
    && counts[k] == Count(pile, k) && representatives[k] == First(pile, k)
  }

  /** The dictionaries after these entries. */
  ghost predicate Tallied(pile: seq<Entry>, order: seq<Key>, counts: map<Key, nat>, representatives: map<Key, Entry>) {
    && order == Stored(pile)
    && (forall k <- counts :: k in Keys(pile))
    && (forall k <- Keys(pile) :: TalliedAt(pile, k, counts, representatives))
  }

  lemma StoredGrows(entries: seq<Entry>, n: nat)
    requires n < |entries|
    ensures Stored(entries[..n + 1]) ==
            Stored(entries[..n]) + (if Counted(entries[n]) && KeyOf(entries[n]) !in Keys(entries[..n])
                                    then [RawKey(entries[n])] else [])
  {
    var p, q := entries[..n], entries[..n + 1];
    assert q[..n] == p && q[n] == entries[n];
    forall i | 0 <= i < |Keys(p)| ensures StoredAt(q, i) == StoredAt(p, i) {
      assert Keys(q)[i] == Keys(p)[i] && Keys(p)[i] in Keys(p);
    }
  }

  /** How one more entry changes the keys, the count and the first card of a key. */
  lemma OneMore(pile: seq<Entry>, k: Key)
    requires pile != []
    ensures var init, e := pile[..|pile| - 1], pile[|pile| - 1];
            && (k in Keys(pile) <==> k in Keys(init) || Has(e, k))
            && Count(pile, k) == Count(init, k) + (if Has(e, k) then 1 else 0)
            && (k in Keys(init) ==> First(pile, k) == First(init, k))
            && (k !in Keys(init) && Has(e, k) ==> First(pile, k) == e && Count(init, k) == 0)
  {
    KeysAre(pile[..|pile| - 1]);
  }

  lemma TallySkips(pile: seq<Entry>, order: seq<Key>, counts: map<Key, nat>, representatives: map<Key, Entry>)
    requires pile != [] && Tallied(pile[..|pile| - 1], order, counts, representatives) && !Counted(pile[|pile| - 1])
    ensures Tallied(pile, order, counts, representatives)
  {
    StoredGrows(pile, |pile| - 1);
    assert pile[..|pile|] == pile;
    forall k ensures k in Keys(pile) <==> k in Keys(pile[..|pile| - 1]) { OneMore(pile, k); }
    forall k <- Keys(pile) ensures TalliedAt(pile, k, counts, representatives) {
      OneMore(pile, k);
      assert TalliedAt(pile[..|pile| - 1], k, counts, representatives);
    }
  }

  /** The dictionaries before and after one counted entry, seen at one key. */
  lemma TallyCountsAt(init: seq<Entry>, pile: seq<Entry>, e: Entry, counts: map<Key, nat>,
      representatives: map<Key, Entry>, key: Key, k: Key)
    requires Count(pile, k) == Count(init, k) + (if k == key then 1 else 0) && k in Keys(pile)
    requires if k in Keys(init) then First(pile, k) == First(init, k)
             else First(pile, k) == e && Count(init, k) == 0 && k == key
    requires k in Keys(init) ==> TalliedAt(init, k, counts, representatives)
    requires k in counts ==> k in Keys(init)
    ensures if key in counts then TalliedAt(pile, k, counts[key := counts[key] + 1], representatives)
            else TalliedAt(pile, k, counts[key := 1], representatives[key := e])
  {
  }

  /** A counted entry raises the count of its key, or is the first card of a new one. */
  lemma TallyCounts(pile: seq<Entry>, order: seq<Key>, counts: map<Key, nat>, representatives: map<Key, Entry>,
      key: Key)
    requires pile != [] && Tallied(pile[..|pile| - 1], order, counts, representatives)
    requires Has(pile[|pile| - 1], key)
    ensures var e := pile[|pile| - 1];
            if key in counts then Tallied(pile, order, counts[key := counts[key] + 1], representatives)
            else Tallied(pile, order + [RawKey(e)], counts[key := 1], representatives[key := e])
  {
    var init, e := pile[..|pile| - 1], pile[|pile| - 1];
    StoredGrows(pile, |pile| - 1);
    assert pile[..|pile|] == pile;
    forall k ensures k in Keys(pile) <==> k in Keys(init) || k == key { OneMore(pile, k); }
    assert key in counts <==> key in Keys(init) by {
      if key in Keys(init) { assert TalliedAt(init, key, counts, representatives); }
    }
    var counted := if key in counts then counts[key := counts[key] + 1] else counts[key := 1];
    var represented := if key in counts then representatives else representatives[key := e];
    forall k <- Keys(pile) ensures TalliedAt(pile, k, counted, represented) {
      OneMore(pile, k);
      TallyCountsAt(init, pile, e, counts, representatives, key, k);
    }
  }

  /** `_multiset_of`; `None` is a pile that is not a list. */
  method MultisetOf(text: Part -> string, pile: Option<seq<Entry>>) returns (result: seq<Record>)
    requires Injective(text)
    ensures result == if pile.None? then [] else Masked(text, pile.value)
  {
    if pile.None? { return []; }
    var entries := pile.value;
    var order: seq<Key>, counts: map<Key, nat>, representatives: map<Key, Entry> := [], map[], map[];
    for n := 0 to |entries|
      invariant Tallied(entries[..n], order, counts, representatives)
    {
      assert entries[..n + 1][..n] == entries[..n];
      order, counts, representatives := Tally(entries[n], order, counts, representatives, entries[..n + 1]);
    }
    assert entries[..|entries|] == entries;
    SortedKeysOf(text, entries);
    forall k <- Sorted(text, order)
      ensures Canon(k) in Keys(entries) && TalliedAt(entries, Canon(k), counts, representatives)
    {
    }
    result := Publication(Sorted(text, order), counts, representatives, entries);
  }

  /** One turn of the counting loop. */
  method Tally(e: Entry, order: seq<Key>, counts: map<Key, nat>, representatives: map<Key, Entry>,
      ghost pile: seq<Entry>)
    returns (longer: seq<Key>, counted: map<Key, nat>, represented: map<Key, Entry>)
    requires pile != [] && pile[|pile| - 1] == e && Tallied(pile[..|pile| - 1], order, counts, representatives)
    ensures Tallied(pile, longer, counted, represented)
  {
    longer, counted, represented := order, counts, representatives;
    if Counted(e) {
      var key := KeyOf(e);
      TallyCounts(pile, order, counts, representatives, key);
      if key in counts {
        counted := counts[key := counts[key] + 1];
      } else {
        longer := order + [RawKey(e)];
        counted, represented := counts[key := 1], representatives[key := e];
      }
    } else {
      TallySkips(pile, order, counts, representatives);
    }
  }

  /** One record per key, in the given order. */
  method Publication(keys: seq<Key>, counts: map<Key, nat>, representatives: map<Key, Entry>, ghost entries: seq<Entry>)
    returns (result: seq<Record>)
    requires forall k <- keys :: Canon(k) in Keys(entries) && TalliedAt(entries, Canon(k), counts, representatives)
    ensures result == Records(entries, keys)
  {
    result := [];
    for n := 0 to |keys|
      invariant |result| == n
      invariant forall i | 0 <= i < n ::
                  Canon(keys[i]) in Keys(entries) && result[i] == RecordOf(entries, Canon(keys[i]))
    {
      assert keys[n] in keys;
      result := result + [Record(Publish(representatives[Canon(keys[n])]), counts[Canon(keys[n])])];
    }
  }

  // ---- What masking promises -------------------------------------------------------------------------

  function Total(records: seq<Record>): nat {
    if records == [] then 0 else Total(records[..|records| - 1]) + records[|records| - 1].count
  }

  function CountedCards(pile: seq<Entry>): nat {
    if pile == [] then 0 else CountedCards(pile[..|pile| - 1]) + if Counted(pile[|pile| - 1]) then 1 else 0
  }

  function SumOver(pile: seq<Entry>, keys: seq<Key>): nat {
    if keys == [] then 0 else SumOver(pile, keys[..|keys| - 1]) + Count(pile, keys[|keys| - 1])
  }

  lemma {:induction false} SumGrows(init: seq<Entry>, e: Entry, keys: seq<Key>)
    requires forall i, j | 0 <= i < j < |keys| :: keys[i] != keys[j]
    ensures SumOver(init + [e], keys) == SumOver(init, keys) + if Counted(e) && KeyOf(e) in keys then 1 else 0
  {
    assert (init + [e])[..|init|] == init;
    if keys != [] {
      var n := |keys| - 1;
      SumGrows(init, e, keys[..n]);
      assert keys == keys[..n] + [keys[n]];
      assert forall k :: k in keys <==> k in keys[..n] || k == keys[n];
    }
  }

  lemma {:induction false} SumIsCounted(pile: seq<Entry>, keys: seq<Key>)
    requires forall i, j | 0 <= i < j < |keys| :: keys[i] != keys[j]
    requires forall k | Count(pile, k) > 0 :: k in keys
    ensures SumOver(pile, keys) == CountedCards(pile)
  {
    if pile == [] {
      SumOfNothing(keys);
    } else {
      var init, e := pile[..|pile| - 1], pile[|pile| - 1];
      assert pile == init + [e];
      forall k | Count(init, k) > 0 ensures k in keys { assert Count(pile, k) > 0; }
      SumIsCounted(init, keys);
      SumGrows(init, e, keys);
      if Counted(e) { assert Count(pile, KeyOf(e)) > 0; }
    }
  }

  lemma {:induction false} SumOfNothing(keys: seq<Key>)
    ensures SumOver([], keys) == 0
  {
    if keys != [] { SumOfNothing(keys[..|keys| - 1]); }
  }

  function Canons(keys: seq<Key>): seq<Key> {
    seq(|keys|, i requires 0 <= i < |keys| => Canon(keys[i]))
  }

  lemma {:induction false} TotalIsSum(pile: seq<Entry>, keys: seq<Key>)
    requires forall k <- keys :: Canon(k) in Keys(pile)
    ensures Total(Records(pile, keys)) == SumOver(pile, Canons(keys))
  {
    if keys != [] {
      var n := |keys| - 1;
      TotalIsSum(pile, keys[..n]);
      assert Records(pile, keys)[..n] == Records(pile, keys[..n]);
      assert Canons(keys)[..n] == Canons(keys[..n]);
      assert keys[n] in keys;
    }
  }

  /** The sorted keys are of pairwise different kinds, and of every kind in the pile. */
  lemma KindsAreCovered(text: Part -> string, pile: seq<Entry>)
    requires Injective(text)
    ensures var kinds := Canons(Sorted(text, Stored(pile)));
            && (forall i, j | 0 <= i < j < |kinds| :: kinds[i] != kinds[j])
            && (forall k | Count(pile, k) > 0 :: k in kinds)
  {
    SortedKeysOf(text, pile);
    KeysAre(pile);
    var keys := Sorted(text, Stored(pile));
    var kinds := Canons(keys);
    forall i, j | 0 <= i < j < |kinds| ensures kinds[i] != kinds[j] {
      assert keys[i] in keys && keys[j] in keys;
    }
    forall k | Count(pile, k) > 0 ensures k in kinds {
      var raw := RawKey(First(pile, k));
      StoredIs(pile, raw);
      assert raw in keys;
      var i :| 0 <= i < |keys| && keys[i] == raw;
      assert kinds[i] == k;
    }
  }

  /**
   The records have distinct keys in ascending order, each stands for the cards of one kind, every card
   with an id is in one of them, and the counts add up to the number of such cards.
   */
  lemma MaskIsAMultiset(text: Part -> string, pile: seq<Entry>)
    requires Injective(text)
    ensures var keys := Sorted(text, Stored(pile)); var records := Masked(text, pile);
            && Ascending(text, keys) && |records| == |keys|
            && (forall i, j | 0 <= i < j < |keys| :: Canons(keys)[i] != Canons(keys)[j])
            && (forall i | 0 <= i < |records| ::
                  records[i].count == Count(pile, Canon(keys[i])) > 0 && records[i].card.fields == keys[i][..9])
            && (forall e <- pile :: Counted(e) ==> KeyOf(e) in Canons(keys))
            && Total(records) == CountedCards(pile)
  {
    KeysAre(pile);
    SortedKeysOf(text, pile);
    KindsAreCovered(text, pile);
    var keys := Sorted(text, Stored(pile));
    TotalIsSum(pile, keys);
    SumIsCounted(pile, Canons(keys));
    forall i | 0 <= i < |keys|
      ensures Canon(keys[i]) in Keys(pile) && Count(pile, Canon(keys[i])) > 0
      ensures Publish(First(pile, Canon(keys[i]))).fields == keys[i][..9]
    {
      assert keys[i] in keys;
      RawKeyParts(First(pile, Canon(keys[i])));
    }
    forall e <- pile | Counted(e) ensures KeyOf(e) in Canons(keys) {
      CardsAreCounted(pile, e);
    }
  }

  lemma {:induction false} CardsAreCounted(pile: seq<Entry>, e: Entry)
    requires e in pile && Counted(e)
    ensures Count(pile, KeyOf(e)) > 0
  {
    if pile[|pile| - 1] != e {
      assert e in pile[..|pile| - 1];
      CardsAreCounted(pile[..|pile| - 1], e);
    }
  }

  // ---- Order -----------------------------------------------------------------------------------------

  lemma {:induction false} CountConcat(a: seq<Entry>, b: seq<Entry>, k: Key)
    ensures Count(a + b, k) == Count(a, k) + Count(b, k)
  {
    if b == [] {
      assert a + b == a;
    } else {
      assert (a + b)[..|a + b| - 1] == a + b[..|b| - 1];
      CountConcat(a, b[..|b| - 1], k);
    }
  }

  /** `q` with one occurrence of `e` taken out. */
  lemma TakenOut(q: seq<Entry>, e: Entry) returns (rest: seq<Entry>)
    requires e in q
    ensures multiset(q) == multiset(rest) + multiset{e}
    ensures forall k :: Count(q, k) == Count(rest, k) + if Has(e, k) then 1 else 0
  {
    var j :| 0 <= j < |q| && q[j] == e;
    rest := q[..j] + q[j + 1..];
    assert q == q[..j] + [e] + q[j + 1..];
    forall k ensures Count(q, k) == Count(rest, k) + if Has(e, k) then 1 else 0 {
      CountConcat(q[..j], q[j + 1..], k);
      CountConcat(q[..j] + [e], q[j + 1..], k);
      assert (q[..j] + [e])[..j] == q[..j];
    }
  }

  lemma RestsMatch(init: seq<Entry>, e: Entry, rest: seq<Entry>)
    requires multiset(init + [e]) == multiset(rest) + multiset{e}
    ensures multiset(init) == multiset(rest)
  {
    assert multiset(init) == multiset(init + [e]) - multiset{e};
    assert multiset(rest) == multiset(rest) + multiset{e} - multiset{e};
  }

  lemma {:induction false} CountIgnoresOrder(p: seq<Entry>, q: seq<Entry>, k: Key)
    requires multiset(p) == multiset(q)
    ensures Count(p, k) == Count(q, k)
  {
    if p == [] {
      assert |multiset(q)| == |q|;
    } else {
      var init, e := p[..|p| - 1], p[|p| - 1];
      assert p == init + [e] && e in multiset(q);
      var rest := TakenOut(q, e);
      RestsMatch(init, e, rest);
      CountIgnoresOrder(init, rest, k);
    }
  }

  /** Cards of one key have the very same fields, and all or none of them an enchantment. */
  ghost predicate Uniform(pile: seq<Entry>) {
    forall a, b | a in pile && b in pile && Counted(a) && Counted(b) && KeyOf(a) == KeyOf(b) :: LookAlike(a, b)
  }

  predicate LookAlike(a: Entry, b: Entry)
    requires a.Card? && b.Card?
  {
    RawKey(a) == RawKey(b) && (a.enchantment.NoEnchantment? <==> b.enchantment.NoEnchantment?)
  }

  ghost predicate OrderInvariant(text: Part -> string, pile: seq<Entry>)
    requires Injective(text)
  {
    forall q: seq<Entry> | multiset(q) == multiset(pile) :: Masked(text, q) == Masked(text, pile)
  }

  lemma {:induction false} FirstIsInPile(pile: seq<Entry>, k: Key)
    requires k in Keys(pile)
    ensures First(pile, k) in pile
  {
    var init := pile[..|pile| - 1];
    if k in Keys(init) {
      FirstIsInPile(init, k);
      assert First(init, k) in init;
    }
  }

  /** Nothing is published but cards with an id that are in the pile; other entries leave no record. */
  lemma RecordsAreCards(text: Part -> string, pile: seq<Entry>, record: Record)
    requires Injective(text) && record in Masked(text, pile)
    ensures exists e :: e in pile && e.Card? && e.id != Absent && record.card == Publish(e)
  {
    SortedKeysOf(text, pile);
    var keys := Sorted(text, Stored(pile));
    var i :| 0 <= i < |keys| && Masked(text, pile)[i] == record;
    assert keys[i] in keys;
    FirstIsInPile(pile, Canon(keys[i]));
  }

  /** In a uniform pile the first cards of a kind look alike, whatever the order. */
  lemma FirstsLookAlike(p: seq<Entry>, q: seq<Entry>, k: Key)
    requires Uniform(p) && multiset(p) == multiset(q)
    ensures k in Keys(p) <==> k in Keys(q)
    ensures k in Keys(p) ==> LookAlike(First(p, k), First(q, k))
  {
    KeysAre(p);
    KeysAre(q);
    CountIgnoresOrder(p, q, k);
    if k in Keys(p) {
      FirstIsInPile(p, k);
      FirstIsInPile(q, k);
      assert First(q, k) in multiset(q) && First(q, k) in multiset(p);
    }
  }

  lemma SameKeysSorted(text: Part -> string, p: seq<Entry>, q: seq<Entry>)
    requires Injective(text) && Uniform(p) && multiset(p) == multiset(q)
    ensures Sorted(text, Stored(p)) == Sorted(text, Stored(q))
  {
    SortedKeysOf(text, p);
    SortedKeysOf(text, q);
    forall k ensures k in Stored(p) <==> k in Stored(q) {
      FirstsLookAlike(p, q, Canon(k));
      StoredIs(p, k);
      StoredIs(q, k);
    }
    AscendingIsUnique(text, Sorted(text, Stored(p)), Sorted(text, Stored(q)));
  }

  lemma UniformIsInvariant(text: Part -> string, p: seq<Entry>, q: seq<Entry>)
    requires Injective(text) && Uniform(p) && multiset(p) == multiset(q)
    ensures Masked(text, p) == Masked(text, q)
  {
    SameKeysSorted(text, p, q);
    SortedKeysOf(text, p);
    SortedKeysOf(text, q);
    var keys := Sorted(text, Stored(p));
    forall i | 0 <= i < |keys|
      ensures Canon(keys[i]) in Keys(p) && Canon(keys[i]) in Keys(q)
      ensures RecordOf(p, Canon(keys[i])) == RecordOf(q, Canon(keys[i]))
    {
      assert keys[i] in keys;
      CountIgnoresOrder(p, q, Canon(keys[i]));
      FirstsLookAlike(p, q, Canon(keys[i]));
      PublishedAlikeIff(First(p, Canon(keys[i])), First(q, Canon(keys[i])));
    }
  }

  lemma {:induction false} FirstOfFront(e: Entry, rest: seq<Entry>)
    requires Counted(e)
    ensures KeyOf(e) in Keys([e] + rest) && First([e] + rest, KeyOf(e)) == e
  {
    var pile := [e] + rest;
    if rest == [] {
      assert pile[..0] == [] && pile[0] == e;
    } else {
      assert pile[..|pile| - 1] == [e] + rest[..|rest| - 1];
      FirstOfFront(e, rest[..|rest| - 1]);
    }
  }

  /** The pile with one of its cards moved to the front. */
  lemma MovedToFront(pile: seq<Entry>, e: Entry) returns (moved: seq<Entry>)
    requires e in pile && Counted(e)
    ensures multiset(moved) == multiset(pile) && KeyOf(e) in Keys(moved) && First(moved, KeyOf(e)) == e
  {
    var j :| 0 <= j < |pile| && pile[j] == e;
    moved := [e] + (pile[..j] + pile[j + 1..]);
    assert pile == pile[..j] + [e] + pile[j + 1..];
    FirstOfFront(e, pile[..j] + pile[j + 1..]);
  }

  /** The record of a kind is somewhere in the masked pile. */
  lemma RecordIsPublished(text: Part -> string, pile: seq<Entry>, k: Key) returns (i: nat)
    requires Injective(text) && k in Keys(pile)
    ensures i < |Masked(text, pile)| && Masked(text, pile)[i] == RecordOf(pile, k)
  {
    SortedKeysOf(text, pile);
    var keys, raw := Sorted(text, Stored(pile)), RawKey(First(pile, k));
    StoredIs(pile, raw);
    assert raw in keys;
    i :| 0 <= i < |keys| && keys[i] == raw;
  }

  /** And every record is of some kind. */
  lemma PublishedIsRecord(text: Part -> string, pile: seq<Entry>, i: nat) returns (k: Key)
    requires Injective(text) && i < |Masked(text, pile)|
    ensures k in Keys(pile) && Masked(text, pile)[i] == RecordOf(pile, k)
  {
    SortedKeysOf(text, pile);
    var keys := Sorted(text, Stored(pile));
    assert keys[i] in keys;
    k := Canon(keys[i]);
  }

  lemma InvariantMeansAlike(text: Part -> string, pile: seq<Entry>, a: Entry, b: Entry)
    requires Injective(text) && OrderInvariant(text, pile)
    requires a in pile && b in pile && Counted(a) && Counted(b) && KeyOf(a) == KeyOf(b)
    ensures LookAlike(a, b)
  {
    var p := MovedToFront(pile, a);
    var q := MovedToFront(pile, b);
    assert Masked(text, p) == Masked(text, pile) == Masked(text, q);
    var i := RecordIsPublished(text, p, KeyOf(a));
    var k := PublishedIsRecord(text, q, i);
    PublishedAlikeIff(a, First(q, k));
    assert k == KeyOf(b);
    PublishedAlikeIff(a, b);
  }

  /** Masking hides the order of a pile exactly when the pile is uniform. */
  lemma MaskingHidesOrderIff(text: Part -> string, pile: seq<Entry>)
    requires Injective(text)
    ensures OrderInvariant(text, pile) <==> Uniform(pile)
  {
    if Uniform(pile) {
      forall q: seq<Entry> | multiset(q) == multiset(pile) ensures Masked(text, q) == Masked(text, pile) {
        UniformIsInvariant(text, pile, q);
      }
    }
    if OrderInvariant(text, pile) {
      forall a, b | a in pile && b in pile && Counted(a) && Counted(b) && KeyOf(a) == KeyOf(b)
        ensures LookAlike(a, b)
      {
        InvariantMeansAlike(text, pile, a, b);
      }
    }
  }

  /** As the emulator types a card: a flag only where `upgraded` is, and a present enchantment has an id. */
  predicate Typed(e: Entry)
    requires e.Card?
  {
    && (forall i | 0 <= i < 12 :: i != 5 ==> !RawKey(e)[i].Flag?)
    && (e.enchantment.NoEnchantment? || e.enchantment.id != Absent)
  }

  lemma TypedPartsAgree(a: Entry, b: Entry, i: nat)
    requires a.Card? && b.Card? && Typed(a) && Typed(b) && KeyOf(a) == KeyOf(b) && i < 12
    ensures RawKey(a)[i] == RawKey(b)[i]
  {
    assert KeyOf(a)[i] == CanonPart(RawKey(a)[i]) && KeyOf(b)[i] == CanonPart(RawKey(b)[i]);
    assert RawKey(a)[5].Flag? && RawKey(b)[5].Flag?;
  }

  /** Piles of typed cards are always uniform. */
  lemma TypedPilesAreUniform(pile: seq<Entry>)
    requires forall e <- pile :: Counted(e) ==> Typed(e)
    ensures Uniform(pile)
  {
    forall a, b | a in pile && b in pile && Counted(a) && Counted(b) && KeyOf(a) == KeyOf(b)
      ensures LookAlike(a, b)
    {
      forall i | 0 <= i < 12 ensures RawKey(a)[i] == RawKey(b)[i] {
        TypedPartsAgree(a, b, i);
      }
      assert RawKey(a)[9] == EnchantmentParts(a.enchantment)[0] && RawKey(b)[9] == EnchantmentParts(b.enchantment)[0];
    }
  }

  /** Two cards that differ only in a missing and a blank enchantment give their order away. */
  lemma BlankEnchantmentShowsOrder(text: Part -> string, plain: Entry)
    requires Injective(text) && Counted(plain) && plain.enchantment == NoEnchantment
    ensures var blank := plain.(enchantment := Enchantment(Absent, Absent, Absent));
            !OrderInvariant(text, [plain, blank])
  {
    var blank := plain.(enchantment := Enchantment(Absent, Absent, Absent));
    assert plain in [plain, blank] && blank in [plain, blank];
    MaskingHidesOrderIff(text, [plain, blank]);
  }

  /** So do two cards whose costs compare equal and are of different type. */
  lemma MixedTypesShowOrder(text: Part -> string, card: Entry)
    requires Injective(text) && Counted(card) && card.cost == Num(1)
    ensures !OrderInvariant(text, [card, card.(cost := Flag(true))])
  {
    var other := card.(cost := Flag(true));
    assert card in [card, other] && other in [card, other];
    assert RawKey(card)[3] != RawKey(other)[3];
    forall i | 0 <= i < 12 ensures KeyOf(card)[i] == KeyOf(other)[i] {
      if i != 3 { assert RawKey(card)[i] == RawKey(other)[i]; }
    }
    MaskingHidesOrderIff(text, [card, other]);
  }
}
