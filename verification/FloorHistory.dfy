/**
 Replaying a run's recorded history into deck, relics, potions and HP
 (Combat/data/reconstruct_floor_state.py).

 The log names cards, not instances, so a removal may have several candidates.  Warnings are the only
 trace a doubtful step leaves; their texts are reduced to their kinds, and ids carry no prefix.
 */
module FloorHistory {
  import opened Wrappers

  /** By the word a warning starts with; `MadScience` stands for MISSING and CONFLICT. */
  datatype Warning = NotFound | Ambiguous | MadScience

  datatype Card = Card(id: string, floor: Option<int>, upgraded: bool, tinker: Option<int>)

  /** A card as the log refers to it; `tinker` is what `reconcile_mad_science_state` makes of it. */
  datatype CardRef = CardRef(id: string, floor: Option<int>, upgraded: bool, tinker: Option<int>)

  datatype HpSource = StartingHp | RecordedHp | NoHp

  datatype State = State(
    deck: seq<Card>, relics: seq<string>, potions: seq<string>, warnings: seq<Warning>,
    hp: Option<(int, int)>, source: HpSource, gold: int)

  datatype Choice = Choice(id: string, picked: bool)

  datatype PointStats = PointStats(
    gained: seq<CardRef>, removed: seq<CardRef>, transformed: seq<(CardRef, CardRef)>,
    upgraded: seq<string>, downgraded: seq<string>,
    relicChoices: seq<Choice>, relicsRemoved: seq<string>,
    potionChoices: seq<Choice>, potionsUsed: seq<string>, potionsDiscarded: seq<string>,
    gold: Option<int>, hp: Option<(int, int)>)

  const MAD_SCIENCE := "MAD_SCIENCE"
  const ASCENDERS_BANE := "ASCENDERS_BANE"

  /** What a character starts with; `None` is a character the tables do not know. */
  datatype Kit = Kit(deck: seq<string>, relic: string, hp: int)

  function StartingCard(id: string): Card {
    Card(id, Some(1), false, None)
  }

  function Start(kit: Option<Kit>, ascension: Option<int>): State {
    var bane := if ascension.Some? && 5 <= ascension.value <= 10 then [StartingCard(ASCENDERS_BANE)] else [];
    match kit
    case None => State(bane, [], [], [NotFound], None, NoHp, 0)
    case Some(k) =>
      State(seq(|k.deck|, i requires 0 <= i < |k.deck| => StartingCard(k.deck[i])) + bane,
            [k.relic], [], [], Some((k.hp, k.hp)), StartingHp, 0)
  }

  // ---- Card instances --------------------------------------------------------------------------------

  predicate Matches(c: Card, id: string, floor: Option<int>, upgraded: Option<bool>) {
    c.id == id && (floor.Some? ==> c.floor == floor) && (upgraded.Some? ==> c.upgraded == upgraded.value)
  }

  /** Positions of the matching cards, in deck order. */
  function Candidates(deck: seq<Card>, id: string, floor: Option<int>, upgraded: Option<bool>): (r: seq<nat>)
    ensures forall i <- r :: i < |deck| && Matches(deck[i], id, floor, upgraded)
  {
    if deck == [] then []
    else
      var n := |deck| - 1;
      Candidates(deck[..n], id, floor, upgraded) + if Matches(deck[n], id, floor, upgraded) then [n] else []
  }

  lemma {:induction false} CandidatesAreAll(deck: seq<Card>, id: string, floor: Option<int>, upgraded: Option<bool>,
      i: nat)
    requires i < |deck| && Matches(deck[i], id, floor, upgraded)
    ensures i in Candidates(deck, id, floor, upgraded)
  {
    if i < |deck| - 1 {
      CandidatesAreAll(deck[..|deck| - 1], id, floor, upgraded, i);
    }
  }

  /** The floor pin first; without a match there, any card of the id. */
  function ForRemoval(deck: seq<Card>, r: CardRef): (c: seq<nat>)
    ensures forall i <- c :: i < |deck| && deck[i].id == r.id
  {
    var pinned := Candidates(deck, r.id, r.floor, None);
    if pinned == [] && r.floor.Some? then Candidates(deck, r.id, None, None) else pinned
  }

  predicate Mixed(deck: seq<Card>, c: seq<nat>)
    requires forall i <- c :: i < |deck|
  {
    exists i, j | i in c && j in c :: deck[i].upgraded != deck[j].upgraded
  }

  function Without<T>(s: seq<T>, i: nat): seq<T>
    requires i < |s|
  {
    s[..i] + s[i + 1..]
  }

  // ---- Steps -----------------------------------------------------------------------------------------

  function Warn(s: State, w: Warning): State {
    s.(warnings := s.warnings + [w])
  }

  function AddCard(s: State, r: CardRef): State {
    if r.id != MAD_SCIENCE then s.(deck := s.deck + [Card(r.id, r.floor, r.upgraded, None)])
    else
      (if r.tinker.None? then Warn(s, MadScience) else s).(deck := s.deck + [Card(r.id, r.floor, r.upgraded, r.tinker)])
  }

  function RemoveCard(s: State, r: CardRef): State {
    var c := ForRemoval(s.deck, r);
    if c == [] then Warn(s, NotFound)
    else
      assert c[0] in c;
      (if Mixed(s.deck, c) then Warn(s, Ambiguous) else s).(deck := Without(s.deck, c[0]))
  }

  function SetUpgraded(s: State, id: string, to: bool): State {
    var c := Candidates(s.deck, id, None, Some(!to));
    if c == [] then Warn(s, NotFound)
    else
      assert c[0] in c;
      s.(deck := s.deck[c[0] := s.deck[c[0]].(upgraded := to)])
  }

  function TakeRelic(s: State, c: Choice): State {
    if c.picked && c.id !in s.relics then s.(relics := s.relics + [c.id]) else s
  }

  function IndexOf(xs: seq<string>, x: string): (i: nat)
    requires x in xs
    ensures i < |xs| && xs[i] == x && x !in xs[..i]
  {
    if xs[0] == x then 0 else 1 + IndexOf(xs[1..], x)
  }

  function DropRelic(s: State, id: string): State {
    if id in s.relics then s.(relics := Without(s.relics, IndexOf(s.relics, id))) else Warn(s, NotFound)
  }

  function TakePotion(s: State, c: Choice): State {
    if c.picked then s.(potions := s.potions + [c.id]) else s
  }

  function DropPotion(s: State, id: string): State {
    if id in s.potions then s.(potions := Without(s.potions, IndexOf(s.potions, id))) else Warn(s, NotFound)
  }

  function RecordVitals(s: State, ps: PointStats): State {
    var g := if ps.gold.Some? then s.(gold := ps.gold.value) else s;
    if ps.hp.Some? then g.(hp := ps.hp, source := RecordedHp) else Warn(g, NotFound).(hp := None, source := NoHp)
  }

  /** One recorded change; a history point is a list of them in a fixed order. */
  datatype Step =
    | Gain(card: CardRef)
    | Remove(card: CardRef)
    | Upgrade(id: string)
    | Downgrade(id: string)
    | RelicChoice(choice: Choice)
    | RelicRemoved(id: string)
    | PotionChoice(choice: Choice)
    | PotionGone(id: string)
    | Vitals(stats: PointStats)

  function Apply(s: State, step: Step): State {
    match step
    case Gain(r) => AddCard(s, r)
    case Remove(r) => RemoveCard(s, r)
    case Upgrade(id) => SetUpgraded(s, id, true)
    case Downgrade(id) => SetUpgraded(s, id, false)
    case RelicChoice(c) => TakeRelic(s, c)
    case RelicRemoved(id) => DropRelic(s, id)
    case PotionChoice(c) => TakePotion(s, c)
    case PotionGone(id) => DropPotion(s, id)
    case Vitals(ps) => RecordVitals(s, ps)
  }

  function ApplyAll(s: State, steps: seq<Step>): State {
    if steps == [] then s else Apply(ApplyAll(s, steps[..|steps| - 1]), steps[|steps| - 1])
  }

  function Gains(cs: seq<CardRef>): seq<Step> {
    seq(|cs|, i requires 0 <= i < |cs| => Gain(cs[i]))
  }

  function Removals(cs: seq<CardRef>): seq<Step> {
    seq(|cs|, i requires 0 <= i < |cs| => Remove(cs[i]))
  }

  /** A transformation is a removal followed by a gain. */
  function Transformations(ts: seq<(CardRef, CardRef)>): seq<Step> {
    if ts == [] then [] else Transformations(ts[..|ts| - 1]) + [Remove(ts[|ts| - 1].0), Gain(ts[|ts| - 1].1)]
  }

  function Upgrades(ids: seq<string>): seq<Step> {
    seq(|ids|, i requires 0 <= i < |ids| => Upgrade(ids[i]))
  }

  function Downgrades(ids: seq<string>): seq<Step> {
    seq(|ids|, i requires 0 <= i < |ids| => Downgrade(ids[i]))
  }

  function RelicChoices(cs: seq<Choice>): seq<Step> {
    seq(|cs|, i requires 0 <= i < |cs| => RelicChoice(cs[i]))
  }

  function RelicRemovals(ids: seq<string>): seq<Step> {
    seq(|ids|, i requires 0 <= i < |ids| => RelicRemoved(ids[i]))
  }

  function PotionChoices(cs: seq<Choice>): seq<Step> {
    seq(|cs|, i requires 0 <= i < |cs| => PotionChoice(cs[i]))
  }

  function PotionLosses(ids: seq<string>): seq<Step> {
    seq(|ids|, i requires 0 <= i < |ids| => PotionGone(ids[i]))
  }

  function CardSteps(ps: PointStats): seq<Step> {
    Gains(ps.gained) + Removals(ps.removed) + Transformations(ps.transformed) + Upgrades(ps.upgraded)
        + Downgrades(ps.downgraded)
  }

  function RelicSteps(ps: PointStats): seq<Step> {
    RelicChoices(ps.relicChoices) + RelicRemovals(ps.relicsRemoved)
  }

  function PotionSteps(ps: PointStats): seq<Step> {
    PotionChoices(ps.potionChoices) + PotionLosses(ps.potionsUsed) + PotionLosses(ps.potionsDiscarded)
  }

  /** A history point as the changes it stands for, in the order they are applied. */
  function StepsOf(ps: PointStats): seq<Step> {
    CardSteps(ps) + RelicSteps(ps) + PotionSteps(ps) + [Vitals(ps)]
  }

  lemma {:induction false} ApplyConcat(s: State, a: seq<Step>, b: seq<Step>)
    ensures ApplyAll(s, a + b) == ApplyAll(ApplyAll(s, a), b)
  {
    if b == [] {
      assert a + b == a;
    } else {
      assert (a + b)[..|a + b| - 1] == a + b[..|b| - 1];
      ApplyConcat(s, a, b[..|b| - 1]);
    }
  }

  /** One more step of a list. */
  lemma ApplyNext(s: State, steps: seq<Step>, n: nat)
    requires n < |steps|
    ensures ApplyAll(s, steps[..n + 1]) == Apply(ApplyAll(s, steps[..n]), steps[n])
  {
    assert steps[..n + 1][..n] == steps[..n];
  }

  lemma ApplyPair(s: State, a: Step, b: Step)
    ensures ApplyAll(s, [a, b]) == Apply(Apply(s, a), b)
  {
    var two := [a, b];
    assert two[..0] == [] && two[..2] == two;
    ApplyNext(s, two, 0);
    ApplyNext(s, two, 1);
  }

  lemma TwoOf(s: set<bool>)
    requires |s| > 1
    ensures false in s && true in s
  {
    if false !in s {
      assert forall x <- s :: x;
      SubsetSize(s, {true});
    }
    if true !in s {
      assert forall x <- s :: !x;
      SubsetSize(s, {false});
    }
  }

  lemma AtMostOneOf(s: set<bool>, x: bool, y: bool)
    requires |s| <= 1 && x in s && y in s
    ensures x == y
  {
    SubsetSize({x, y}, s);
  }

  // ---- What a step does, said of the deck --------------------------------------------------------------

  /** Position `i` holds the first card of this id, on this floor and in this state where they are named. */
  predicate FirstOf(deck: seq<Card>, id: string, floor: Option<int>, upgraded: Option<bool>, i: nat) {
    && i < |deck| && deck[i].id == id
    && (floor.Some? ==> deck[i].floor == floor) && (upgraded.Some? ==> deck[i].upgraded == upgraded.value)
    && forall j | 0 <= j < i ::
         !(&& deck[j].id == id && (floor.Some? ==> deck[j].floor == floor)
           && (upgraded.Some? ==> deck[j].upgraded == upgraded.value))
  }

  predicate NoneOf(deck: seq<Card>, id: string, floor: Option<int>, upgraded: Option<bool>) {
    forall c <- deck :: !(&& c.id == id && (floor.Some? ==> c.floor == floor)
                          && (upgraded.Some? ==> c.upgraded == upgraded.value))
  }

  lemma {:induction false} FirstMatch(deck: seq<Card>, id: string, floor: Option<int>, upgraded: Option<bool>, i: nat)
    requires i < |deck| && Matches(deck[i], id, floor, upgraded)
    requires forall j | 0 <= j < i :: !Matches(deck[j], id, floor, upgraded)
    ensures Candidates(deck, id, floor, upgraded) != [] && Candidates(deck, id, floor, upgraded)[0] == i
  {
    var n := |deck| - 1;
    var before := deck[..n];
    if i < n {
      assert before[i] == deck[i] && forall j | 0 <= j < i :: before[j] == deck[j];
      FirstMatch(before, id, floor, upgraded, i);
    } else {
      NoMatch(before, id, floor, upgraded);
    }
  }

  lemma {:induction false} NoMatch(deck: seq<Card>, id: string, floor: Option<int>, upgraded: Option<bool>)
    requires forall j | 0 <= j < |deck| :: !Matches(deck[j], id, floor, upgraded)
    ensures Candidates(deck, id, floor, upgraded) == []
  {
    if deck == [] {
    } else {
      var n := |deck| - 1;
      assert !Matches(deck[n], id, floor, upgraded);
      NoMatch(deck[..n], id, floor, upgraded);
    }
  }

  lemma FirstCandidate(deck: seq<Card>, id: string, floor: Option<int>, upgraded: Option<bool>, i: nat)
    requires FirstOf(deck, id, floor, upgraded, i)
    ensures Candidates(deck, id, floor, upgraded) != [] && Candidates(deck, id, floor, upgraded)[0] == i
  {
    FirstMatch(deck, id, floor, upgraded, i);
  }

  lemma NoCandidates(deck: seq<Card>, id: string, floor: Option<int>, upgraded: Option<bool>)
    requires NoneOf(deck, id, floor, upgraded)
    ensures Candidates(deck, id, floor, upgraded) == []
  {
    NoMatch(deck, id, floor, upgraded);
  }

  /** A removal takes the first card of the id on the floor it names, if it names one and there is one. */
  lemma RemovalTakesThePinned(s: State, r: CardRef, i: nat)
    requires FirstOf(s.deck, r.id, r.floor, None, i)
    ensures Apply(s, Remove(r)).deck == s.deck[..i] + s.deck[i + 1..]
  {
    FirstCandidate(s.deck, r.id, r.floor, None, i);
  }

  /** Without a card on that floor it takes the first of the id. */
  lemma RemovalFallsBack(s: State, r: CardRef, i: nat)
    requires NoneOf(s.deck, r.id, r.floor, None) && FirstOf(s.deck, r.id, None, None, i)
    ensures Apply(s, Remove(r)).deck == s.deck[..i] + s.deck[i + 1..]
  {
    NoCandidates(s.deck, r.id, r.floor, None);
    FirstCandidate(s.deck, r.id, None, None, i);
  }

  /** Without a card of the id it takes none and says so. */
  lemma RemovalMisses(s: State, r: CardRef)
    requires NoneOf(s.deck, r.id, None, None)
    ensures Apply(s, Remove(r)) == s.(warnings := s.warnings + [NotFound])
  {
    NoCandidates(s.deck, r.id, None, None);
    NoCandidates(s.deck, r.id, r.floor, None);
  }

  /** An upgrade flips the first plain copy, a downgrade the first upgraded one, and nothing else of it. */
  lemma FlipTakesTheFirst(s: State, id: string, to: bool, i: nat)
    requires FirstOf(s.deck, id, None, Some(!to), i)
    ensures Apply(s, if to then Upgrade(id) else Downgrade(id)) ==
            s.(deck := s.deck[i := Card(id, s.deck[i].floor, to, s.deck[i].tinker)])
  {
    FirstCandidate(s.deck, id, None, Some(!to), i);
  }

  lemma FlipMisses(s: State, id: string, to: bool)
    requires NoneOf(s.deck, id, None, Some(!to))
    ensures Apply(s, if to then Upgrade(id) else Downgrade(id)) == s.(warnings := s.warnings + [NotFound])
  {
    NoCandidates(s.deck, id, None, Some(!to));
  }

  /** The run starts with the character's deck, and the bane after it between ascension 5 and 10. */
  lemma StartIs(kit: Option<Kit>, ascension: Option<int>, i: nat)
    ensures var s, k := Start(kit, ascension), if kit.Some? then kit.value.deck else [];
            var bane := ascension.Some? && 5 <= ascension.value <= 10;
            && |s.deck| == |k| + (if bane then 1 else 0)
            && (i < |k| ==> s.deck[i] == Card(k[i], Some(1), false, None))
            && (bane ==> s.deck[|k|] == Card("ASCENDERS_BANE", Some(1), false, None))
            && s.potions == [] && s.gold == 0
            && if kit.Some? then
                 && s.relics == [kit.value.relic] && s.warnings == []
                 && s.hp == Some((kit.value.hp, kit.value.hp)) && s.source == StartingHp
               else s.relics == [] && s.warnings == [NotFound] && s.hp == None && s.source == NoHp
  {
  }

  /** A gain appends the card; only a MAD_SCIENCE keeps a state, and is warned about without one. */
  lemma GainAppends(s: State, r: CardRef)
    ensures Apply(s, Gain(r)) ==
            s.(deck := s.deck + [Card(r.id, r.floor, r.upgraded, if r.id == "MAD_SCIENCE" then r.tinker else None)],
               warnings := if r.id == "MAD_SCIENCE" && r.tinker == None then s.warnings + [MadScience] else s.warnings)
  {
  }

  /** Relics and potions: a picked one is appended, a relic once; the first of a lost one goes, or is missed. */
  lemma BeltAndRelics(s: State, c: Choice, id: string, i: nat)
    ensures Apply(s, RelicChoice(c)) == if c.picked && c.id !in s.relics then s.(relics := s.relics + [c.id]) else s
    ensures Apply(s, PotionChoice(c)) == if c.picked then s.(potions := s.potions + [c.id]) else s
    ensures id !in s.relics ==> Apply(s, RelicRemoved(id)) == s.(warnings := s.warnings + [NotFound])
    ensures id !in s.potions ==> Apply(s, PotionGone(id)) == s.(warnings := s.warnings + [NotFound])
    ensures i < |s.relics| && s.relics[i] == id && id !in s.relics[..i] ==>
              Apply(s, RelicRemoved(id)) == s.(relics := s.relics[..i] + s.relics[i + 1..])
    ensures i < |s.potions| && s.potions[i] == id && id !in s.potions[..i] ==>
              Apply(s, PotionGone(id)) == s.(potions := s.potions[..i] + s.potions[i + 1..])
  {
    if i < |s.relics| && s.relics[i] == id && id !in s.relics[..i] { FirstIndex(s.relics, id, i); }
    if i < |s.potions| && s.potions[i] == id && id !in s.potions[..i] { FirstIndex(s.potions, id, i); }
  }

  lemma FirstIndex(xs: seq<string>, x: string, i: nat)
    requires i < |xs| && xs[i] == x && x !in xs[..i]
    ensures IndexOf(xs, x) == i
  {
    var j := IndexOf(xs, x);
    forall k | 0 <= k < i ensures xs[k] != x {
      assert xs[..i][k] == xs[k];
    }
    forall k | 0 <= k < j ensures xs[k] != x {
      assert xs[..j][k] == xs[k];
    }
  }

  /** Recorded gold and HP replace what was known; HP that was not recorded is unknown from then on. */
  lemma VitalsReplace(s: State, ps: PointStats)
    ensures Apply(s, Vitals(ps)) ==
            s.(gold := if ps.gold.Some? then ps.gold.value else s.gold,
               hp := ps.hp, source := if ps.hp.Some? then RecordedHp else NoHp,
               warnings := if ps.hp.Some? then s.warnings else s.warnings + [NotFound])
  {
  }

  /** The order of one point: gains, removals, transformations, upgrades, downgrades, then relics, potions, vitals. */
  lemma CardStepsAre(ps: PointStats, i: nat)
    ensures var g, r, t := |ps.gained|, |ps.removed|, 2 * |ps.transformed|;
            var u, d := |ps.upgraded|, |ps.downgraded|;
            && |CardSteps(ps)| == g + r + t + u + d
            && (i < g ==> CardSteps(ps)[i] == Gain(ps.gained[i]))
            && (i < r ==> CardSteps(ps)[g + i] == Remove(ps.removed[i]))
            && (i < |ps.transformed| ==>
                  && CardSteps(ps)[g + r + 2 * i] == Remove(ps.transformed[i].0)
                  && CardSteps(ps)[g + r + 2 * i + 1] == Gain(ps.transformed[i].1))
            && (i < u ==> CardSteps(ps)[g + r + t + i] == Upgrade(ps.upgraded[i]))
            && (i < d ==> CardSteps(ps)[g + r + t + u + i] == Downgrade(ps.downgraded[i]))
  {
    TransformationsAre(ps.transformed, i);
  }

  lemma {:induction false} TransformationsAre(ts: seq<(CardRef, CardRef)>, i: nat)
    ensures |Transformations(ts)| == 2 * |ts|
    ensures i < |ts| ==>
              Transformations(ts)[2 * i] == Remove(ts[i].0) && Transformations(ts)[2 * i + 1] == Gain(ts[i].1)
  {
    if ts != [] { TransformationsAre(ts[..|ts| - 1], i); }
  }

  lemma OtherStepsAre(ps: PointStats, i: nat)
    ensures var c, v := |CardSteps(ps)|, |ps.relicChoices|;
            var w, p := |ps.relicsRemoved|, |ps.potionChoices|;
            var q, d := |ps.potionsUsed|, |ps.potionsDiscarded|;
            && |StepsOf(ps)| == c + v + w + p + q + d + 1
            && (i < c ==> StepsOf(ps)[i] == CardSteps(ps)[i])
            && (i < v ==> StepsOf(ps)[c + i] == RelicChoice(ps.relicChoices[i]))
            && (i < w ==> StepsOf(ps)[c + v + i] == RelicRemoved(ps.relicsRemoved[i]))
            && (i < p ==> StepsOf(ps)[c + v + w + i] == PotionChoice(ps.potionChoices[i]))
            && (i < q ==> StepsOf(ps)[c + v + w + p + i] == PotionGone(ps.potionsUsed[i]))
            && (i < d ==> StepsOf(ps)[c + v + w + p + q + i] == PotionGone(ps.potionsDiscarded[i]))
            && StepsOf(ps)[c + v + w + p + q + d] == Vitals(ps)
  {
  }

  // ---- The replay object -----------------------------------------------------------------------------

  class ReplayState {
    var deck: seq<Card>
    var relics: seq<string>
    var potions: seq<string>
    var warnings: seq<Warning>
    var hp: Option<(int, int)>
    var hpSource: HpSource
    var gold: int

    ghost function Abs(): State
      reads this
    {
      State(deck, relics, potions, warnings, hp, hpSource, gold)
    }

    constructor (kit: Option<Kit>, ascension: Option<int>)
      ensures Abs() == Start(kit, ascension)
    {
      var s := Start(kit, ascension);
      deck, relics, potions, warnings, hp, hpSource, gold :=
        s.deck, s.relics, s.potions, s.warnings, s.hp, s.source, s.gold;
    }

    /** `_find_card_candidates`. */
    method FindCardCandidates(id: string, floor: Option<int>, upgraded: Option<bool>) returns (found: seq<nat>)
      ensures found == Candidates(deck, id, floor, upgraded)
    {
      found := [];
      for n := 0 to |deck|
        invariant found == Candidates(deck[..n], id, floor, upgraded)
      {
        assert deck[..n + 1][..n] == deck[..n];
        if Matches(deck[n], id, floor, upgraded) {
          found := found + [n];
        }
      }
      assert deck[..|deck|] == deck;
    }

    method AddCard(r: CardRef)
      modifies this
      ensures Abs() == Apply(old(Abs()), Gain(r))
    {
      if r.id == MAD_SCIENCE {
        if r.tinker.None? { warnings := warnings + [MadScience]; }
        deck := deck + [Card(r.id, r.floor, r.upgraded, r.tinker)];
      } else {
        deck := deck + [Card(r.id, r.floor, r.upgraded, None)];
      }
    }

    /** More than one upgraded state among the candidates. */
    method DifferInUpgrade(found: seq<nat>) returns (mixed: bool)
      requires forall i <- found :: i < |deck|
      ensures mixed == Mixed(deck, found)
    {
      var states := set i <- found :: deck[i].upgraded;
      mixed := |states| > 1;
      if mixed {
        TwoOf(states);
        ghost var i :| i in found && deck[i].upgraded == false;
        ghost var j :| j in found && deck[j].upgraded == true;
      } else {
        forall i, j | i in found && j in found ensures deck[i].upgraded == deck[j].upgraded {
          AtMostOneOf(states, deck[i].upgraded, deck[j].upgraded);
        }
      }
    }

    method RemoveCard(r: CardRef)
      modifies this
      ensures Abs() == Apply(old(Abs()), Remove(r))
    {
      var found := FindCardCandidates(r.id, r.floor, None);
      if found == [] && r.floor.Some? {
        found := FindCardCandidates(r.id, None, None);
      }
      if found == [] {
        warnings := warnings + [NotFound];
        return;
      }
      assert found[0] in found;
      var mixed := DifferInUpgrade(found);
      if mixed { warnings := warnings + [Ambiguous]; }
      deck := deck[..found[0]] + deck[found[0] + 1..];
    }

    method UpgradeCard(id: string)
      modifies this
      ensures Abs() == Apply(old(Abs()), Upgrade(id))
    {
      var found := FindCardCandidates(id, None, Some(false));
      if found == [] {
        warnings := warnings + [NotFound];
        return;
      }
      assert found[0] in found;
      deck := deck[found[0] := deck[found[0]].(upgraded := true)];
    }

    method DowngradeCard(id: string)
      modifies this
      ensures Abs() == Apply(old(Abs()), Downgrade(id))
    {
      var found := FindCardCandidates(id, None, Some(true));
      if found == [] {
        warnings := warnings + [NotFound];
        return;
      }
      assert found[0] in found;
      deck := deck[found[0] := deck[found[0]].(upgraded := false)];
    }

    method ApplyCards(ps: PointStats)
      modifies this
      ensures Abs() == ApplyAll(old(Abs()), CardSteps(ps))
    {
      ghost var s := Abs();
      var g, r, t, u := Gains(ps.gained), Removals(ps.removed), Transformations(ps.transformed), Upgrades(ps.upgraded);
      ApplyConcat(s, g + r + t + u, Downgrades(ps.downgraded));
      ApplyConcat(s, g + r + t, u);
      ApplyConcat(s, g + r, t);
      ApplyConcat(s, g, r);
      GainCards(ps.gained);
      RemoveCards(ps.removed);
      TransformCards(ps.transformed);
      UpgradeCards(ps.upgraded);
      DowngradeCards(ps.downgraded);
    }

    method ApplyRelics(ps: PointStats)
      modifies this
      ensures Abs() == ApplyAll(old(Abs()), RelicSteps(ps))
    {
      ApplyConcat(Abs(), RelicChoices(ps.relicChoices), RelicRemovals(ps.relicsRemoved));
      PickRelics(ps.relicChoices);
      RemoveRelics(ps.relicsRemoved);
    }

    method ApplyPotions(ps: PointStats)
      modifies this
      ensures Abs() == ApplyAll(old(Abs()), PotionSteps(ps))
    {
      ghost var s := Abs();
      ApplyConcat(s, PotionChoices(ps.potionChoices) + PotionLosses(ps.potionsUsed), PotionLosses(ps.potionsDiscarded));
      ApplyConcat(s, PotionChoices(ps.potionChoices), PotionLosses(ps.potionsUsed));
      PickPotions(ps.potionChoices);
      LosePotions(ps.potionsUsed);
      LosePotions(ps.potionsDiscarded);
    }

    method GainCards(xs: seq<CardRef>)
      modifies this
      ensures Abs() == ApplyAll(old(Abs()), Gains(xs))
    {
      for n := 0 to |xs|
        invariant Abs() == ApplyAll(old(Abs()), Gains(xs)[..n])
      {
        ApplyNext(old(Abs()), Gains(xs), n);
        AddCard(xs[n]);
      }
      assert Gains(xs)[..|xs|] == Gains(xs);
    }

    method RemoveCards(xs: seq<CardRef>)
      modifies this
      ensures Abs() == ApplyAll(old(Abs()), Removals(xs))
    {
      for n := 0 to |xs|
        invariant Abs() == ApplyAll(old(Abs()), Removals(xs)[..n])
      {
        ApplyNext(old(Abs()), Removals(xs), n);
        RemoveCard(xs[n]);
      }
      assert Removals(xs)[..|xs|] == Removals(xs);
    }

    method TransformCards(xs: seq<(CardRef, CardRef)>)
      modifies this
      ensures Abs() == ApplyAll(old(Abs()), Transformations(xs))
    {
      for n := 0 to |xs|
        invariant Abs() == ApplyAll(old(Abs()), Transformations(xs[..n]))
      {
        var pair := [Remove(xs[n].0), Gain(xs[n].1)];
        assert xs[..n + 1][..n] == xs[..n];
        ApplyConcat(old(Abs()), Transformations(xs[..n]), pair);
        ApplyPair(Abs(), pair[0], pair[1]);
        RemoveCard(xs[n].0);
        AddCard(xs[n].1);
      }
      assert xs[..|xs|] == xs;
    }

    method UpgradeCards(xs: seq<string>)
      modifies this
      ensures Abs() == ApplyAll(old(Abs()), Upgrades(xs))
    {
      for n := 0 to |xs|
        invariant Abs() == ApplyAll(old(Abs()), Upgrades(xs)[..n])
      {
        ApplyNext(old(Abs()), Upgrades(xs), n);
        UpgradeCard(xs[n]);
      }
      assert Upgrades(xs)[..|xs|] == Upgrades(xs);
    }

    method DowngradeCards(xs: seq<string>)
      modifies this
      ensures Abs() == ApplyAll(old(Abs()), Downgrades(xs))
    {
      for n := 0 to |xs|
        invariant Abs() == ApplyAll(old(Abs()), Downgrades(xs)[..n])
      {
        ApplyNext(old(Abs()), Downgrades(xs), n);
        DowngradeCard(xs[n]);
      }
      assert Downgrades(xs)[..|xs|] == Downgrades(xs);
    }

    method PickRelics(xs: seq<Choice>)
      modifies this
      ensures Abs() == ApplyAll(old(Abs()), RelicChoices(xs))
    {
      for n := 0 to |xs|
        invariant Abs() == ApplyAll(old(Abs()), RelicChoices(xs)[..n])
      {
        ApplyNext(old(Abs()), RelicChoices(xs), n);
        if xs[n].picked && xs[n].id !in relics {
          relics := relics + [xs[n].id];
        }
      }
      assert RelicChoices(xs)[..|xs|] == RelicChoices(xs);
    }

    method RemoveRelics(xs: seq<string>)
      modifies this
      ensures Abs() == ApplyAll(old(Abs()), RelicRemovals(xs))
    {
      for n := 0 to |xs|
        invariant Abs() == ApplyAll(old(Abs()), RelicRemovals(xs)[..n])
      {
        ApplyNext(old(Abs()), RelicRemovals(xs), n);
        if xs[n] in relics {
          relics := Without(relics, IndexOf(relics, xs[n]));
        } else {
          warnings := warnings + [NotFound];
        }
      }
      assert RelicRemovals(xs)[..|xs|] == RelicRemovals(xs);
    }

    method PickPotions(xs: seq<Choice>)
      modifies this
      ensures Abs() == ApplyAll(old(Abs()), PotionChoices(xs))
    {
      for n := 0 to |xs|
        invariant Abs() == ApplyAll(old(Abs()), PotionChoices(xs)[..n])
      {
        ApplyNext(old(Abs()), PotionChoices(xs), n);
        if xs[n].picked {
          potions := potions + [xs[n].id];
        }
      }
      assert PotionChoices(xs)[..|xs|] == PotionChoices(xs);
    }

    method LosePotions(xs: seq<string>)
      modifies this
      ensures Abs() == ApplyAll(old(Abs()), PotionLosses(xs))
    {
      for n := 0 to |xs|
        invariant Abs() == ApplyAll(old(Abs()), PotionLosses(xs)[..n])
      {
        ApplyNext(old(Abs()), PotionLosses(xs), n);
        if xs[n] in potions {
          potions := Without(potions, IndexOf(potions, xs[n]));
        } else {
          warnings := warnings + [NotFound];
        }
      }
      assert PotionLosses(xs)[..|xs|] == PotionLosses(xs);
    }

    /** `apply_point_stats`: cards, then relics and potions, then gold and HP. */
    method ApplyPointStats(ps: PointStats)
      modifies this
      ensures Abs() == ApplyAll(old(Abs()), StepsOf(ps))
    {
      ghost var s := Abs();
      ApplyConcat(s, CardSteps(ps) + RelicSteps(ps) + PotionSteps(ps), [Vitals(ps)]);
      ApplyConcat(s, CardSteps(ps) + RelicSteps(ps), PotionSteps(ps));
      ApplyConcat(s, CardSteps(ps), RelicSteps(ps));
      ApplyCards(ps);
      ApplyRelics(ps);
      ApplyPotions(ps);
      RecordHpAndGold(ps);
      assert [Vitals(ps)][..0] == [];
    }

    method RecordHpAndGold(ps: PointStats)
      modifies this
      ensures Abs() == Apply(old(Abs()), Vitals(ps))
    {
      if ps.gold.Some? { gold := ps.gold.value; }
      if ps.hp.Some? {
        hp, hpSource := ps.hp, RecordedHp;
      } else {
        warnings := warnings + [NotFound];
        hp, hpSource := None, NoHp;
      }
    }
  }

  // ---- Encounters ------------------------------------------------------------------------------------

  /** A map point: the combat rooms on it, then what was recorded there. */
  datatype Point = Point(combatRooms: seq<string>, stats: PointStats)

  /** The state right before a fight, warnings so far included. */
  datatype Encounter = Encounter(pointIndex: nat, room: string, before: State)

  datatype HpStatus = HpExact | HpInconsistent | HpUnavailable

  datatype RestoreStatus = Exact | AmbiguousUpgrade | UnsupportedId | HistoryInconsistent

  function ClassifyHp(s: State): HpStatus {
    if s.hp.None? then HpUnavailable
    else
      var (current, max) := s.hp.value;
      if current > max || current < 0 || max <= 0 then HpInconsistent
      else if s.source == NoHp then HpUnavailable
      else HpExact
  }

  /** Worst wins; `supported` is the offline id check. */
  function ClassifyRestore(s: State, supported: bool): RestoreStatus {
    if ClassifyHp(s) != HpExact || NotFound in s.warnings then HistoryInconsistent
    else if !supported then UnsupportedId
    else if Ambiguous in s.warnings then AmbiguousUpgrade
    else Exact
  }

  /** A fight can be restored exactly if its HP is known and in range, its ids supported, and nothing is in doubt. */
  lemma ExactIff(s: State, supported: bool)
    ensures ClassifyRestore(s, supported) == Exact <==>
            && s.hp.Some? && 0 <= s.hp.value.0 <= s.hp.value.1 && 0 < s.hp.value.1 && s.source != NoHp
            && supported && NotFound !in s.warnings && Ambiguous !in s.warnings
    ensures ClassifyRestore(s, supported) == HistoryInconsistent <==>
            || NotFound in s.warnings || s.hp.None? || s.source == NoHp
            || s.hp.value.0 > s.hp.value.1 || s.hp.value.0 < 0 || s.hp.value.1 <= 0
    ensures ClassifyRestore(s, supported) == AmbiguousUpgrade ==> Ambiguous in s.warnings && supported
    ensures ClassifyRestore(s, supported) == UnsupportedId ==> !supported
  {
  }

  function StateAt(s: State, points: seq<Point>, n: nat): State
    requires n <= |points|
  {
    if n == 0 then s else ApplyAll(StateAt(s, points, n - 1), StepsOf(points[n - 1].stats))
  }

  function FightsOf(p: Point, index: nat, before: State): seq<Encounter> {
    seq(|p.combatRooms|, i requires 0 <= i < |p.combatRooms| => Encounter(index, p.combatRooms[i], before))
  }

  function EncountersUpto(s: State, points: seq<Point>, n: nat): seq<Encounter>
    requires n <= |points|
  {
    if n == 0 then []
    else EncountersUpto(s, points, n - 1) + FightsOf(points[n - 1], n - 1, StateAt(s, points, n - 1))
  }

  /** There is a fight for every combat room of every point, with the state before that point. */
  lemma {:induction false} EveryRoomIsAFight(s: State, points: seq<Point>, n: nat, p: nat, i: nat)
    requires p < n <= |points| && i < |points[p].combatRooms|
    ensures Encounter(p, points[p].combatRooms[i], StateAt(s, points, p)) in EncountersUpto(s, points, n)
  {
    if p == n - 1 {
      assert FightsOf(points[p], p, StateAt(s, points, p))[i] ==
             Encounter(p, points[p].combatRooms[i], StateAt(s, points, p));
    } else {
      EveryRoomIsAFight(s, points, n - 1, p, i);
    }
  }

  /** And no others: as many fights as combat rooms, point after point. */
  lemma {:induction false} FightsAreRooms(s: State, points: seq<Point>, n: nat)
    requires n <= |points|
    ensures |EncountersUpto(s, points, n)| == Rooms(points, n)
    ensures forall e <- EncountersUpto(s, points, n) :: e.pointIndex < n && e.room in points[e.pointIndex].combatRooms
  {
    if n > 0 { FightsAreRooms(s, points, n - 1); }
  }

  function Rooms(points: seq<Point>, n: nat): nat
    requires n <= |points|
  {
    if n == 0 then 0 else Rooms(points, n - 1) + |points[n - 1].combatRooms|
  }

  /** One record per combat room, all with the same snapshot. */
  method RecordFights(p: Point, index: nat, snapshot: State, earlier: seq<Encounter>) returns (results: seq<Encounter>)
    ensures results == earlier + FightsOf(p, index, snapshot)
  {
    results := earlier;
    for i := 0 to |p.combatRooms|
      invariant results == earlier + FightsOf(p, index, snapshot)[..i]
    {
      results := results + [Encounter(index, p.combatRooms[i], snapshot)];
    }
    assert FightsOf(p, index, snapshot)[..|p.combatRooms|] == FightsOf(p, index, snapshot);
  }

  method ReconstructEncounters(kit: Option<Kit>, ascension: Option<int>, points: seq<Point>)
    returns (results: seq<Encounter>, state: ReplayState)
    ensures fresh(state)
    ensures results == EncountersUpto(Start(kit, ascension), points, |points|)
    ensures state.Abs() == StateAt(Start(kit, ascension), points, |points|)
  {
    state := new ReplayState(kit, ascension);
    results := [];
    for n := 0 to |points|
      invariant fresh(state) && state.Abs() == StateAt(Start(kit, ascension), points, n)
      invariant results == EncountersUpto(Start(kit, ascension), points, n)
    {
      var snapshot := State(state.deck, state.relics, state.potions, state.warnings, state.hp, state.hpSource,
          state.gold);
      results := RecordFights(points[n], n, snapshot, results);
      state.ApplyPointStats(points[n].stats);
    }
  }

  // ---- Conservation ----------------------------------------------------------------------------------

  function Ids(deck: seq<Card>): seq<string> {
    seq(|deck|, i requires 0 <= i < |deck| => deck[i].id)
  }

  function GainedBy(step: Step): multiset<string> {
    if step.Gain? then multiset{step.card.id} else multiset{}
  }

  function RemovedBy(step: Step): multiset<string> {
    if step.Remove? then multiset{step.card.id} else multiset{}
  }

  /** What a log says came in. */
  function GainedIds(steps: seq<Step>): multiset<string> {
    if steps == [] then multiset{} else GainedIds(steps[..|steps| - 1]) + GainedBy(steps[|steps| - 1])
  }

  /** What a log says went out. */
  function RemovedIds(steps: seq<Step>): multiset<string> {
    if steps == [] then multiset{} else RemovedIds(steps[..|steps| - 1]) + RemovedBy(steps[|steps| - 1])
  }

  lemma WithoutMultiset<T>(s: seq<T>, i: nat)
    requires i < |s|
    ensures multiset(s) == multiset(Without(s, i)) + multiset{s[i]}
  {
    assert s == s[..i] + ([s[i]] + s[i + 1..]);
  }

  lemma RemovalConservesIds(s: State, r: CardRef)
    requires NotFound !in RemoveCard(s, r).warnings
    ensures multiset(Ids(RemoveCard(s, r).deck)) + multiset{r.id} == multiset(Ids(s.deck))
  {
    var c := ForRemoval(s.deck, r);
    assert c != [];
    assert c[0] in c;
    assert Ids(Without(s.deck, c[0])) == Without(Ids(s.deck), c[0]);
    WithoutMultiset(Ids(s.deck), c[0]);
  }

  lemma GainConservesIds(s: State, r: CardRef)
    ensures multiset(Ids(AddCard(s, r).deck)) == multiset(Ids(s.deck)) + multiset{r.id}
  {
    assert Ids(AddCard(s, r).deck) == Ids(s.deck) + [r.id];
  }

  lemma FlipKeepsIds(s: State, id: string, to: bool)
    ensures Ids(SetUpgraded(s, id, to).deck) == Ids(s.deck)
  {
  }

  /** One step conserves ids, unless it is a removal that found nothing. */
  lemma StepConservesIds(s: State, step: Step)
    requires NotFound !in Apply(s, step).warnings
    ensures multiset(Ids(Apply(s, step).deck)) + RemovedBy(step) == multiset(Ids(s.deck)) + GainedBy(step)
  {
    match step
    case Gain(r) => GainConservesIds(s, r);
    case Remove(r) => RemovalConservesIds(s, r);
    case Upgrade(id) => FlipKeepsIds(s, id, true);
    case Downgrade(id) => FlipKeepsIds(s, id, false);
    case _ =>
  }

  lemma StepOnlyWarns(s: State, step: Step)
    ensures s.warnings <= Apply(s, step).warnings
    ensures |Apply(s, step).warnings| <= |s.warnings| + 1
  {
  }

  lemma {:induction false} WarningsOnlyGrow(s: State, steps: seq<Step>)
    ensures s.warnings <= ApplyAll(s, steps).warnings
  {
    if steps != [] {
      WarningsOnlyGrow(s, steps[..|steps| - 1]);
      StepOnlyWarns(ApplyAll(s, steps[..|steps| - 1]), steps[|steps| - 1]);
    }
  }

  lemma BalancesAdd(before: multiset<string>, mid: multiset<string>, after: multiset<string>,
                    gained1: multiset<string>, removed1: multiset<string>, gained2: multiset<string>,
                        removed2: multiset<string>)
    requires mid + removed1 == before + gained1 && after + removed2 == mid + gained2
    ensures after + (removed1 + removed2) == before + (gained1 + gained2)
  {
    forall x ensures (after + (removed1 + removed2))[x] == (before + (gained1 + gained2))[x] {
      assert (mid + removed1)[x] == (before + gained1)[x];
      assert (after + removed2)[x] == (mid + gained2)[x];
    }
  }

  /** The log adds up: without a NOTFOUND the deck is what it was, plus the gains, minus the removals. */
  lemma {:induction false} DeckIsConserved(s: State, steps: seq<Step>)
    requires NotFound !in ApplyAll(s, steps).warnings
    ensures multiset(Ids(ApplyAll(s, steps).deck)) + RemovedIds(steps) == multiset(Ids(s.deck)) + GainedIds(steps)
  {
    if steps != [] {
      var init, last := steps[..|steps| - 1], steps[|steps| - 1];
      var mid := ApplyAll(s, init);
      StepOnlyWarns(mid, last);
      assert forall w <- mid.warnings :: w in Apply(mid, last).warnings;
      DeckIsConserved(s, init);
      StepConservesIds(mid, last);
      BalancesAdd(multiset(Ids(s.deck)), multiset(Ids(mid.deck)), multiset(Ids(Apply(mid, last).deck)),
                  GainedIds(init), RemovedIds(init), GainedBy(last), RemovedBy(last));
    }
  }

  /** All steps of the first `n` points. */
  function History(points: seq<Point>, n: nat): seq<Step>
    requires n <= |points|
  {
    if n == 0 then [] else History(points, n - 1) + StepsOf(points[n - 1].stats)
  }

  /** Going on from where the past led is going through both from the start. */
  lemma Continued(s: State, past: seq<Step>, latest: seq<Step>, all: seq<Step>, mid: State, end: State)
    requires all == past + latest && mid == ApplyAll(s, past) && end == ApplyAll(mid, latest)
    ensures end == ApplyAll(s, all)
  {
    ApplyConcat(s, past, latest);
  }

  lemma {:induction false} StateIsHistory(s: State, points: seq<Point>, n: nat)
    requires n <= |points|
    ensures StateAt(s, points, n) == ApplyAll(s, History(points, n))
  {
    if n > 0 {
      StateIsHistory(s, points, n - 1);
      Continued(s, History(points, n - 1), StepsOf(points[n - 1].stats), History(points, n),
                StateAt(s, points, n - 1), StateAt(s, points, n));
    }
  }

  /** Over a whole run up to any point. */
  lemma RunConservesDeck(kit: Option<Kit>, ascension: Option<int>, points: seq<Point>, n: nat)
    requires n <= |points| && NotFound !in StateAt(Start(kit, ascension), points, n).warnings
    ensures multiset(Ids(StateAt(Start(kit, ascension), points, n).deck)) + RemovedIds(History(points, n))
            == multiset(Ids(Start(kit, ascension).deck)) + GainedIds(History(points, n))
  {
    StateIsHistory(Start(kit, ascension), points, n);
    DeckIsConserved(Start(kit, ascension), History(points, n));
  }

  predicate NoDuplicates(xs: seq<string>) {
    forall i, j | 0 <= i < j < |xs| :: xs[i] != xs[j]
  }

  lemma StepKeepsRelicsDistinct(s: State, step: Step)
    requires NoDuplicates(s.relics)
    ensures NoDuplicates(Apply(s, step).relics)
  {
    if step.RelicChoice? {
      forall i | 0 <= i < |s.relics| && step.choice.id !in s.relics ensures s.relics[i] != step.choice.id {
        assert s.relics[i] in s.relics;
      }
    }
  }

  /** A relic is held at most once, whatever the log repeats. */
  lemma {:induction false} RelicsStayDistinct(s: State, steps: seq<Step>)
    requires NoDuplicates(s.relics)
    ensures NoDuplicates(ApplyAll(s, steps).relics)
  {
    if steps != [] {
      RelicsStayDistinct(s, steps[..|steps| - 1]);
      StepKeepsRelicsDistinct(ApplyAll(s, steps[..|steps| - 1]), steps[|steps| - 1]);
    }
  }

  // ---- Honesty of the classification -----------------------------------------------------------------

  lemma {:induction false} DoubtStays(s: State, points: seq<Point>, m: nat, n: nat)
    requires m <= n <= |points|
    ensures StateAt(s, points, m).warnings <= StateAt(s, points, n).warnings
    decreases n - m
  {
    if m < n {
      DoubtStays(s, points, m, n - 1);
      WarningsOnlyGrow(StateAt(s, points, n - 1), StepsOf(points[n - 1].stats));
    }
  }

  /** Once a point has left a NOTFOUND or AMBIGUOUS warning, no later fight is classified exact. */
  lemma NoExactAfterDoubt(s: State, points: seq<Point>, m: nat, n: nat, supported: bool)
    requires m <= n <= |points|
    requires NotFound in StateAt(s, points, m).warnings || Ambiguous in StateAt(s, points, m).warnings
    ensures ClassifyRestore(StateAt(s, points, n), supported) != Exact
  {
    DoubtStays(s, points, m, n);
    var early, late := StateAt(s, points, m).warnings, StateAt(s, points, n).warnings;
    assert forall w <- early :: w in late;
  }

  /** Every reconstructed fight carries the state right before its history point. */
  lemma {:induction false} EncountersCarryTheirState(s: State, points: seq<Point>, n: nat, e: Encounter)
    requires n <= |points| && e in EncountersUpto(s, points, n)
    ensures e.pointIndex < n && e.before == StateAt(s, points, e.pointIndex)
  {
    if e in EncountersUpto(s, points, n - 1) {
      EncountersCarryTheirState(s, points, n - 1, e);
    } else {
      assert e in FightsOf(points[n - 1], n - 1, StateAt(s, points, n - 1));
    }
  }

  /** None of the reconstructed fights after a NOTFOUND or AMBIGUOUS is classified exact. */
  lemma NoExactFightAfterDoubt(kit: Option<Kit>, ascension: Option<int>, points: seq<Point>, m: nat, e: Encounter,
                               supported: bool)
    requires e in EncountersUpto(Start(kit, ascension), points, |points|) && m <= e.pointIndex
    requires m <= |points|
    requires var w := StateAt(Start(kit, ascension), points, m).warnings; NotFound in w || Ambiguous in w
    ensures ClassifyRestore(e.before, supported) != Exact
  {
    EncountersCarryTheirState(Start(kit, ascension), points, |points|, e);
    NoExactAfterDoubt(Start(kit, ascension), points, m, e.pointIndex, supported);
  }

  function Pairs(deck: seq<Card>): multiset<(string, bool)> {
    multiset(seq(|deck|, i requires 0 <= i < |deck| => (deck[i].id, deck[i].upgraded)))
  }

  lemma PairsWithout(deck: seq<Card>, i: nat)
    requires i < |deck|
    ensures Pairs(Without(deck, i)) == Pairs(deck) - multiset{(deck[i].id, deck[i].upgraded)}
    ensures (deck[i].id, deck[i].upgraded) in Pairs(deck)
  {
    var pairs := seq(|deck|, k requires 0 <= k < |deck| => (deck[k].id, deck[k].upgraded));
    var rest := Without(deck, i);
    assert seq(|rest|, k requires 0 <= k < |rest| => (rest[k].id, rest[k].upgraded)) == Without(pairs, i);
    WithoutMultiset(pairs, i);
  }

  /**
   A removal is flagged ambiguous exactly when the choice matters: when two of its candidates would
   leave different numbers of upgraded and plain copies behind.
   */
  lemma FlaggedIffTheChoiceMatters(s: State, r: CardRef)
    ensures var c := ForRemoval(s.deck, r);
            RemoveCard(s, r).warnings == s.warnings + [Ambiguous] <==>
            exists i, j | i in c && j in c :: Pairs(Without(s.deck, i)) != Pairs(Without(s.deck, j))
  {
    var c := ForRemoval(s.deck, r);
    FlaggedIffMixed(s, r);
    forall i, j | i in c && j in c
      ensures s.deck[i].upgraded != s.deck[j].upgraded <==> Pairs(Without(s.deck, i)) != Pairs(Without(s.deck, j))
    {
      ChoiceMattersIff(s.deck, i, j);
    }
  }

  lemma ChoiceMattersIff(deck: seq<Card>, i: nat, j: nat)
    requires i < |deck| && j < |deck| && deck[i].id == deck[j].id
    ensures deck[i].upgraded != deck[j].upgraded <==> Pairs(Without(deck, i)) != Pairs(Without(deck, j))
  {
    PairsWithout(deck, i);
    PairsWithout(deck, j);
    RemovalsDiffer(Pairs(deck), (deck[i].id, deck[i].upgraded), (deck[j].id, deck[j].upgraded));
  }

  lemma FlaggedIffMixed(s: State, r: CardRef)
    ensures RemoveCard(s, r).warnings == s.warnings + [Ambiguous] <==> Mixed(s.deck, ForRemoval(s.deck, r))
  {
    assert (s.warnings + [NotFound])[|s.warnings|] != (s.warnings + [Ambiguous])[|s.warnings|];
    assert |s.warnings| != |s.warnings + [Ambiguous]|;
  }

  lemma RemovalsDiffer<T>(m: multiset<T>, x: T, y: T)
    requires x in m && y in m
    ensures m - multiset{x} == m - multiset{y} <==> x == y
  {
    if x != y {
      assert (m - multiset{x})[x] != (m - multiset{y})[x];
    }
  }

  /** A card without a reconstructable Tinker Time state is warned about and still counts as exact. */
  lemma LostTinkerStateStaysExact(s: State, r: CardRef)
    requires ClassifyRestore(s, true) == Exact && r.id == MAD_SCIENCE && r.tinker.None?
    ensures var t := Apply(s, Gain(r)); MadScience in t.warnings && ClassifyRestore(t, true) == Exact
  {
    var t := Apply(s, Gain(r));
    assert t.warnings == s.warnings + [MadScience];
  }
}
