/**
 Identity of legal actions across rebuilds (Run/legal_action_identity.py, the encoding in
 API/instance_whole_run_beam.py and its decoding in Run/worker_pool.py).

 An `action_id` means something at one concrete decision only.  A replay names an action by its
 visible semantics plus the number of look-alikes before it.
 */
module LegalActions {
  import opened Wrappers

  /**
   A parameter's value.  Keys are compared as printed text, in which values of different kinds differ; a
   value of any further kind is given by what it prints as.
   */
  datatype Value = Null | Flag(b: bool) | Number(n: int) | Text(s: string) | Other(printed: string)

  datatype Action = Action(
    id: int, actionType: string, caption: string, available: bool, parameters: map<string, Value>)

  /** The identity-bearing parameters, in the order `sorted` puts their names. */
  const KEY_PARAMETER_NAMES: seq<string> :=
    ["cardId", "choiceId", "cost", "enemyIndex", "eventId", "optionId", "potionId", "potionSlot", "replacedPotionId"]

  datatype SemanticKey = SemanticKey(actionType: string, caption: string, parameters: seq<(string, Value)>)

  /** The name/value pairs of the named parameters that are present. */
  function Present(parameters: map<string, Value>, names: seq<string>): seq<(string, Value)> {
    if names == [] then []
    else (if names[0] in parameters then [(names[0], parameters[names[0]])] else []) + Present(parameters, names[1..])
  }

  function KeyOf(a: Action): SemanticKey {
    SemanticKey(a.actionType, a.caption, Present(a.parameters, KEY_PARAMETER_NAMES))
  }

  predicate Agree(p: map<string, Value>, q: map<string, Value>, name: string) {
    (name in p <==> name in q) && (name in p && name in q ==> p[name] == q[name])
  }

  lemma {:induction false} PresentNames(p: map<string, Value>, names: seq<string>)
    ensures forall pair <- Present(p, names) :: pair.0 in names && pair.0 in p && p[pair.0] == pair.1
    ensures forall name <- names :: name in p ==> (name, p[name]) in Present(p, names)
  {
    if names != [] {
      PresentNames(p, names[1..]);
    }
  }

  lemma {:induction false} PresentAgrees(p: map<string, Value>, q: map<string, Value>, names: seq<string>)
    requires forall name <- names :: Agree(p, q, name)
    ensures Present(p, names) == Present(q, names)
  {
    if names != [] {
      assert Agree(p, q, names[0]);
      PresentAgrees(p, q, names[1..]);
    }
  }

  /** Two actions share a key exactly when they look alike: type, label and the nine parameters. */
  lemma SameKeyIffAlike(a: Action, b: Action)
    ensures KeyOf(a) == KeyOf(b) <==>
            && a.actionType == b.actionType && a.caption == b.caption
            && forall name <- KEY_PARAMETER_NAMES :: Agree(a.parameters, b.parameters, name)
  {
    if KeyOf(a) == KeyOf(b) {
      PresentNames(a.parameters, KEY_PARAMETER_NAMES);
      PresentNames(b.parameters, KEY_PARAMETER_NAMES);
      forall name | name in KEY_PARAMETER_NAMES
        ensures Agree(a.parameters, b.parameters, name)
      {
        if name in a.parameters {
          assert (name, a.parameters[name]) in Present(b.parameters, KEY_PARAMETER_NAMES);
        }
        if name in b.parameters {
          assert (name, b.parameters[name]) in Present(a.parameters, KEY_PARAMETER_NAMES);
        }
      }
    }
    if && a.actionType == b.actionType && a.caption == b.caption
       && forall name <- KEY_PARAMETER_NAMES :: Agree(a.parameters, b.parameters, name)
    {
      PresentAgrees(a.parameters, b.parameters, KEY_PARAMETER_NAMES);
    }
  }

  /** The nine, by name: no other parameter tells two actions apart. */
  lemma NineNamesTellApart(a: Action, b: Action)
    ensures KeyOf(a) == KeyOf(b) <==>
            && a.actionType == b.actionType && a.caption == b.caption
            && forall name <- {"cardId", "potionId", "potionSlot", "replacedPotionId", "eventId", "choiceId",
                               "enemyIndex", "cost", "optionId"} :: Agree(a.parameters, b.parameters, name)
  {
    SameKeyIffAlike(a, b);
  }

  // ---- Encoding and decoding ----------------------------------------------------------------------

  function Keys(actions: seq<Action>): seq<SemanticKey> {
    seq(|actions|, i requires 0 <= i < |actions| => KeyOf(actions[i]))
  }

  /** How many keys equal `key`. */
  function Occurrences(keys: seq<SemanticKey>, key: SemanticKey): nat {
    if keys == [] then 0
    else Occurrences(keys[..|keys| - 1], key) + if keys[|keys| - 1] == key then 1 else 0
  }

  /** `_semantic_key_and_ordinal`; `None` when the chosen id is not among the actions. */
  method SemanticKeyAndOrdinal(actions: seq<Action>, chosenId: int) returns (r: Option<(SemanticKey, nat)>)
    ensures r.None? <==> forall a <- actions :: a.id != chosenId
    ensures forall i | 0 <= i < |actions| && actions[i].id == chosenId
              && (forall j | 0 <= j < i :: actions[j].id != chosenId) ::
              r == Some((KeyOf(actions[i]), Occurrences(Keys(actions)[..i], KeyOf(actions[i]))))
  {
    var index := 0;
    while index < |actions| && actions[index].id != chosenId
      invariant index <= |actions|
      invariant forall j | 0 <= j < index :: actions[j].id != chosenId
    {
      index := index + 1;
    }
    if index == |actions| { return None; }
    var key := KeyOf(actions[index]);
    var ordinal := 0;
    for n := 0 to index
      invariant ordinal == Occurrences(Keys(actions)[..n], key)
    {
      assert Keys(actions)[..n + 1][..n] == Keys(actions)[..n];
      if KeyOf(actions[n]) == key {
        ordinal := ordinal + 1;
      }
    }
    r := Some((key, ordinal));
  }

  /** The ids of the actions carrying `key`, in published order. */
  function Matches(actions: seq<Action>, key: SemanticKey): seq<int> {
    if actions == [] then []
    else
      var last := actions[|actions| - 1];
      Matches(actions[..|actions| - 1], key) + if KeyOf(last) == key then [last.id] else []
  }

  /** The worker's side: the `ordinal`-th match, or a fault. */
  function Decode(actions: seq<Action>, key: SemanticKey, ordinal: nat): Option<int> {
    var matches := Matches(actions, key);
    if ordinal < |matches| then Some(matches[ordinal]) else None
  }

  lemma {:induction false} MatchesAt(actions: seq<Action>, key: SemanticKey, i: nat)
    requires i < |actions| && KeyOf(actions[i]) == key
    ensures |Matches(actions, key)| == Occurrences(Keys(actions), key)
    ensures Occurrences(Keys(actions)[..i], key) < |Matches(actions, key)|
    ensures Matches(actions, key)[Occurrences(Keys(actions)[..i], key)] == actions[i].id
  {
    var n := |actions| - 1;
    var init := actions[..n];
    assert Keys(actions)[..n] == Keys(init);
    MatchCount(init, key);
    if i < n {
      MatchesAt(init, key, i);
      assert Keys(init)[..i] == Keys(actions)[..i];
    }
  }

  lemma {:induction false} MatchCount(actions: seq<Action>, key: SemanticKey)
    ensures |Matches(actions, key)| == Occurrences(Keys(actions), key)
  {
    if actions != [] {
      assert Keys(actions)[..|actions| - 1] == Keys(actions[..|actions| - 1]);
      MatchCount(actions[..|actions| - 1], key);
    }
  }

  /**
   Round trip: what the parent encodes for position `i`, any state that publishes the same key
   sequence decodes to its own action at position `i`, whatever its opaque ids are.
   */
  lemma EncodedPositionIsDecoded(parent: seq<Action>, rebuilt: seq<Action>, i: nat)
    requires i < |parent| && Keys(parent) == Keys(rebuilt)
    ensures i < |rebuilt|
    ensures Decode(rebuilt, KeyOf(parent[i]), Occurrences(Keys(parent)[..i], KeyOf(parent[i]))) == Some(rebuilt[i].id)
  {
    assert |rebuilt| == |Keys(parent)|;
    assert KeyOf(rebuilt[i]) == Keys(rebuilt)[i] == Keys(parent)[i];
    MatchesAt(rebuilt, KeyOf(parent[i]), i);
  }

  /** Conversely the pair names one position only: different positions are encoded differently. */
  lemma EncodingIsInjective(actions: seq<Action>, i: nat, j: nat)
    requires i < j < |actions|
    ensures KeyOf(actions[i]) != KeyOf(actions[j])
         || Occurrences(Keys(actions)[..i], KeyOf(actions[i])) < Occurrences(Keys(actions)[..j], KeyOf(actions[j]))
  {
    OccurrencesGrow(Keys(actions), i, j, KeyOf(actions[i]));
  }

  lemma {:induction false} OccurrencesGrow(keys: seq<SemanticKey>, i: nat, j: nat, key: SemanticKey)
    requires i < j <= |keys| && keys[i] == key
    ensures Occurrences(keys[..i], key) < Occurrences(keys[..j], key)
  {
    assert keys[..j][..j - 1] == keys[..j - 1];
    if i < j - 1 {
      OccurrencesGrow(keys, i, j - 1, key);
    }
  }
}
