/** Deciding whether a player can win (胡) with a tile under the Tencent common rule. */
module HuRules {
  import opened Results
  import opened Cards
  import opened Players
  import opened Rule
  import opened TileOrder
  import opened MeldShapes
  import ScoreRules

  /**
   * `_sort_hand`: `sorted` with the key (suit order, rank order). A tile missing from either
   * table, such as a flower, makes the key lookup raise `KeyError`.
   */
  function SortHand(hand: seq<Card>): (r: Result<seq<Card>, Raised>)
    ensures r.Failure? <==> exists c :: c in hand && SortKey(c).None?
    ensures r.Failure? ==> r.error == KeyError
    ensures r.Success? ==> Sorted(r.value) && multiset(r.value) == multiset(hand)
  {
    if exists c :: c in hand && SortKey(c).None? then Failure(KeyError) else Success(SortTiles(hand))
  }

  /** The hand sorts exactly when every tile is a numeral 1..9, a wind 1..4 or a dragon 1..3 (for honours beyond that the rank text is a number, also in the table). */
  lemma SortHandKeyed(hand: seq<Card>)
    ensures SortHand(hand).Success? <==> forall c :: c in hand ==> Keyed(c)
  {
    forall c | c in hand
      ensures SortKey(c).None? <==> !Keyed(c)
    {
      SortKeyOf(c);
    }
  }

  /** The run branch of `_check_melds` applies: the first tile is a numeral and ranks +1 and +2 of its suit follow. */
  predicate HasRun(h: seq<Card>)
    requires h != []
  {
    IsNumeral(h[0].suit) && Card(h[0].suit, h[0].rank + 1) in h[1..] && Card(h[0].suit, h[0].rank + 2) in h[1..]
  }

  /** The rest after the run branch deletes the first tile and the first matches of ranks +1 and +2. */
  function RunRest(h: seq<Card>): (r: seq<Card>)
    requires h != []
    ensures |r| < |h|
  {
    RemoveFirst(RemoveFirst(h[1..], Card(h[0].suit, h[0].rank + 1)), Card(h[0].suit, h[0].rank + 2))
  }

  /** The decision `_check_melds` computes: the first tile is taken as a triplet, or else as the start of a run, backtracking. */
  predicate Melds(h: seq<Card>)
    decreases |h|
  {
    if h == [] then true
    else
      (|h| >= 3 && h[0] == h[1] && h[1] == h[2] && Melds(h[3..]))
      || (HasRun(h) && Melds(RunRest(h)))
  }

  /** The deletion loop of the run branch: deletes the first tile equal to `x`, if any. */
  method DeleteFirst(s: seq<Card>, x: Card) returns (t: seq<Card>)
    ensures t == RemoveFirst(s, x)
  {
    var i := 0;
    while i < |s|
      invariant i <= |s| && x !in s[..i]
    {
      if s[i] == x {
        RemoveFirstAt(s, x, i);
        return s[..i] + s[i + 1..];
      }
      assert s[..i + 1] == s[..i] + [s[i]];
      i := i + 1;
    }
    assert s[..i] == s;
    t := s;
  }

  /** `_check_melds`: copies the list, deletes the tiles of a triplet or run and recurses. */
  method CheckMelds(hand: seq<Card>) returns (ok: bool)
    ensures ok == Melds(hand)
    decreases |hand|
  {
    if hand == [] {
      return true;
    }
    if |hand| >= 3 && hand[0] == hand[1] && hand[1] == hand[2] {
      var temp := hand[3..];
      ok := CheckMelds(temp);
      if ok {
        return;
      }
    }
    if IsNumeral(hand[0].suit) {
      var next1 := Card(hand[0].suit, hand[0].rank + 1);
      var next2 := Card(hand[0].suit, hand[0].rank + 2);
      if next1 in hand[1..] && next2 in hand[1..] {
        var temp := hand[1..];
        temp := DeleteFirst(temp, next1);
        temp := DeleteFirst(temp, next2);
        ok := CheckMelds(temp);
        if ok {
          return;
        }
      }
    }
    return false;
  }

  lemma RemoveTwo(t: seq<Card>, a: Card, b: Card)
    requires a in t && b in t && a != b
    ensures multiset(RemoveFirst(RemoveFirst(t, a), b)) == multiset(t) - multiset{a, b}
  {
    var t1 := RemoveFirst(t, a);
    assert multiset(t1) == multiset(t) - multiset{a};
    assert b in multiset(t1);
    MinusTwice(multiset(t), a, b);
  }

  /** Deleting the first `a + 1` and the first `a + 2` from `t`, which holds both, after `a`. */
  lemma RunTakes(a: Card, t: seq<Card>)
    requires IsNumeral(a.suit) && Card(a.suit, a.rank + 1) in t && Card(a.suit, a.rank + 2) in t
    ensures Tiles(Run(a.suit, a.rank)) <= multiset([a] + t)
    ensures multiset(RemoveFirst(RemoveFirst(t, Card(a.suit, a.rank + 1)), Card(a.suit, a.rank + 2)))
      == multiset([a] + t) - Tiles(Run(a.suit, a.rank))
  {
    var c1, c2 := Card(a.suit, a.rank + 1), Card(a.suit, a.rank + 2);
    RemoveTwo(t, c1, c2);
    TakeThree(a, multiset(t), multiset([a] + t), multiset(RemoveFirst(RemoveFirst(t, c1), c2)));
  }

  /** The run branch takes out exactly the three tiles of the run, which the list holds. */
  lemma RunRestTiles(h: seq<Card>)
    requires h != [] && HasRun(h)
    ensures Tiles(Run(h[0].suit, h[0].rank)) <= multiset(h)
    ensures multiset(RunRest(h)) == multiset(h) - Tiles(Run(h[0].suit, h[0].rank))
  {
    RunRestIs(h);
    RunTakes(h[0], h[1..]);
    ConsRest(h);
  }

  lemma RunRestIs(h: seq<Card>)
    requires h != []
    ensures RunRest(h) == RemoveFirst(RemoveFirst(h[1..], Card(h[0].suit, h[0].rank + 1)), Card(h[0].suit, h[0].rank + 2))
  {
  }

  lemma ConsRest(h: seq<Card>)
    requires h != []
    ensures [h[0]] + h[1..] == h
  {
  }

  lemma FirstAndRest(h: seq<Card>)
    requires h != []
    ensures multiset(h) == multiset{h[0]} + multiset(h[1..])
  {
    assert h == [h[0]] + h[1..];
  }

  lemma FirstThree(h: seq<Card>)
    requires |h| >= 3 && h[1] == h[0] && h[2] == h[0]
    ensures multiset(h) == Tiles(Triplet(h[0])) + multiset(h[3..])
  {
    assert h == [h[0], h[0], h[0]] + h[3..];
  }

  lemma TripletSound(h: seq<Card>, gs: seq<Group>)
    requires |h| >= 3 && h[1] == h[0] && h[2] == h[0] && IsPartition(gs, multiset(h[3..]))
    ensures IsPartition([Triplet(h[0])] + gs, multiset(h))
  {
    PartitionCons(Triplet(h[0]), gs, multiset(h[3..]));
    FirstThree(h);
  }

  lemma RunSound(h: seq<Card>, gs: seq<Group>)
    requires h != [] && HasRun(h) && IsPartition(gs, multiset(RunRest(h)))
    ensures IsPartition([Run(h[0].suit, h[0].rank)] + gs, multiset(h))
  {
    var g := Run(h[0].suit, h[0].rank);
    PartitionCons(g, gs, multiset(RunRest(h)));
    RunRestTiles(h);
    AddBack(multiset(h), Tiles(g));
  }

  /** Soundness: whatever `_check_melds` accepts can be laid out as triplets and runs. */
  lemma MeldsSound(h: seq<Card>)
    requires Melds(h)
    ensures Decomposable(multiset(h))
  {
    var gs := MeldsLayout(h);
  }

  /** The layout `_check_melds` finds: one group per branch taken. */
  lemma {:induction false} MeldsLayout(h: seq<Card>) returns (gs: seq<Group>)
    requires Melds(h)
    ensures IsPartition(gs, multiset(h))
    decreases |h|
  {
    if h == [] {
      gs := [];
    } else if |h| >= 3 && h[0] == h[1] && h[1] == h[2] && Melds(h[3..]) {
      var rest := MeldsLayout(h[3..]);
      TripletSound(h, rest);
      gs := [Triplet(h[0])] + rest;
    } else {
      var rest := MeldsLayout(RunRest(h));
      RunSound(h, rest);
      gs := [Run(h[0].suit, h[0].rank)] + rest;
    }
  }

  /** A sorted list with three copies of its first tile passes the triplet test. */
  lemma TripletFirst(h: seq<Card>, gs: seq<Group>, k: nat)
    requires Sorted(h) && h != [] && IsPartition(gs, multiset(h))
    requires k < |gs| && gs[k] == Triplet(h[0])
    ensures |h| >= 3 && h[0] == h[1] && h[1] == h[2]
    ensures Sorted(h[3..]) && IsPartition(gs[..k] + gs[k + 1..], multiset(h[3..]))
  {
    PartitionWithout(gs, multiset(h), k);
    assert multiset(h)[h[0]] >= 3;
    TripleAtFront(h);
    SortedCut(h, 0, 3);
    assert h[..0] + h[3..] == h[3..];
    FirstThree(h);
    AddSub(Tiles(Triplet(h[0])), multiset(h[3..]));
  }

  /** In a sorted list, a run holding the first tile starts with it. */
  lemma RunStartsFirst(h: seq<Card>, s: Suit, st: nat)
    requires Sorted(h) && h != [] && h[0] in Tiles(Run(s, st)) && Tiles(Run(s, st)) <= multiset(h)
    ensures h[0] == Card(s, st)
  {
    var low := Card(s, st);
    assert low in multiset(h);
    SortedFirst(h, low);
  }

  /** When the tiles of the run from the first tile are present, the run branch applies. */
  lemma RunPresent(h: seq<Card>)
    requires h != [] && IsNumeral(h[0].suit) && Tiles(Run(h[0].suit, h[0].rank)) <= multiset(h)
    ensures HasRun(h)
  {
    var c1, c2 := Card(h[0].suit, h[0].rank + 1), Card(h[0].suit, h[0].rank + 2);
    TilesOfRun(h[0]);
    FirstAndRest(h);
    assert c1 in multiset(h) && c2 in multiset(h);
    assert c1 in multiset(h[1..]) && c2 in multiset(h[1..]);
  }

  lemma RunRestSorted(h: seq<Card>)
    requires Sorted(h) && h != [] && HasRun(h)
    ensures Sorted(RunRest(h))
  {
    var c1, c2 := Card(h[0].suit, h[0].rank + 1), Card(h[0].suit, h[0].rank + 2);
    SortedTail(h);
    RemoveFirstSorted(h[1..], c1);
    RemoveFirstSorted(RemoveFirst(h[1..], c1), c2);
  }

  /** In a sorted list, a run holding the first tile starts at it, so the run branch applies. */
  lemma RunFirst(h: seq<Card>, gs: seq<Group>, k: nat)
    requires Sorted(h) && h != [] && IsPartition(gs, multiset(h))
    requires k < |gs| && gs[k].Run? && h[0] in Tiles(gs[k])
    ensures gs[k] == Run(h[0].suit, h[0].rank) && HasRun(h)
    ensures Sorted(RunRest(h)) && IsPartition(gs[..k] + gs[k + 1..], multiset(RunRest(h)))
  {
    PartitionWithout(gs, multiset(h), k);
    RunStartsFirst(h, gs[k].suit, gs[k].start);
    RunPresent(h);
    RunRestTiles(h);
    RunRestSorted(h);
  }

  /** Completeness: on a sorted list, every layout as triplets and runs is found by `_check_melds`. */
  lemma {:induction false} MeldsComplete(h: seq<Card>, gs: seq<Group>)
    requires Sorted(h) && IsPartition(gs, multiset(h))
    ensures Melds(h)
    decreases |h|
  {
    if h != [] {
      assert h[0] in multiset(h);
      var k := GroupOf(gs, h[0]);
      var rest := gs[..k] + gs[k + 1..];
      if gs[k].Triplet? {
        TripletFirst(h, gs, k);
        MeldsComplete(h[3..], rest);
      } else {
        RunFirst(h, gs, k);
        MeldsComplete(RunRest(h), rest);
      }
    }
  }

  /** On a sorted list, `_check_melds` holds exactly when the tiles lay out as triplets and runs. */
  lemma MeldsIffDecomposable(h: seq<Card>)
    requires Sorted(h)
    ensures Melds(h) <==> Decomposable(multiset(h))
  {
    if Melds(h) {
      MeldsSound(h);
    }
    if Decomposable(multiset(h)) {
      var gs :| IsPartition(gs, multiset(h));
      MeldsComplete(h, gs);
    }
  }

  /** `_check_melds([])` holds, and whatever it accepts has a length divisible by 3. */
  lemma MeldsLength(h: seq<Card>)
    ensures Melds([])
    ensures Melds(h) ==> |h| % 3 == 0
  {
    if Melds(h) {
      MeldsSound(h);
      DecomposableSize(multiset(h));
    }
  }

  /** Winds and dragons leave `_check_melds` only as triplets. */
  lemma HonourOnlyTriplet(h: seq<Card>)
    requires h != [] && IsHonour(h[0].suit) && Melds(h)
    ensures |h| >= 3 && h[1] == h[0] && h[2] == h[0] && Melds(h[3..])
  {
    assert !HasRun(h);
  }

  /** The pair loop of `_check_basic_hu_condition`: some adjacent equal pair leaves a rest that melds. */
  predicate HasWinningPair(s: seq<Card>)
  {
    exists i :: 0 <= i < |s| - 1 && s[i] == s[i + 1] && Melds(s[..i] + s[i + 2..])
  }

  /** `_check_basic_hu_condition` as a value: the shape check on the hand with `card` appended, or the sort's error. */
  function BasicHu(hand: seq<Card>, card: Card): Result<bool, Raised>
  {
    match SortHand(hand + [card])
    case Failure(e) => Failure(e)
    case Success(s) => Success(HasWinningPair(s))
  }

  /**
   * `_check_basic_hu_condition`: sorts a copy of the hand with the tile appended, then tries each
   * adjacent equal pair as the eyes. The player's own hand is a value and stays as it was.
   */
  method CheckBasicHuCondition(p: Player, card: Card) returns (r: Result<bool, Raised>)
    ensures r == BasicHu(p.hand, card)
  {
    var temp := p.hand + [card];
    var sorted :- SortHand(temp);
    for i := 0 to |sorted| - 1
      invariant forall j :: 0 <= j < i && sorted[j] == sorted[j + 1] ==> !Melds(sorted[..j] + sorted[j + 2..])
    {
      if sorted[i] == sorted[i + 1] {
        var rest := sorted[..i] + sorted[i + 2..];
        var ok := CheckMelds(rest);
        if ok {
          return Success(true);
        }
      }
    }
    return Success(false);
  }

  /** On a sorted list, the pair loop succeeds exactly for a winning shape: one pair plus melds. */
  lemma WinningPairIffShape(s: seq<Card>)
    requires Sorted(s)
    ensures HasWinningPair(s) <==> WinningShape(multiset(s))
  {
    if HasWinningPair(s) {
      PairShape(s);
    }
    if WinningShape(multiset(s)) {
      ShapePair(s);
    }
  }

  /** A pair the loop accepts is the eyes of a winning shape. */
  lemma PairShape(s: seq<Card>)
    requires HasWinningPair(s)
    ensures WinningShape(multiset(s))
  {
    var i :| 0 <= i < |s| - 1 && s[i] == s[i + 1] && Melds(s[..i] + s[i + 2..]);
    CutPair(s, i);
    var gs := MeldsLayout(s[..i] + s[i + 2..]);
    assert multiset(s)[s[i]] >= 2 && Decomposable(multiset(s) - multiset{s[i], s[i]});
  }

  /** The eyes of a winning shape sit side by side in a sorted list, and the loop finds them. */
  lemma ShapePair(s: seq<Card>)
    requires Sorted(s) && WinningShape(multiset(s))
    ensures HasWinningPair(s)
  {
    var c :| multiset(s)[c] >= 2 && Decomposable(multiset(s) - multiset{c, c});
    var i := PairAtFirst(s, c);
    SortedCut(s, i, i + 2);
    MeldsIffDecomposable(s[..i] + s[i + 2..]);
  }

  /**
   * The basic condition fails with `KeyError` exactly when some tile has no sort key; otherwise
   * it holds exactly when hand plus tile is a winning shape.
   */
  lemma BasicHuMeaning(hand: seq<Card>, card: Card)
    ensures BasicHu(hand, card).Failure? <==> exists c :: c in hand + [card] && !Keyed(c)
    ensures BasicHu(hand, card).Failure? ==> BasicHu(hand, card).error == KeyError
    ensures BasicHu(hand, card).Success? ==> (BasicHu(hand, card).value <==> WinningShape(multiset(hand + [card])))
  {
    SortHandKeyed(hand + [card]);
    var r := SortHand(hand + [card]);
    if r.Success? {
      WinningPairIffShape(r.value);
    }
  }

  /** A winning hand plus its tile has 3k + 2 tiles, so the hand itself has 3k + 1. */
  lemma BasicHuSize(hand: seq<Card>, card: Card)
    requires BasicHu(hand, card) == Success(true)
    ensures (|hand| + 1) % 3 == 2
  {
    BasicHuMeaning(hand, card);
    WinningShapeSize(multiset(hand + [card]));
  }

  /** `_is_qiang_gang_hu` (robbing a kong): not supported, always false. */
  predicate RobbedKong(p: Player, card: Card)
  {
    false
  }

  /** `_is_gang_shang_pao` (winning on a discard after a kong): not supported, always false. */
  predicate KongDiscard(p: Player, card: Card)
  {
    false
  }

  /** `_is_gang_shang_kai_hua` (winning on a kong's replacement draw): not supported, always false. */
  predicate KongReplacement(p: Player, card: Card)
  {
    false
  }

  /** `_has_any_fan_type`: the fan count of the score rules is positive. */
  predicate HasAnyFanType(rule: RuleConfig, p: Player, card: Card)
  {
    ScoreRules.Fans(rule, p, card) > 0
  }

  /** `_check_has_at_least_one_fan`. */
  predicate HasAtLeastOneFan(rule: RuleConfig, p: Player, card: Card)
  {
    RobbedKong(p, card) || KongDiscard(p, card) || KongReplacement(p, card) || HasAnyFanType(rule, p, card)
  }

  /** The three kong checks never fire, and since all-pairs always scores two fans the gate passes exactly when `max_fans` is positive. */
  lemma FanGate(rule: RuleConfig, p: Player, card: Card)
    ensures !RobbedKong(p, card) && !KongDiscard(p, card) && !KongReplacement(p, card)
    ensures HasAtLeastOneFan(rule, p, card) <==> ScoreRules.Fans(rule, p, card) > 0
    ensures HasAtLeastOneFan(rule, p, card) <==> rule.maxFans > 0
  {
    ScoreRules.FansLowerBound(rule, p, card);
  }

  /** `can_hu` as a value: the basic shape check and then the fan gate. */
  function CanHuSpec(rule: RuleConfig, p: Player, card: Card): Result<bool, Raised>
  {
    match BasicHu(p.hand, card)
    case Failure(e) => Failure(e)
    case Success(b) => Success(b && HasAtLeastOneFan(rule, p, card))
  }

  /** `can_hu`: false when the basic condition fails, false when no fan applies, true otherwise. */
  method CanHu(rule: RuleConfig, p: Player, card: Card) returns (r: Result<bool, Raised>)
    ensures r == CanHuSpec(rule, p, card)
  {
    var basic :- CheckBasicHuCondition(p, card);
    if !basic {
      return Success(false);
    }
    if !HasAtLeastOneFan(rule, p, card) {
      return Success(false);
    }
    return Success(true);
  }

  /**
   * `can_hu` raises `KeyError` exactly when a tile has no sort key, and otherwise holds exactly
   * when hand plus tile is a winning shape and `max_fans` is positive; under the Tencent rule
   * it is the shape check alone.
   */
  lemma CanHuMeaning(rule: RuleConfig, p: Player, card: Card)
    ensures CanHuSpec(rule, p, card).Failure? <==> exists c :: c in p.hand + [card] && !Keyed(c)
    ensures CanHuSpec(rule, p, card).Success? ==>
      (CanHuSpec(rule, p, card).value <==> WinningShape(multiset(p.hand + [card])) && rule.maxFans > 0)
    ensures rule.maxFans > 0 ==> CanHuSpec(rule, p, card) == BasicHu(p.hand, card)
  {
    BasicHuMeaning(p.hand, card);
    FanGate(rule, p, card);
  }
}
