/** Fan (番) counting and the score of a win under the Tencent common rule. */
module ScoreRules {
  import opened Results
  import opened Cards
  import opened Players
  import opened Rule

  /** `_is_all_pairs` (大对子): a placeholder that accepts every player. */
  function IsAllPairs(p: Player): (r: bool)
    ensures r
  {
    true
  }

  /** Seven pairs (七对子): exactly fourteen tiles, every kind an even number of times. */
  predicate SevenPairs(hand: seq<Card>)
  {
    |hand| == 14 && forall c :: c in hand ==> multiset(hand)[c] % 2 == 0
  }

  /**
   * `_is_seven_pairs`: toggles each tile in and out of a set and checks that the set ends empty.
   * Set membership goes through `Card.__hash__` and `Card.__eq__`, which is tile identity.
   */
  method IsSevenPairs(p: Player) returns (ok: bool)
    ensures ok == SevenPairs(p.hand)
  {
    var hand := p.hand;
    if |hand| != 14 {
      return false;
    }
    var pairs: set<Card> := {};
    for i := 0 to |hand|
      invariant forall c :: c in pairs <==> multiset(hand[..i])[c] % 2 == 1
    {
      var card := hand[i];
      assert hand[..i + 1] == hand[..i] + [card];
      if card in pairs {
        pairs := pairs - {card};
      } else {
        pairs := pairs + {card};
      }
    }
    assert hand[..|hand|] == hand;
    ok := |pairs| == 0;
    if !ok {
      var c :| c in pairs;
      assert c in multiset(hand);
    }
  }

  /** Each tile of `ks` twice in a row. */
  function Doubled(ks: seq<Card>): (s: seq<Card>)
    ensures |s| == 2 * |ks|
  {
    if ks == [] then [] else [ks[0], ks[0]] + Doubled(ks[1..])
  }

  lemma {:induction false} DoubledCount(ks: seq<Card>, c: Card)
    ensures multiset(Doubled(ks))[c] == 2 * multiset(ks)[c]
  {
    if ks != [] {
      assert ks == [ks[0]] + ks[1..];
      DoubledCount(ks[1..], c);
    }
  }

  /**
   * Any seven pairs pass, whether or not their kinds differ: four of a kind counts as two of
   * the seven pairs.
   */
  lemma SevenPairsOfAnyKinds(ks: seq<Card>)
    requires |ks| == 7
    ensures SevenPairs(Doubled(ks))
  {
    forall c | c in Doubled(ks)
      ensures multiset(Doubled(ks))[c] % 2 == 0
    {
      DoubledCount(ks, c);
    }
  }

  /** The suits present in a hand. */
  function Suits(hand: seq<Card>): set<Suit>
  {
    set c | c in hand :: c.suit
  }

  lemma Singleton<T>(s: set<T>, a: T)
    requires |s| == 1 && a in s
    ensures s == {a}
  {
    var r := s - {a};
    assert s == r + {a};
  }

  /** `_is_pure_suit` (清一色): a non-empty hand all of the first tile's suit. */
  predicate IsPureSuit(hand: seq<Card>)
  {
    hand != [] && forall c :: c in hand ==> c.suit == hand[0].suit
  }

  /** A hand is pure exactly when it uses exactly one suit. */
  lemma PureSuitMeaning(hand: seq<Card>)
    ensures IsPureSuit(hand) <==> |Suits(hand)| == 1
  {
    var ss := Suits(hand);
    if IsPureSuit(hand) {
      assert ss == {hand[0].suit};
    }
    if |ss| == 1 {
      assert hand[0].suit in ss;
      Singleton(ss, hand[0].suit);
      forall c | c in hand
        ensures c.suit == hand[0].suit
      {
        assert c.suit in ss;
      }
    }
  }

  /**
   * `_is_mixed_suit` (混一色): the hand is non-empty and holds exactly one of 万, 筒, 条. The
   * second test, that the honour suits present are among 风 and 箭, cannot fail.
   */
  predicate IsMixedSuit(hand: seq<Card>)
  {
    hand != [] && |Suits(hand) * {Wan, Tong, Tiao}| == 1 && Suits(hand) * {Wind, Dragon} <= {Wind, Dragon}
  }

  /** Mixed suit means: some numeral suit is present and every numeral tile is of it; honours are optional. */
  lemma MixedSuitMeaning(hand: seq<Card>)
    ensures IsMixedSuit(hand) <==>
      exists s :: IsNumeral(s) && s in Suits(hand) && forall c :: c in hand && IsNumeral(c.suit) ==> c.suit == s
  {
    var ns := Suits(hand) * {Wan, Tong, Tiao};
    if IsMixedSuit(hand) {
      var s :| s in ns;
      Singleton(ns, s);
      forall c | c in hand && IsNumeral(c.suit)
        ensures c.suit == s
      {
        assert c.suit in ns;
      }
    }
    if exists s :: IsNumeral(s) && s in Suits(hand) && forall c :: c in hand && IsNumeral(c.suit) ==> c.suit == s {
      var s :| IsNumeral(s) && s in Suits(hand) && forall c :: c in hand && IsNumeral(c.suit) ==> c.suit == s;
      assert ns == {s};
    }
  }

  /** A hand of a single numeral suit is both pure and mixed, so it earns 6 + 3 fans. */
  lemma PureNumeralIsMixed(hand: seq<Card>)
    requires IsPureSuit(hand) && IsNumeral(hand[0].suit)
    ensures IsMixedSuit(hand)
  {
    MixedSuitMeaning(hand);
    assert hand[0].suit in Suits(hand);
  }

  /** The texts "1" to "9", as `set(map(str, range(1, 10)))`. */
  function NineRanks(): set<string>
  {
    set k | 1 <= k <= 9 :: DecimalText(k)
  }

  /** `_is_dragon` (一条龙): for one of 万, 筒, 条, in that order, the hand's rank texts include "1".."9". */
  predicate IsDragon(hand: seq<Card>)
  {
    NineRanks() <= RankSet(hand, Wan) || NineRanks() <= RankSet(hand, Tong) || NineRanks() <= RankSet(hand, Tiao)
  }

  /** A straight of one suit: every rank 1..9 of it is held. */
  predicate HasStraight(hand: seq<Card>, s: Suit)
  {
    forall k :: 1 <= k <= 9 ==> Card(s, k) in hand
  }

  lemma StraightIn(hand: seq<Card>, s: Suit)
    requires IsNumeral(s)
    ensures NineRanks() <= RankSet(hand, s) <==> HasStraight(hand, s)
  {
    forall k | 1 <= k <= 9
      ensures DecimalText(k) in RankSet(hand, s) <==> Card(s, k) in hand
    {
      RankSetNumeral(hand, s, k);
    }
    if HasStraight(hand, s) {
      forall t | t in NineRanks()
        ensures t in RankSet(hand, s)
      {
        var k :| 1 <= k <= 9 && t == DecimalText(k);
      }
    }
  }

  /** A dragon is exactly a straight 1..9 in one numeral suit. */
  lemma DragonMeaning(hand: seq<Card>)
    ensures IsDragon(hand) <==> exists s :: IsNumeral(s) && HasStraight(hand, s)
  {
    StraightIn(hand, Wan);
    StraightIn(hand, Tong);
    StraightIn(hand, Tiao);
  }

  /** `_check_basic_fans`: self-drawn +1, no melds +1, all pairs +2, seven pairs +4. */
  function BasicFans(p: Player, winning: Card): (r: nat)
    ensures 2 <= r <= 8
  {
    (if Equals(winning, p.drawnCard) then 1 else 0)
    + (if p.melds == [] then 1 else 0)
    + (if IsAllPairs(p) then 2 else 0)
    + (if SevenPairs(p.hand) then 4 else 0)
  }

  /** `_check_basic_fans` as written: a counter incremented per satisfied pattern. */
  method CheckBasicFans(p: Player, winning: Card) returns (fans: nat)
    ensures fans == BasicFans(p, winning)
  {
    fans := 0;
    if Equals(winning, p.drawnCard) {
      fans := fans + 1;
    }
    if p.melds == [] {
      fans := fans + 1;
    }
    if IsAllPairs(p) {
      fans := fans + 2;
    }
    var sevenPairs := IsSevenPairs(p);
    if sevenPairs {
      fans := fans + 4;
    }
  }

  /** Drawing the winning tile oneself is worth exactly one fan more than winning on another tile. */
  lemma SelfDrawnFan(p: Player, winning: Card)
    ensures BasicFans(p.(drawnCard := Some(winning)), winning) == BasicFans(p.(drawnCard := None), winning) + 1
  {
    EqualsIsIdentity(winning, Some(winning));
    EqualsIsIdentity(winning, None);
  }

  /** `_check_special_fans`: pure suit +6, mixed suit +3, dragon +3. */
  function SpecialFans(hand: seq<Card>): (r: nat)
    ensures r in {0, 3, 6, 9, 12}
  {
    (if IsPureSuit(hand) then 6 else 0)
    + (if IsMixedSuit(hand) then 3 else 0)
    + (if IsDragon(hand) then 3 else 0)
  }

  /** `_check_special_fans` as written: a counter incremented per satisfied pattern. */
  method CheckSpecialFans(p: Player) returns (fans: nat)
    ensures fans == SpecialFans(p.hand)
  {
    fans := 0;
    if IsPureSuit(p.hand) {
      fans := fans + 6;
    }
    if IsMixedSuit(p.hand) {
      fans := fans + 3;
    }
    if IsDragon(p.hand) {
      fans := fans + 3;
    }
  }

  /** `_calculate_fans`: basic plus special fans, capped at `max_fans`. */
  function Fans(rule: RuleConfig, p: Player, winning: Card): (r: nat)
    ensures r <= rule.maxFans && r <= BasicFans(p, winning) + SpecialFans(p.hand)
    ensures r == rule.maxFans || r == BasicFans(p, winning) + SpecialFans(p.hand)
  {
    var total := BasicFans(p, winning) + SpecialFans(p.hand);
    if total < rule.maxFans then total else rule.maxFans
  }

  /** Since all-pairs always scores, there are at least two fans unless the cap is lower. */
  lemma FansLowerBound(rule: RuleConfig, p: Player, winning: Card)
    ensures Fans(rule, p, winning) >= if rule.maxFans < 2 then rule.maxFans else 2
    ensures Fans(rule, p, winning) > 0 <==> rule.maxFans > 0
  {
  }

  function Pow2(n: nat): (r: nat)
    ensures r >= 1
  {
    if n == 0 then 1 else 2 * Pow2(n - 1)
  }

  lemma {:induction false} Pow2Monotone(a: nat, b: nat)
    requires a <= b
    ensures Pow2(a) <= Pow2(b)
  {
    if a < b {
      Pow2Monotone(a, b - 1);
    }
  }

  /** `calculate_score`: a base score of 1 doubled once per fan. */
  function Score(rule: RuleConfig, p: Player, winning: Card): (r: nat)
    ensures r >= 1 && r <= Pow2(rule.maxFans)
    ensures r == Pow2(Fans(rule, p, winning))
  {
    Pow2Monotone(Fans(rule, p, winning), rule.maxFans);
    1 * Pow2(Fans(rule, p, winning))
  }

  /** Under the Tencent rule (at most 10 fans) a win scores between 2^2 = 4 and 2^10 = 1024. */
  lemma TencentScoreRange(p: Player, winning: Card)
    ensures 4 <= Score(TencentCommonRule(), p, winning) <= 1024
  {
    var rule := TencentCommonRule();
    FansLowerBound(rule, p, winning);
    Pow2Monotone(2, Fans(rule, p, winning));
    assert Pow2(2) == 4;
    assert Pow2(10) == 1024;
  }
}
