/** The Tencent common rule's configuration and its 136-tile deck. */
module Rule {
  import opened Cards

  /**
   * The configuration fields of a rule object. The inherited ones (player count, deck size,
   * starting tiles, dealer's extra tile, allow-flags) come from the base rule; `maxFans` and
   * `mandatoryDiscard` are the Tencent rule's own. `maxFans` is a natural number.
   */
  datatype RuleConfig = RuleConfig(
    maxPlayers: nat,
    tilesCount: nat,
    startingTiles: nat,
    dealerExtraTile: bool,
    allowChow: bool,
    allowPong: bool,
    allowKong: bool,
    allowSelfHu: bool,
    allowOtherHu: bool,
    maxFans: nat,
    mandatoryDiscard: bool)

  /** `TencentCommonRule()`: the base defaults, every claim allowed, at most 10 fans. */
  function TencentCommonRule(): (r: RuleConfig)
    ensures r.maxPlayers == 4 && r.tilesCount == 136 && r.startingTiles == 13 && r.dealerExtraTile
    ensures r.allowChow && r.allowPong && r.allowKong && r.allowSelfHu && r.allowOtherHu
    ensures r.maxFans == 10 && r.mandatoryDiscard
  {
    RuleConfig(4, 136, 13, true, true, true, true, true, true, 10, true)
  }

  /** The tiles a standard set holds four copies of: 1..9 of each numeral suit, four winds, three dragons. */
  predicate IsStandardTile(c: Card)
  {
    || (IsNumeral(c.suit) && 1 <= c.rank <= 9)
    || (c.suit == Wind && 1 <= c.rank <= 4)
    || (c.suit == Dragon && 1 <= c.rank <= 3)
  }

  /** The k-th tile kind in dealing order: 万1..9, 筒1..9, 条1..9, 东南西北, 中发白. */
  function KindAt(k: nat): Card
    requires k < 34
  {
    if k < 9 then Card(Wan, k + 1)
    else if k < 18 then Card(Tong, k - 8)
    else if k < 27 then Card(Tiao, k - 17)
    else if k < 31 then Card(Wind, k - 26)
    else Card(Dragon, k - 30)
  }

  function Kinds(): (ks: seq<Card>)
    ensures |ks| == 34
  {
    seq(34, k requires 0 <= k < 34 => KindAt(k))
  }

  function Repeat(c: Card, n: nat): (s: seq<Card>)
    ensures |s| == n
    ensures forall k :: 0 <= k < n ==> s[k] == c
  {
    if n == 0 then [] else Repeat(c, n - 1) + [c]
  }

  /** Every kind of `ks`, in order, four times in a row. */
  function Fourfold(ks: seq<Card>): (s: seq<Card>)
    ensures |s| == 4 * |ks|
  {
    if ks == [] then [] else Fourfold(ks[..|ks| - 1]) + Repeat(ks[|ks| - 1], 4)
  }

  /** The deck `create_initial_deck` builds: tiles 4k to 4k + 3 are the k-th kind. */
  function StandardDeck(): (d: seq<Card>)
    ensures |d| == 136
  {
    seq(136, i requires 0 <= i < 136 => KindAt(i / 4))
  }

  /** Listing every kind four times in a row gives the deck. */
  lemma DeckIsFourfold()
    ensures Fourfold(Kinds()) == StandardDeck()
  {
    forall i | 0 <= i < 136
      ensures Fourfold(Kinds())[i] == StandardDeck()[i]
    {
      FourfoldAt(Kinds(), i);
    }
  }

  lemma FourfoldStep(ks: seq<Card>, k: nat)
    requires k < |ks|
    ensures Fourfold(ks[..k + 1]) == Fourfold(ks[..k]) + Repeat(ks[k], 4)
  {
    assert ks[..k + 1][..k] == ks[..k];
  }

  /**
   * `create_initial_deck`: for each numeral suit, ranks 1 to 9, then the winds, then the
   * dragons, each appended four times.
   */
  method CreateInitialDeck() returns (deck: seq<Card>)
    ensures deck == StandardDeck()
  {
    ghost var ks := Kinds();
    deck := [];
    var numerals := [Wan, Tong, Tiao];
    for si := 0 to 3
      invariant deck == Fourfold(ks[..9 * si])
    {
      for rank := 1 to 10
        invariant deck == Fourfold(ks[..9 * si + rank - 1])
      {
        deck := AppendFour(deck, Card(numerals[si], rank), ks, 9 * si + rank - 1);
      }
    }
    for rank := 1 to 5
      invariant deck == Fourfold(ks[..26 + rank])
    {
      deck := AppendFour(deck, Card(Wind, rank), ks, 26 + rank);
    }
    for rank := 1 to 4
      invariant deck == Fourfold(ks[..30 + rank])
    {
      deck := AppendFour(deck, Card(Dragon, rank), ks, 30 + rank);
    }
    assert ks[..34] == ks;
    DeckIsFourfold();
  }

  /** The innermost loop of `create_initial_deck`: four copies of tile `c`, kind `k` of `ks`, go on the deck. */
  method AppendFour(deck: seq<Card>, c: Card, ghost ks: seq<Card>, ghost k: nat) returns (r: seq<Card>)
    requires ks == Kinds() && k < |ks| && ks[k] == c && deck == Fourfold(ks[..k])
    ensures r == Fourfold(ks[..k + 1])
  {
    r := deck;
    for copy := 0 to 4
      invariant r == deck + Repeat(c, copy)
    {
      r := r + [c];
    }
    FourfoldStep(ks, k);
  }

  /** The kinds are exactly the standard tiles. */
  lemma KindsAreStandardTiles(c: Card)
    ensures c in Kinds() <==> IsStandardTile(c)
  {
    var ks := Kinds();
    if IsStandardTile(c) {
      var k := match c.suit
        case Wan => c.rank - 1
        case Tong => c.rank + 8
        case Tiao => c.rank + 17
        case Wind => c.rank + 26
        case _ => c.rank + 30;
      assert ks[k] == c;
    }
  }

  /** No kind is listed twice, so each occurs once in `Kinds()`. */
  lemma KindsOnce(c: Card)
    ensures multiset(Kinds())[c] == if c in Kinds() then 1 else 0
  {
    var ks := Kinds();
    assert forall i, j :: 0 <= i < j < |ks| ==> ks[i] != ks[j];
    DistinctCount(ks, c);
  }

  lemma {:induction false} DistinctCount(s: seq<Card>, c: Card)
    requires forall i, j :: 0 <= i < j < |s| ==> s[i] != s[j]
    ensures multiset(s)[c] == if c in s then 1 else 0
  {
    if s != [] {
      assert s == s[..|s| - 1] + [s[|s| - 1]];
      DistinctCount(s[..|s| - 1], c);
    }
  }

  lemma {:induction false} RepeatCount(x: Card, n: nat, c: Card)
    ensures multiset(Repeat(x, n))[c] == if c == x then n else 0
  {
    if n > 0 {
      RepeatCount(x, n - 1, c);
    }
  }

  lemma {:induction false} FourfoldCount(ks: seq<Card>, c: Card)
    ensures multiset(Fourfold(ks))[c] == 4 * multiset(ks)[c]
  {
    if ks != [] {
      var init := ks[..|ks| - 1];
      assert ks == init + [ks[|ks| - 1]];
      FourfoldCount(init, c);
      RepeatCount(ks[|ks| - 1], 4, c);
    }
  }

  lemma {:induction false} FourfoldAt(ks: seq<Card>, i: nat)
    requires i < 4 * |ks|
    ensures Fourfold(ks)[i] == ks[i / 4]
  {
    var init := ks[..|ks| - 1];
    if i < 4 * |init| {
      FourfoldAt(init, i);
    } else {
      assert i / 4 == |init|;
    }
  }

  /**
   * The deck has `tilesCount` = 136 tiles: four of each of the 34 standard kinds (so each
   * numeral 1..9, wind and dragon four times) and nothing else, no flowers in particular.
   */
  lemma StandardDeckComposition(c: Card)
    ensures |StandardDeck()| == TencentCommonRule().tilesCount
    ensures multiset(StandardDeck())[c] == if IsStandardTile(c) then 4 else 0
    ensures c.suit == Flower ==> c !in StandardDeck()
  {
    DeckCount(c);
    if c.suit == Flower {
      assert multiset(StandardDeck())[c] == 0;
    }
  }

  /** Four copies of each standard tile, none of any other. */
  lemma DeckCount(c: Card)
    ensures multiset(StandardDeck())[c] == if IsStandardTile(c) then 4 else 0
  {
    DeckIsFourfold();
    FourfoldCount(Kinds(), c);
    KindOnce(c);
  }

  /** A standard tile is listed once among the kinds, any other tile not at all. */
  lemma KindOnce(c: Card)
    ensures multiset(Kinds())[c] == if IsStandardTile(c) then 1 else 0
  {
    KindsOnce(c);
    KindsAreStandardTiles(c);
  }
}
