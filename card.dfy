/** A mahjong tile: a suit and a rank, compared through its text identifier. */
module Cards {
  import opened Results

  /** 万, 筒, 条 are the numeral suits, 风 (winds) and 箭 (dragons) the honours, 花 the flowers. */
  datatype Suit = Wan | Tong | Tiao | Wind | Dragon | Flower

  /** A tile. The rank of a wind is 1..4 for 东南西北, of a dragon 1..3 for 中发白. */
  datatype Card = Card(suit: Suit, rank: nat)

  predicate IsNumeral(s: Suit) { s == Wan || s == Tong || s == Tiao }

  predicate IsHonour(s: Suit) { s == Wind || s == Dragon }

  /** The one-character name of a suit. */
  function SuitText(s: Suit): string
  {
    match s
    case Wan => "万"
    case Tong => "筒"
    case Tiao => "条"
    case Wind => "风"
    case Dragon => "箭"
    case Flower => "花"
  }

  function DigitChar(d: nat): (ch: char)
    requires d < 10
    ensures '0' <= ch <= '9' && ch as int - '0' as int == d
  {
    ('0' as int + d) as char
  }

  /** The characters 东南西北 of the wind ranks 1..4. */
  function WindName(r: nat): string
    requires 1 <= r <= 4
  {
    if r == 1 then "东" else if r == 2 then "南" else if r == 3 then "西" else "北"
  }

  /** The characters 中发白 of the dragon ranks 1..3. */
  function DragonName(r: nat): string
    requires 1 <= r <= 3
  {
    if r == 1 then "中" else if r == 2 then "发" else "白"
  }

  /** Python's `str` of a natural number. */
  function DecimalText(n: nat): (t: string)
    ensures |t| >= 1
    ensures n < 10 <==> |t| == 1
    ensures forall i :: 0 <= i < |t| ==> '0' <= t[i] <= '9'
  {
    if n < 10 then [DigitChar(n)] else DecimalText(n / 10) + [DigitChar(n % 10)]
  }

  /** Distinct numbers have distinct decimal texts, so `int(str(n)) == n`. */
  lemma {:induction false} DecimalTextInjective(a: nat, b: nat)
    ensures DecimalText(a) == DecimalText(b) ==> a == b
  {
    if DecimalText(a) == DecimalText(b) && 10 <= a {
      var ta, tb := DecimalText(a), DecimalText(b);
      assert ta[..|ta| - 1] == DecimalText(a / 10);
      assert tb[..|tb| - 1] == DecimalText(b / 10);
      assert ta[|ta| - 1] == DigitChar(a % 10);
      assert tb[|tb| - 1] == DigitChar(b % 10);
      DecimalTextInjective(a / 10, b / 10);
    }
  }

  /** The rank as the Python code spells it: a decimal numeral or an honour's character. */
  function RankText(c: Card): string
  {
    if c.suit == Wind && 1 <= c.rank <= 4 then WindName(c.rank)
    else if c.suit == Dragon && 1 <= c.rank <= 3 then DragonName(c.rank)
    else DecimalText(c.rank)
  }

  /** `Card.id`: the suit's character followed by the rank's text. */
  function Id(c: Card): (id: string)
    ensures |id| >= 2 && id[..1] == SuitText(c.suit) && id[1..] == RankText(c)
  {
    SuitText(c.suit) + RankText(c)
  }

  /** The rank texts of the tiles of suit `s` in `hand`, as `{c.rank for c in hand if c.suit == s}`. */
  function RankSet(hand: seq<Card>, s: Suit): set<string>
  {
    set c | c in hand && c.suit == s :: RankText(c)
  }

  /** For a numeral suit the rank text of `n` is held exactly when the tile of rank `n` is. */
  lemma RankSetNumeral(hand: seq<Card>, s: Suit, n: nat)
    requires IsNumeral(s)
    ensures DecimalText(n) in RankSet(hand, s) <==> Card(s, n) in hand
  {
    if DecimalText(n) in RankSet(hand, s) {
      var c :| c in hand && c.suit == s && RankText(c) == DecimalText(n);
      DecimalTextInjective(c.rank, n);
    }
    if Card(s, n) in hand {
      assert RankText(Card(s, n)) == DecimalText(n);
    }
  }

  /** `Card.__repr__`. */
  function Repr(c: Card): (s: string)
    ensures s == Id(c)
  {
    Id(c)
  }

  /** `Card.__eq__`: identifiers are compared, and an absent value (`None`) is never equal. */
  predicate Equals(c: Card, other: Option<Card>)
  {
    if other.Some? then Id(c) == Id(other.value) else false
  }

  /** `Card.__hash__`: the hash of the identifier under Python's string hash `strHash`. */
  function Hash(c: Card, strHash: string -> int): int
  {
    strHash(Id(c))
  }

  /** Two tiles have the same identifier exactly when they have the same suit and rank. */
  lemma IdInjective(a: Card, b: Card)
    ensures Id(a) == Id(b) <==> a == b
  {
    if Id(a) == Id(b) {
      assert SuitText(a.suit) == Id(a)[..1] == Id(b)[..1] == SuitText(b.suit);
      assert a.suit == b.suit;
      var ra, rb := RankText(a), RankText(b);
      assert ra == Id(a)[1..] == Id(b)[1..] == rb;
      DecimalTextInjective(a.rank, b.rank);
    }
  }

  /** `Card.__eq__` is equality of suit and rank, and `None` equals no tile. */
  lemma EqualsIsIdentity(a: Card, other: Option<Card>)
    ensures Equals(a, other) <==> other == Some(a)
  {
    if other.Some? {
      IdInjective(a, other.value);
    }
  }

  /** Equal tiles hash alike, whatever the string hash, so either finds the other's dictionary entry. */
  lemma EqualTilesHashAlike(a: Card, b: Card, strHash: string -> int)
    requires Equals(a, Some(b))
    ensures Hash(a, strHash) == Hash(b, strHash)
    ensures a == b
  {
    EqualsIsIdentity(a, Some(b));
  }

  /** Worked examples: 万1 has the identifier "万1", equals another 万1, differs from 万2 and from `None`. */
  lemma CardExamples()
    ensures Id(Card(Wan, 1)) == "万1" && Repr(Card(Wan, 1)) == "万1"
    ensures Equals(Card(Wan, 1), Some(Card(Wan, 1)))
    ensures !Equals(Card(Wan, 1), Some(Card(Wan, 2)))
    ensures !Equals(Card(Wan, 1), None)
    ensures Id(Card(Wind, 1)) == "风东" && Id(Card(Dragon, 3)) == "箭白"
  {
    EqualsIsIdentity(Card(Wan, 1), Some(Card(Wan, 2)));
  }
}
