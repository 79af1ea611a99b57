/** The order `_sort_hand` puts a hand in, and sorted sequences of tiles. */
module TileOrder {
  import opened Results
  import opened Cards

  /** `suit_order`: 万 < 筒 < 条 < 风 < 箭; flowers have no entry. */
  function SuitOrder(s: Suit): Option<nat>
  {
    match s
    case Wan => Some(1)
    case Tong => Some(2)
    case Tiao => Some(3)
    case Wind => Some(4)
    case Dragon => Some(5)
    case Flower => None
  }

  /** `rank_order`: the texts "1".."9" map to 1..9, 东南西北 to 1..4, 中发白 to 1..3. */
  function RankOrder(t: string): Option<nat>
  {
    if |t| == 1 && '1' <= t[0] <= '9' then Some(t[0] as int - '0' as int)
    else if t == "东" || t == "中" then Some(1)
    else if t == "南" || t == "发" then Some(2)
    else if t == "西" || t == "白" then Some(3)
    else if t == "北" then Some(4)
    else None
  }

  /** The sort key `(suit_order[suit], rank_order[rank])`, or `None` where a lookup raises `KeyError`. */
  function SortKey(c: Card): Option<(nat, nat)>
  {
    match (SuitOrder(c.suit), RankOrder(RankText(c)))
    case (Some(s), Some(r)) => Some((s, r))
    case _ => None
  }

  /** The position of a suit in the order; flowers are put last. */
  function SuitPos(s: Suit): nat
  {
    match s
    case Wan => 1
    case Tong => 2
    case Tiao => 3
    case Wind => 4
    case Dragon => 5
    case Flower => 6
  }

  /** A tile can be sorted exactly when it is not a flower and its rank is 1..9; its key is then (suit position, rank). */
  lemma SortKeyOf(c: Card)
    ensures SortKey(c) == if c.suit != Flower && 1 <= c.rank <= 9 then Some((SuitPos(c.suit), c.rank)) else None
  {
    var t := RankText(c);
    if !(c.suit == Wind && 1 <= c.rank <= 4) && !(c.suit == Dragon && 1 <= c.rank <= 3) {
      assert t == DecimalText(c.rank);
      if c.rank < 10 {
        assert t == [DigitChar(c.rank)];
      } else {
        assert |t| > 1;
      }
    }
  }

  predicate Keyed(c: Card)
  {
    c.suit != Flower && 1 <= c.rank <= 9
  }

  /** `a` comes no later than `b` in the hand order. */
  predicate Le(a: Card, b: Card)
  {
    SuitPos(a.suit) < SuitPos(b.suit) || (SuitPos(a.suit) == SuitPos(b.suit) && a.rank <= b.rank)
  }

  /** The order is antisymmetric: only equal tiles precede each other. */
  lemma LeAntisymmetric(a: Card, b: Card)
    requires Le(a, b) && Le(b, a)
    ensures a == b
  {
  }

  predicate Sorted(s: seq<Card>)
  {
    forall i, j :: 0 <= i < j < |s| ==> Le(s[i], s[j])
  }

  /** Inserts `x` before the first tile it does not follow. */
  function Insert(x: Card, s: seq<Card>): (r: seq<Card>)
    requires Sorted(s)
    ensures Sorted(r) && multiset(r) == multiset(s) + multiset{x}
  {
    if s == [] || Le(x, s[0]) then
      [x] + s
    else
      var t := Insert(x, s[1..]);
      InsertBound(x, s, t);
      SortedCons(s[0], t);
      assert s == [s[0]] + s[1..];
      [s[0]] + t
  }

  /** What `x` is inserted among, behind the head of `s`, never precedes that head. */
  lemma InsertBound(x: Card, s: seq<Card>, t: seq<Card>)
    requires Sorted(s) && s != [] && !Le(x, s[0])
    requires multiset(t) == multiset(s[1..]) + multiset{x}
    ensures forall y :: y in t ==> Le(s[0], y)
  {
    forall y | y in t
      ensures Le(s[0], y)
    {
      assert y in multiset(t);
      if y != x {
        assert y in multiset(s[1..]);
        SortedFirst(s, y);
      }
    }
  }

  /** `sorted(hand, key=...)` for tiles that all have keys: an ordered permutation. */
  function SortTiles(s: seq<Card>): (r: seq<Card>)
    ensures Sorted(r) && multiset(r) == multiset(s)
  {
    if s == [] then []
    else
      assert s == [s[0]] + s[1..];
      Insert(s[0], SortTiles(s[1..]))
  }

  lemma SortedCons(a: Card, t: seq<Card>)
    requires Sorted(t)
    requires forall y :: y in t ==> Le(a, y)
    ensures Sorted([a] + t)
  {
    var s := [a] + t;
    forall i, j | 0 <= i < j < |s|
      ensures Le(s[i], s[j])
    {
      if i > 0 {
        assert s[i] == t[i - 1] && s[j] == t[j - 1];
      } else {
        assert s[j] == t[j - 1] && s[j] in t;
      }
    }
  }

  /** The first tile of a sorted sequence precedes all its tiles. */
  lemma SortedFirst(s: seq<Card>, x: Card)
    requires Sorted(s) && x in s
    ensures Le(s[0], x)
  {
    var j :| 0 <= j < |s| && s[j] == x;
    if j > 0 {
      assert Le(s[0], s[j]);
    }
  }

  /** Cutting a stretch out of a sorted sequence leaves it sorted. */
  lemma SortedCut(s: seq<Card>, i: nat, j: nat)
    requires Sorted(s) && i <= j <= |s|
    ensures Sorted(s[..i] + s[j..])
  {
    var r := s[..i] + s[j..];
    forall a, b | 0 <= a < b < |r|
      ensures Le(r[a], r[b])
    {
      var a' := if a < i then a else a - i + j;
      var b' := if b < i then b else b - i + j;
      assert r[a] == s[a'] && r[b] == s[b'] && a' < b';
    }
  }

  /** The list with its first occurrence of `x` deleted (unchanged when `x` is absent). */
  function RemoveFirst(s: seq<Card>, x: Card): (r: seq<Card>)
    ensures |r| <= |s|
    ensures x in s ==> |r| == |s| - 1 && multiset(r) == multiset(s) - multiset{x}
    ensures x !in s ==> r == s
  {
    if s == [] then []
    else if s[0] == x then
      assert s == [s[0]] + s[1..];
      s[1..]
    else
      assert s == [s[0]] + s[1..];
      [s[0]] + RemoveFirst(s[1..], x)
  }

  /** Deleting at the first occurrence, found by a scan that skipped `s[..i]`, is `RemoveFirst`. */
  lemma {:induction false} RemoveFirstAt(s: seq<Card>, x: Card, i: nat)
    requires i < |s| && s[i] == x && x !in s[..i]
    ensures RemoveFirst(s, x) == s[..i] + s[i + 1..]
  {
    if i > 0 {
      var t, k := s[1..], i - 1;
      CutAfterHead(s, k);
      RemoveFirstAt(t, x, k);
      RemoveFirstSkip(s, x);
    }
  }

  /** Splitting `s` after its head: the stretch before `k + 1` and the rest, around `s[k + 1]`. */
  lemma CutAfterHead(s: seq<Card>, k: nat)
    requires k + 1 < |s|
    ensures s[1..][..k] == s[..k + 1][1..] && s[..k + 1][0] == s[0]
    ensures s[..k + 1] + s[k + 2..] == [s[0]] + (s[1..][..k] + s[1..][k + 1..])
  {
  }

  /** A head other than `x` stays in front of what `RemoveFirst` leaves. */
  lemma RemoveFirstSkip(s: seq<Card>, x: Card)
    requires s != [] && s[0] != x
    ensures RemoveFirst(s, x) == [s[0]] + RemoveFirst(s[1..], x)
  {
  }

  lemma RemoveFirstSubset(s: seq<Card>, x: Card, y: Card)
    requires y in RemoveFirst(s, x)
    ensures y in s
  {
    if x in s {
      assert y in multiset(RemoveFirst(s, x));
    }
  }

  lemma {:induction false} RemoveFirstSorted(s: seq<Card>, x: Card)
    requires Sorted(s)
    ensures Sorted(RemoveFirst(s, x))
  {
    if s != [] && s[0] != x {
      var tail := s[1..];
      SortedCut(s, 0, 1);
      assert s[..0] + s[1..] == tail;
      RemoveFirstSorted(tail, x);
      var t := RemoveFirst(tail, x);
      forall y | y in t
        ensures Le(s[0], y)
      {
        RemoveFirstSubset(tail, x, y);
        assert y in s;
        SortedFirst(s, y);
      }
      SortedCons(s[0], t);
    }
  }

  /** Keys compare lexicographically in the same way `Le` orders the tiles. */
  lemma KeyOrder(a: Card, b: Card)
    requires Keyed(a) && Keyed(b)
    ensures SortKey(a).Some? && SortKey(b).Some?
    ensures var (sa, ra) := SortKey(a).value; var (sb, rb) := SortKey(b).value;
      Le(a, b) <==> sa < sb || (sa == sb && ra <= rb)
  {
    SortKeyOf(a);
    SortKeyOf(b);
  }

  lemma SortedTail(s: seq<Card>)
    requires Sorted(s) && s != []
    ensures Sorted(s[1..])
  {
    SortedCut(s, 0, 1);
    assert s[..0] + s[1..] == s[1..];
  }

  /** Two sorted arrangements of one multiset start with the same tile. */
  lemma SameFirst(a: seq<Card>, b: seq<Card>)
    requires Sorted(a) && Sorted(b) && multiset(a) == multiset(b) && a != []
    ensures b != [] && a[0] == b[0]
  {
    assert a[0] in multiset(b);
    assert b != [];
    assert b[0] in multiset(a);
    SortedFirst(a, b[0]);
    SortedFirst(b, a[0]);
    LeAntisymmetric(a[0], b[0]);
  }

  /**
   * A multiset of tiles has only one sorted arrangement, so the stable `sorted` of a hand whose
   * tiles all have keys is `SortTiles` of it.
   */
  lemma {:induction false} SortedUnique(a: seq<Card>, b: seq<Card>)
    requires Sorted(a) && Sorted(b) && multiset(a) == multiset(b)
    ensures a == b
  {
    if a == [] {
      assert |b| == |multiset(b)| == 0;
    } else {
      SameFirst(a, b);
      assert a == [a[0]] + a[1..] && b == [b[0]] + b[1..];
      assert multiset(a) == multiset{a[0]} + multiset(a[1..]);
      assert multiset(b) == multiset{a[0]} + multiset(b[1..]);
      assert multiset(a[1..]) == multiset(a) - multiset{a[0]};
      assert multiset(b[1..]) == multiset(b) - multiset{a[0]};
      SortedTail(a);
      SortedTail(b);
      SortedUnique(a[1..], b[1..]);
    }
  }

  lemma {:induction false} CountBound(s: seq<Card>, x: Card)
    ensures multiset(s)[x] <= |s|
  {
    if s != [] {
      assert s == [s[0]] + s[1..];
      CountBound(s[1..], x);
    }
  }

  /** More than `k` copies of `x` leave at least one after the first `k` positions. */
  lemma CountBeyond(s: seq<Card>, x: Card, k: nat)
    requires k <= |s| && multiset(s)[x] > k
    ensures x in s[k..]
  {
    assert s == s[..k] + s[k..];
    CountBound(s[..k], x);
    assert multiset(s[k..])[x] > 0;
  }

  /** In a sorted sequence, equal tiles stand together. */
  lemma Between(s: seq<Card>, i: nat, j: nat, l: nat)
    requires Sorted(s) && i <= j <= l < |s| && s[i] == s[l]
    ensures s[j] == s[i]
  {
    if i < j < l {
      LeAntisymmetric(s[i], s[j]);
    }
  }

  /** A sorted sequence with three copies of its first tile starts with them. */
  lemma TripleAtFront(s: seq<Card>)
    requires Sorted(s) && s != [] && multiset(s)[s[0]] >= 3
    ensures |s| >= 3 && s[1] == s[0] && s[2] == s[0]
  {
    CountBound(s, s[0]);
    CountBeyond(s, s[0], 2);
    var l :| 2 <= l < |s| && s[l] == s[0];
    Between(s, 0, 1, l);
    Between(s, 0, 2, l);
  }

  /** The first position holding `c`, so that nothing before it is `c`. */
  lemma FirstIndex(s: seq<Card>, c: Card) returns (i: nat)
    requires c in s
    ensures i < |s| && s[i] == c && c !in s[..i]
  {
    i := 0;
    while s[i] != c
      invariant i < |s| && c !in s[..i] && c in s[i..]
      decreases |s| - i
    {
      assert s[i..] == [s[i]] + s[i + 1..];
      i := i + 1;
    }
  }

  lemma NextIsSame(s: seq<Card>, c: Card, i: nat)
    requires Sorted(s) && multiset(s)[c] >= 2
    requires i < |s| && s[i] == c && c !in s[..i]
    ensures i + 1 < |s| && s[i + 1] == c
  {
    var t := s[i..];
    assert s == s[..i] + t;
    assert multiset(s[..i])[c] == 0;
    assert multiset(t)[c] >= 2;
    CountBeyond(t, c, 1);
    var l :| 1 <= l < |t| && t[l] == c;
    assert s[i + l] == c;
    Between(s, i, i + 1, i + l);
  }

  /** Deleting the two tiles at `i` and `i + 1` removes exactly them from the multiset. */
  lemma CutPair(s: seq<Card>, i: nat)
    requires i + 1 < |s|
    ensures multiset(s[..i] + s[i + 2..]) == multiset(s) - multiset{s[i], s[i + 1]}
  {
    assert s == s[..i] + [s[i], s[i + 1]] + s[i + 2..];
  }

  /** In a sorted sequence, the first occurrence of a tile held twice is followed by the second. */
  lemma PairAtFirst(s: seq<Card>, c: Card) returns (i: nat)
    requires Sorted(s) && multiset(s)[c] >= 2
    ensures i + 1 < |s| && s[i] == c && s[i + 1] == c
    ensures multiset(s[..i] + s[i + 2..]) == multiset(s) - multiset{c, c}
  {
    assert c in multiset(s);
    i := FirstIndex(s, c);
    NextIsSame(s, c, i);
    CutPair(s, i);
  }
}
