/** Melds as a mahjong player counts them: three identical tiles, or three consecutive ranks of one numeral suit. */
module MeldShapes {
  import opened Cards

  /** A triplet (刻子) of one tile, or a run (顺子) of ranks `start`, `start + 1`, `start + 2`. */
  datatype Group = Triplet(tile: Card) | Run(suit: Suit, start: nat)

  function Tiles(g: Group): multiset<Card>
  {
    match g
    case Triplet(t) => multiset{t, t, t}
    case Run(s, st) => multiset{Card(s, st), Card(s, st + 1), Card(s, st + 2)}
  }

  lemma TilesOfRun(a: Card)
    ensures Tiles(Run(a.suit, a.rank)) == multiset{a, Card(a.suit, a.rank + 1), Card(a.suit, a.rank + 2)}
  {
  }

  /** Taking a run `a`, `a + 1`, `a + 2` out of `a` plus `m` takes the other two out of `m`. */
  lemma TakeThree(a: Card, m: multiset<Card>, h: multiset<Card>, r: multiset<Card>)
    requires h == multiset{a} + m
    requires Card(a.suit, a.rank + 1) in m && Card(a.suit, a.rank + 2) in m
    requires r == m - multiset{Card(a.suit, a.rank + 1), Card(a.suit, a.rank + 2)}
    ensures Tiles(Run(a.suit, a.rank)) <= h && r == h - Tiles(Run(a.suit, a.rank))
  {
    TilesOfRun(a);
  }

  lemma MinusTwice(m: multiset<Card>, a: Card, b: Card)
    ensures (m - multiset{a}) - multiset{b} == m - multiset{a, b}
  {
  }

  lemma AddBack(m: multiset<Card>, t: multiset<Card>)
    requires t <= m
    ensures t + (m - t) == m
  {
  }

  lemma PartOfSum(t: multiset<Card>, m: multiset<Card>)
    ensures t <= t + m
  {
  }

  lemma AddSub(t: multiset<Card>, m: multiset<Card>)
    ensures (t + m) - t == m
  {
  }

  /** Only 万, 筒 and 条 form runs; winds and dragons meld as triplets only. */
  predicate ValidGroup(g: Group)
  {
    g.Run? ==> IsNumeral(g.suit)
  }

  /** All tiles of a list of groups. */
  function Bag(gs: seq<Group>): multiset<Card>
  {
    if gs == [] then multiset{} else Tiles(gs[0]) + Bag(gs[1..])
  }

  /** `gs` are valid groups using up exactly the tiles of `m`. */
  predicate IsPartition(gs: seq<Group>, m: multiset<Card>)
  {
    (forall i :: 0 <= i < |gs| ==> ValidGroup(gs[i])) && Bag(gs) == m
  }

  /** The tiles `m` can be laid out entirely as melds. */
  ghost predicate Decomposable(m: multiset<Card>)
  {
    exists gs :: IsPartition(gs, m)
  }

  /** A winning shape: one pair (the eyes, 将) and melds for all other tiles. */
  ghost predicate WinningShape(m: multiset<Card>)
  {
    exists c :: m[c] >= 2 && Decomposable(m - multiset{c, c})
  }

  /** Every group has three tiles. */
  lemma {:induction false} BagSize(gs: seq<Group>)
    ensures |Bag(gs)| == 3 * |gs|
  {
    if gs != [] {
      BagSize(gs[1..]);
    }
  }

  /** Melds use up tiles three at a time, so a decomposable multiset has a size divisible by 3. */
  lemma DecomposableSize(m: multiset<Card>)
    requires Decomposable(m)
    ensures |m| % 3 == 0
  {
    var gs :| IsPartition(gs, m);
    BagSize(gs);
    TimesThree(|m|, |gs|);
  }

  lemma TimesThree(n: nat, k: nat)
    requires n == 3 * k
    ensures n % 3 == 0
  {
  }

  /** A winning shape has 3k + 2 tiles. */
  lemma WinningShapeSize(m: multiset<Card>)
    requires WinningShape(m)
    ensures |m| % 3 == 2
  {
    var c :| m[c] >= 2 && Decomposable(m - multiset{c, c});
    var rest := m - multiset{c, c};
    DecomposableSize(rest);
    PairSize(m, c);
    TwoMore(|m|, |rest|);
  }

  lemma TwoMore(a: nat, b: nat)
    requires b % 3 == 0 && a == b + 2
    ensures a % 3 == 2
  {
  }

  lemma PairSize(m: multiset<Card>, c: Card)
    requires m[c] >= 2
    ensures |m| == |m - multiset{c, c}| + 2
  {
    assert m == (m - multiset{c, c}) + multiset{c, c};
  }

  /** Taking group `k` out of the list takes its tiles out of the bag. */
  lemma {:induction false} BagWithout(gs: seq<Group>, k: nat)
    requires k < |gs|
    ensures Bag(gs) == Tiles(gs[k]) + Bag(gs[..k] + gs[k + 1..])
  {
    if k > 0 {
      var tail, without := gs[1..], gs[..k] + gs[k + 1..];
      BagWithout(tail, k - 1);
      WithoutShape(gs, k);
      assert Bag(without) == Tiles(gs[0]) + Bag(without[1..]);
      assert Bag(gs) == Tiles(gs[0]) + Bag(tail);
      Swap3(Tiles(gs[0]), Tiles(gs[k]), Bag(without[1..]));
    } else {
      assert gs[..k] + gs[k + 1..] == gs[1..];
    }
  }

  lemma WithoutShape(gs: seq<Group>, k: nat)
    requires 0 < k < |gs|
    ensures gs[1..][k - 1] == gs[k]
    ensures (gs[..k] + gs[k + 1..])[0] == gs[0]
    ensures (gs[..k] + gs[k + 1..])[1..] == gs[1..][..k - 1] + gs[1..][k..]
  {
  }

  lemma Swap3(a: multiset<Card>, b: multiset<Card>, c: multiset<Card>)
    ensures a + (b + c) == b + (a + c)
  {
  }

  /** A tile of the bag lies in one of the groups. */
  lemma {:induction false} GroupOf(gs: seq<Group>, x: Card) returns (k: nat)
    requires x in Bag(gs)
    ensures k < |gs| && x in Tiles(gs[k])
  {
    var first, rest := Tiles(gs[0]), Bag(gs[1..]);
    assert Bag(gs) == first + rest;
    if first[x] > 0 {
      k := 0;
    } else {
      assert rest[x] > 0;
      var k' := GroupOf(gs[1..], x);
      k := k' + 1;
      assert gs[1..][k'] == gs[k];
    }
  }

  /** Removing one group of a partition leaves a partition of the remaining tiles. */
  lemma PartitionWithout(gs: seq<Group>, m: multiset<Card>, k: nat)
    requires IsPartition(gs, m) && k < |gs|
    ensures ValidGroup(gs[k]) && Tiles(gs[k]) <= m
    ensures IsPartition(gs[..k] + gs[k + 1..], m - Tiles(gs[k]))
  {
    var rest := gs[..k] + gs[k + 1..];
    BagWithout(gs, k);
    AddSub(Tiles(gs[k]), Bag(rest));
    PartOfSum(Tiles(gs[k]), Bag(rest));
    forall i | 0 <= i < |rest|
      ensures ValidGroup(rest[i])
    {
      if i < k {
        assert rest[i] == gs[i];
      } else {
        assert rest[i] == gs[i + 1];
      }
    }
  }

  /** Putting one more valid group in front of a partition. */
  lemma PartitionCons(g: Group, gs: seq<Group>, m: multiset<Card>)
    requires ValidGroup(g) && IsPartition(gs, m)
    ensures IsPartition([g] + gs, Tiles(g) + m)
  {
    var all := [g] + gs;
    assert all[1..] == gs;
    forall i | 0 <= i < |all|
      ensures ValidGroup(all[i])
    {
      if i > 0 {
        assert all[i] == gs[i - 1];
      }
    }
  }
}
