/**
 * The wall: building the deck from the rule, shuffling, dealing the starting hands round by
 * round, drawing from the end of the wall and discarding onto the pile.
 */
module DeckManager {
  import opened Results
  import opened Cards
  import opened Players
  import Rule
  import opened Shuffling
  import opened GameStates

  /** `create_initial_deck(rule)`: the rule's deck; with no rule the method lookup on `None` raises `AttributeError`. */
  method CreateInitialDeck(rule: Option<Rule.RuleConfig>) returns (r: Result<seq<Card>, Raised>)
    ensures r.Failure? <==> rule.None?
    ensures r.Failure? ==> r.error == AttributeError
    ensures r.Success? ==> r.value == Rule.StandardDeck() && |r.value| == 136
  {
    if rule.None? {
      return Failure(AttributeError);
    }
    var deck := Rule.CreateInitialDeck();
    return Success(deck);
  }

  /** `shuffle(deck)`: a shuffled copy; the argument, a value here, is left as it was. */
  function Shuffle(deck: seq<Card>, pick: nat -> nat): (r: seq<Card>)
    ensures |r| == |deck| && multiset(r) == multiset(deck)
  {
    ShuffledPermutes(deck, pick);
    Shuffled(deck, pick)
  }

  /** With draws that always take the top of the range the copy keeps the order of the deck. */
  lemma ShuffleIdentity(deck: seq<Card>, pick: nat -> nat)
    requires forall i :: pick(i) == i
    ensures Shuffle(deck, pick) == deck
  {
    ShuffledIdentity(deck, pick);
  }

  /** The seat of the first player marked dealer, as `next(p for p in players if p.is_dealer)` finds it. */
  function FirstDealer(ps: seq<Player>): (r: Option<nat>)
    ensures r.Some? ==> r.value < |ps| && ps[r.value].isDealer && forall k :: 0 <= k < r.value ==> !ps[k].isDealer
    ensures r.None? ==> forall k :: 0 <= k < |ps| ==> !ps[k].isDealer
  {
    if ps == [] then None
    else if ps[0].isDealer then Some(0)
    else match FirstDealer(ps[1..])
      case None => None
      case Some(k) => Some(k + 1)
  }

  /**
   * The tiles seat `j` of `n` receives among the first `c` pops of the round-by-round deal:
   * pop number `c` (from 0) takes the tile at index `|d| - 1 - c` and goes to seat `c % n`.
   */
  function Dealt(d: seq<Card>, n: nat, j: nat, c: nat): (r: seq<Card>)
    requires c <= |d|
  {
    if c == 0 || n == 0 then []
    else Dealt(d, n, j, c - 1) + (if (c - 1) % n == j then [d[|d| - c]] else [])
  }

  /** The players after the first `c` pops of the deal: each hand extended by the tiles dealt to its seat. */
  function DealtHands(ps: seq<Player>, d: seq<Card>, c: nat): seq<Player>
    requires c <= |d|
  {
    seq(|ps|, j requires 0 <= j < |ps| => ps[j].(hand := ps[j].hand + Dealt(d, |ps|, j, c)))
  }

  /** Where a deal ends: the players, the wall, and whether `deal` returned or raised. */
  datatype Dealing = Dealing(players: seq<Player>, deck: seq<Card>, outcome: Outcome<Raised>)

  /**
   * `deal` as a value. `starting_tiles` rounds give one tile to each player in seat order; a
   * pop from an empty wall raises `IndexError` with every tile already handed out. Then comes
   * the dealer's extra tile.
   */
  function DealSpec(rule: Rule.RuleConfig, ps: seq<Player>, d: seq<Card>): Dealing
  {
    var need := rule.startingTiles * |ps|;
    if |d| < need then Dealing(DealtHands(ps, d, |d|), [], Fail(IndexError))
    else ExtraTile(rule.dealerExtraTile, DealtHands(ps, d, need), d[..|d| - need])
  }

  /**
   * The end of `deal`: when the rule gives the dealer an extra tile, the first dealer takes
   * one more from the end of the wall; no dealer raises `StopIteration`, an empty wall
   * `IndexError`.
   */
  function ExtraTile(extra: bool, ps: seq<Player>, wall: seq<Card>): Dealing
  {
    if !extra then Dealing(ps, wall, Pass)
    else match FirstDealer(ps)
      case None => Dealing(ps, wall, Fail(StopIteration))
      case Some(i) =>
        if wall == [] then Dealing(ps, wall, Fail(IndexError))
        else Dealing(ps[i := ps[i].(hand := ps[i].hand + [wall[|wall| - 1]])], wall[..|wall| - 1], Pass)
  }

  /** Pop number `t * n + j` of the deal goes to seat `j`. */
  lemma ModOf(t: nat, n: nat, j: nat)
    requires j < n
    ensures (t * n + j) % n == j
  {
    var x := t * n + j;
    var q, r := x / n, x % n;
    assert x == q * n + r && 0 <= r < n;
    if q < t {
      assert (q + 1) * n == q * n + n;
      MulLe(q + 1, t, n);
    } else if q > t {
      assert (t + 1) * n == t * n + n;
      MulLe(t + 1, q, n);
    }
  }

  lemma MulLe(a: nat, b: nat, n: nat)
    requires a <= b
    ensures a * n <= b * n
  {
  }

  lemma RoundBound(t: nat, j: nat, n: nat, rounds: nat)
    requires t < rounds && j < n
    ensures t * n + j < rounds * n
  {
    assert t * n + j < t * n + n == (t + 1) * n;
    assert (t + 1) * n <= rounds * n;
  }

  /** One more pop appends the tile to the hand of seat `c % n`. */
  lemma DealtHandsStep(ps: seq<Player>, d: seq<Card>, c: nat)
    requires c < |d| && ps != []
    ensures DealtHands(ps, d, c + 1) ==
      DealtHands(ps, d, c)[c % |ps| := DealtHands(ps, d, c)[c % |ps|].(hand := DealtHands(ps, d, c)[c % |ps|].hand + [d[|d| - 1 - c]])]
  {
    var before, after := DealtHands(ps, d, c), DealtHands(ps, d, c + 1);
    var k := c % |ps|;
    var want := before[k := before[k].(hand := before[k].hand + [d[|d| - 1 - c]])];
    forall j | 0 <= j < |ps|
      ensures after[j] == want[j]
    {
      assert Dealt(d, |ps|, j, c + 1) == Dealt(d, |ps|, j, c) + (if c % |ps| == j then [d[|d| - (c + 1)]] else []);
    }
  }

  /** Before the first pop every hand is as it was. */
  lemma DealtHandsNone(ps: seq<Player>, d: seq<Card>)
    ensures DealtHands(ps, d, 0) == ps
  {
    forall j | 0 <= j < |ps|
      ensures DealtHands(ps, d, 0)[j] == ps[j]
    {
      assert ps[j].hand + [] == ps[j].hand;
    }
  }

  /**
   * `deal(game_state)`, in place on the game state's players and wall. With no rule the read of
   * `starting_tiles` raises `AttributeError` before anything changes; otherwise the players,
   * the wall and the outcome are those of `DealSpec`.
   */
  method Deal(gs: GameState) returns (r: Outcome<Raised>)
    modifies gs`players, gs`deck
    ensures gs.rule.None? ==> r == Fail(AttributeError) && gs.players == old(gs.players) && gs.deck == old(gs.deck)
    ensures gs.rule.Some? ==> Dealing(gs.players, gs.deck, r) == DealSpec(gs.rule.value, old(gs.players), old(gs.deck))
  {
    if gs.rule.None? {
      return Fail(AttributeError);
    }
    var rule := gs.rule.value;
    var n := |gs.players|;
    ghost var P, D := gs.players, gs.deck;
    DealtHandsNone(P, D);
    for t := 0 to rule.startingTiles
      invariant |gs.players| == n && t * n <= |D|
      invariant gs.deck == D[..|D| - t * n]
      invariant gs.players == DealtHands(P, D, t * n)
    {
      var served := DealRound(gs, P, D, t);
      if !served {
        assert (t + 1) * n <= rule.startingTiles * n by { MulLe(t + 1, rule.startingTiles, n); }
        return Fail(IndexError);
      }
    }
    if rule.dealerExtraTile {
      r := GiveDealerExtra(gs);
      return;
    }
    return Pass;
  }

  /**
   * Round `t` of `deal`: each player in seat order takes the tile at the end of the wall; an
   * empty wall raises `IndexError` part-way, with every tile already handed out.
   */
  method DealRound(gs: GameState, ghost P: seq<Player>, ghost D: seq<Card>, t: nat) returns (served: bool)
    requires |gs.players| == |P| && t * |P| <= |D|
    requires gs.deck == D[..|D| - t * |P|] && gs.players == DealtHands(P, D, t * |P|)
    modifies gs`players, gs`deck
    ensures |gs.players| == |P|
    ensures served ==> (t + 1) * |P| <= |D| && gs.deck == D[..|D| - (t + 1) * |P|] && gs.players == DealtHands(P, D, (t + 1) * |P|)
    ensures !served ==> |D| < (t + 1) * |P| && gs.deck == [] && gs.players == DealtHands(P, D, |D|)
  {
    var n := |gs.players|;
    for j := 0 to n
      invariant |gs.players| == n && t * n + j <= |D|
      invariant gs.deck == D[..|D| - (t * n + j)]
      invariant gs.players == DealtHands(P, D, t * n + j)
    {
      if |gs.deck| == 0 {
        return false;
      }
      var card := gs.deck[|gs.deck| - 1];
      gs.deck := gs.deck[..|gs.deck| - 1];
      ModOf(t, n, j);
      DealtHandsStep(P, D, t * n + j);
      gs.players := gs.players[j := gs.players[j].(hand := gs.players[j].hand + [card])];
    }
    assert t * n + n == (t + 1) * n;
    return true;
  }

  /** The dealer's extra tile: the first dealer pops one more tile from the end of the wall. */
  method GiveDealerExtra(gs: GameState) returns (r: Outcome<Raised>)
    modifies gs`players, gs`deck
    ensures Dealing(gs.players, gs.deck, r) == ExtraTile(true, old(gs.players), old(gs.deck))
  {
    var dealer := FirstDealer(gs.players);
    if dealer.None? {
      return Fail(StopIteration);
    }
    if |gs.deck| == 0 {
      return Fail(IndexError);
    }
    var i := dealer.value;
    var card := gs.deck[|gs.deck| - 1];
    gs.deck := gs.deck[..|gs.deck| - 1];
    gs.players := gs.players[i := gs.players[i].(hand := gs.players[i].hand + [card])];
    return Pass;
  }

  /** The seat number of pop `t * n + i`: after `t` full rounds and `i` more pops, seat `j` holds `t` tiles, or `t + 1` if it came before seat `i`. */
  lemma {:induction false} DealtCount(d: seq<Card>, n: nat, j: nat, t: nat, i: nat)
    requires j < n && i <= n && t * n + i <= |d|
    ensures |Dealt(d, n, j, t * n + i)| == t + (if j < i then 1 else 0)
    decreases t, i
  {
    if i > 0 {
      DealtCount(d, n, j, t, i - 1);
      ModOf(t, n, i - 1);
    } else if t > 0 {
      assert t * n == (t - 1) * n + n;
      DealtCount(d, n, j, t - 1, n);
    }
  }

  /** Dealing never changes who is dealer, so the dealer found afterwards is the one found before. */
  lemma {:induction false} FirstDealerSame(ps: seq<Player>, qs: seq<Player>)
    requires |ps| == |qs| && forall j :: 0 <= j < |ps| ==> qs[j].isDealer == ps[j].isDealer
    ensures FirstDealer(qs) == FirstDealer(ps)
  {
    if ps != [] {
      FirstDealerSame(ps[1..], qs[1..]);
    }
  }

  lemma BagMove(hands: multiset<Card>, wall: multiset<Card>, hands': multiset<Card>, wall': multiset<Card>, x: Card)
    requires hands' == hands + multiset{x} && wall == wall' + multiset{x}
    ensures hands' + wall' == hands + wall
  {
  }

  /** Pop `k + 1` puts the wall's last tile into some hand. */
  lemma PopStep(ps: seq<Player>, d: seq<Card>, k: nat)
    requires k < |d| && ps != []
    ensures HandsBag(DealtHands(ps, d, k + 1)) == HandsBag(DealtHands(ps, d, k)) + multiset{d[|d| - 1 - k]}
  {
    var before, x := DealtHands(ps, d, k), d[|d| - 1 - k];
    var j := k % |ps|;
    DealtHandsStep(ps, d, k);
    assert DealtHands(ps, d, k + 1) == before[j := before[j].(hand := before[j].hand + [x])];
    HandsBagAppend(before, j, x);
  }

  /** Pop `k + 1` takes the wall's last tile off it. */
  lemma WallStep(d: seq<Card>, k: nat)
    requires k < |d|
    ensures multiset(d[..|d| - k]) == multiset(d[..|d| - (k + 1)]) + multiset{d[|d| - 1 - k]}
  {
    assert d[..|d| - k] == d[..|d| - (k + 1)] + [d[|d| - 1 - k]];
  }

  /** Each pop moves one tile from the wall to a hand: hands plus wall stay the same tiles. */
  lemma {:induction false} DealtHandsBag(ps: seq<Player>, d: seq<Card>, c: nat)
    requires c <= |d| && (ps != [] || c == 0)
    ensures HandsBag(DealtHands(ps, d, c)) + multiset(d[..|d| - c]) == HandsBag(ps) + multiset(d)
  {
    if c == 0 {
      NoneDealtBag(ps, d);
    } else {
      var k := c - 1;
      DealtHandsBag(ps, d, k);
      MoveOne(ps, d, k);
    }
  }

  lemma NoneDealtBag(ps: seq<Player>, d: seq<Card>)
    ensures HandsBag(DealtHands(ps, d, 0)) + multiset(d[..|d| - 0]) == HandsBag(ps) + multiset(d)
  {
    DealtHandsNone(ps, d);
    assert d[..|d| - 0] == d;
  }

  /** Pop `k + 1` keeps hands plus wall the same. */
  lemma MoveOne(ps: seq<Player>, d: seq<Card>, k: nat)
    requires k < |d| && ps != []
    ensures HandsBag(DealtHands(ps, d, k + 1)) + multiset(d[..|d| - (k + 1)])
      == HandsBag(DealtHands(ps, d, k)) + multiset(d[..|d| - k])
  {
    PopStep(ps, d, k);
    WallStep(d, k);
    BagMove(HandsBag(DealtHands(ps, d, k)), multiset(d[..|d| - k]),
      HandsBag(DealtHands(ps, d, k + 1)), multiset(d[..|d| - (k + 1)]), d[|d| - 1 - k]);
  }

  /** `deal` neither creates nor loses tiles, whether it returns or raises part-way. */
  lemma DealConserves(rule: Rule.RuleConfig, ps: seq<Player>, d: seq<Card>)
    ensures HandsBag(DealSpec(rule, ps, d).players) + multiset(DealSpec(rule, ps, d).deck) == HandsBag(ps) + multiset(d)
  {
    var need := rule.startingTiles * |ps|;
    var r := DealSpec(rule, ps, d);
    if |d| < need {
      assert r == Dealing(DealtHands(ps, d, |d|), [], Fail(IndexError));
      ShortWallConserves(ps, d);
    } else {
      var dealt, wall := DealtHands(ps, d, need), d[..|d| - need];
      assert r == ExtraTile(rule.dealerExtraTile, dealt, wall);
      DealtHandsBag(ps, d, need);
      ExtraTileConserves(rule.dealerExtraTile, dealt, wall);
    }
  }

  /** A wall that runs out hands every tile to the players and is left empty. */
  lemma ShortWallConserves(ps: seq<Player>, d: seq<Card>)
    requires ps != []
    ensures HandsBag(DealtHands(ps, d, |d|)) == HandsBag(ps) + multiset(d)
  {
    DealtHandsBag(ps, d, |d|);
    assert d[..|d| - |d|] == [];
  }

  /** The dealer's extra tile moves from the end of the wall into the dealer's hand. */
  lemma ExtraTileConserves(extra: bool, ps: seq<Player>, wall: seq<Card>)
    ensures HandsBag(ExtraTile(extra, ps, wall).players) + multiset(ExtraTile(extra, ps, wall).deck) == HandsBag(ps) + multiset(wall)
  {
    var dealer := FirstDealer(ps);
    if extra && dealer.Some? && wall != [] {
      var i, x, rest := dealer.value, wall[|wall| - 1], wall[..|wall| - 1];
      var after := ps[i := ps[i].(hand := ps[i].hand + [x])];
      assert ExtraTile(extra, ps, wall) == Dealing(after, rest, Pass);
      HandsBagAppend(ps, i, x);
      LastOff(wall);
      BagMove(HandsBag(ps), multiset(wall), HandsBag(after), multiset(rest), x);
    } else {
      assert ExtraTile(extra, ps, wall).players == ps && ExtraTile(extra, ps, wall).deck == wall;
    }
  }

  /** Popping from a wall takes its last tile off. */
  lemma LastOff(wall: seq<Card>)
    requires wall != []
    ensures multiset(wall) == multiset(wall[..|wall| - 1]) + multiset{wall[|wall| - 1]}
  {
    assert wall == wall[..|wall| - 1] + [wall[|wall| - 1]];
  }

  /**
   * Only hands change, and only by growing at the end: every player keeps all other fields
   * and the tiles held before the deal.
   */
  lemma DealExtendsHands(rule: Rule.RuleConfig, ps: seq<Player>, d: seq<Card>)
    ensures |DealSpec(rule, ps, d).players| == |ps|
    ensures forall j :: 0 <= j < |ps| ==>
      var q := DealSpec(rule, ps, d).players[j];
      q == ps[j].(hand := q.hand) && ps[j].hand <= q.hand
  {
  }

  /**
   * When and how `deal` raises: `IndexError` when the wall is shorter than `starting_tiles`
   * tiles per player, or exactly that long when a dealer is owed an extra tile;
   * `StopIteration` when an extra tile is owed and no player is dealer.
   */
  lemma DealOutcome(rule: Rule.RuleConfig, ps: seq<Player>, d: seq<Card>)
    ensures var need := rule.startingTiles * |ps|;
      DealSpec(rule, ps, d).outcome == Fail(IndexError) <==>
        |d| < need || (rule.dealerExtraTile && FirstDealer(ps).Some? && |d| == need)
    ensures var need := rule.startingTiles * |ps|;
      DealSpec(rule, ps, d).outcome == Fail(StopIteration) <==>
        need <= |d| && rule.dealerExtraTile && FirstDealer(ps).None?
    ensures DealSpec(rule, ps, d).outcome.Fail? ==> DealSpec(rule, ps, d).outcome.error in {IndexError, StopIteration}
  {
    var need := rule.startingTiles * |ps|;
    if need <= |d| {
      FirstDealerSame(ps, DealtHands(ps, d, need));
    }
  }

  /**
   * A complete deal: every player gets `starting_tiles` tiles, the first dealer one more when
   * the rule says so, and the wall shrinks by as many.
   */
  lemma DealCounts(rule: Rule.RuleConfig, ps: seq<Player>, d: seq<Card>)
    requires DealSpec(rule, ps, d).outcome == Pass
    ensures var extra := if rule.dealerExtraTile then 1 else 0;
      |DealSpec(rule, ps, d).deck| == |d| - rule.startingTiles * |ps| - extra
    ensures |DealSpec(rule, ps, d).players| == |ps|
    ensures forall j :: 0 <= j < |ps| ==>
      |DealSpec(rule, ps, d).players[j].hand| ==
        |ps[j].hand| + rule.startingTiles + (if rule.dealerExtraTile && FirstDealer(ps) == Some(j) then 1 else 0)
  {
    var need := rule.startingTiles * |ps|;
    FullWall(rule, ps, d);
    assert 0 <= need <= |d|;
    var dealt, wall := DealtHands(ps, d, need), d[..|d| - need];
    RoundsCount(ps, d, rule.startingTiles);
    FirstDealerSame(ps, dealt);
    ExtraTileCounts(rule.dealerExtraTile, dealt, wall);
  }

  /** A deal that returns had tiles enough for every round and then handed out the extra tile. */
  lemma FullWall(rule: Rule.RuleConfig, ps: seq<Player>, d: seq<Card>)
    requires DealSpec(rule, ps, d).outcome == Pass
    ensures 0 <= rule.startingTiles * |ps| <= |d|
    ensures DealSpec(rule, ps, d) ==
      ExtraTile(rule.dealerExtraTile, DealtHands(ps, d, rule.startingTiles * |ps|), d[..|d| - rule.startingTiles * |ps|])
  {
  }

  /** After `rounds` full rounds every hand has grown by `rounds` tiles and nothing else has changed. */
  lemma RoundsCount(ps: seq<Player>, d: seq<Card>, rounds: nat)
    requires rounds * |ps| <= |d|
    ensures |DealtHands(ps, d, rounds * |ps|)| == |ps|
    ensures forall j :: 0 <= j < |ps| ==>
      var q := DealtHands(ps, d, rounds * |ps|)[j];
      q == ps[j].(hand := q.hand) && |q.hand| == |ps[j].hand| + rounds
  {
    forall j | 0 <= j < |ps|
      ensures |Dealt(d, |ps|, j, rounds * |ps|)| == rounds
    {
      DealtCount(d, |ps|, j, rounds, 0);
    }
  }

  /** A dealer's extra tile that is handed out adds one tile to the first dealer's hand and takes one off the wall. */
  lemma ExtraTileCounts(extra: bool, ps: seq<Player>, wall: seq<Card>)
    requires ExtraTile(extra, ps, wall).outcome == Pass
    ensures |ExtraTile(extra, ps, wall).deck| == |wall| - (if extra then 1 else 0)
    ensures |ExtraTile(extra, ps, wall).players| == |ps|
    ensures forall j :: 0 <= j < |ps| ==>
      var q := ExtraTile(extra, ps, wall).players[j];
      q == ps[j].(hand := q.hand) && |q.hand| == |ps[j].hand| + (if extra && FirstDealer(ps) == Some(j) then 1 else 0)
  {
  }

  /**
   * Under the Tencent rule four players with a dealer and a full 136-tile wall always deal
   * through: 13 tiles each, 14 for the dealer, and 83 tiles left in the wall.
   */
  lemma TencentDeal(ps: seq<Player>, d: seq<Card>)
    requires |ps| == 4 && |d| == 136 && FirstDealer(ps).Some?
    ensures DealSpec(Rule.TencentCommonRule(), ps, d).outcome == Pass
    ensures |DealSpec(Rule.TencentCommonRule(), ps, d).deck| == 83
    ensures forall j :: 0 <= j < 4 ==>
      |DealSpec(Rule.TencentCommonRule(), ps, d).players[j].hand| ==
        |ps[j].hand| + (if FirstDealer(ps) == Some(j) then 14 else 13)
  {
    var rule := Rule.TencentCommonRule();
    DealOutcome(rule, ps, d);
    DealCounts(rule, ps, d);
  }

  /** `draw_card`: `None` from an empty wall, which stays empty; otherwise the last tile, popped. */
  method DrawCard(gs: GameState) returns (c: Option<Card>)
    modifies gs`deck
    ensures old(gs.deck) == [] ==> c == None && gs.deck == old(gs.deck)
    ensures old(gs.deck) != [] ==> c.Some? && old(gs.deck) == gs.deck + [c.value]
  {
    if |gs.deck| == 0 {
      return None;
    }
    c := Some(gs.deck[|gs.deck| - 1]);
    gs.deck := gs.deck[..|gs.deck| - 1];
  }

  /** `discard_card`: the tile goes on the discard pile and, as a bare tile, becomes the last discard. */
  method DiscardCard(gs: GameState, card: Card)
    modifies gs`discardPile, gs`lastDiscard
    ensures gs.discardPile == old(gs.discardPile) + [card]
    ensures gs.lastDiscard == Some(BareCard(card))
  {
    gs.discardPile := gs.discardPile + [card];
    gs.lastDiscard := Some(BareCard(card));
  }

  /** `discard_card` as the action rules read its result: the last discard records the tile and the seat that threw it. */
  method DiscardCardFrom(gs: GameState, card: Card, from: PlayerRef)
    modifies gs`discardPile, gs`lastDiscard
    ensures gs.discardPile == old(gs.discardPile) + [card]
    ensures gs.lastDiscard == Some(Claim(card, Some(from)))
  {
    gs.discardPile := gs.discardPile + [card];
    gs.lastDiscard := Some(Claim(card, Some(from)));
  }

  /**
   * `shuffle_and_deal`: builds the rule's deck (`AttributeError` with no rule, before anything
   * changes), installs a shuffled copy as the wall and deals from it.
   */
  method ShuffleAndDeal(gs: GameState, pick: nat -> nat) returns (r: Outcome<Raised>)
    modifies gs`players, gs`deck
    ensures gs.rule.None? ==> r == Fail(AttributeError) && gs.players == old(gs.players) && gs.deck == old(gs.deck)
    ensures gs.rule.Some? ==>
      Dealing(gs.players, gs.deck, r) == DealSpec(gs.rule.value, old(gs.players), Shuffle(Rule.StandardDeck(), pick))
  {
    var initial := CreateInitialDeck(gs.rule);
    if initial.Failure? {
      return Fail(initial.error);
    }
    var shuffled := Shuffle(initial.value, pick);
    gs.deck := shuffled;
    r := Deal(gs);
  }

  /**
   * A new Tencent game of four with a dealer: the deal completes, 83 tiles stay in the wall,
   * and the wall plus the new tiles in hand are exactly the 136 tiles of the set.
   */
  lemma TencentShuffleAndDeal(ps: seq<Player>, pick: nat -> nat)
    requires |ps| == 4 && FirstDealer(ps).Some?
    ensures var dealt := DealSpec(Rule.TencentCommonRule(), ps, Shuffle(Rule.StandardDeck(), pick));
      dealt.outcome == Pass && |dealt.deck| == 83 &&
      HandsBag(dealt.players) + multiset(dealt.deck) == HandsBag(ps) + multiset(Rule.StandardDeck())
  {
    var d := Shuffle(Rule.StandardDeck(), pick);
    TencentDeal(ps, d);
    DealConserves(Rule.TencentCommonRule(), ps, d);
  }
}
