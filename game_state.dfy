/** The state of one game: the wall, the discards, the players and the rule in force. */
module GameStates {
  import opened Results
  import opened Cards
  import opened Players
  import opened Rule
  import opened Shuffling

  /** `game_stage`: "init", "playing" or "ended". */
  datatype Stage = Init | Playing | Ended

  /**
   * What `last_discarded_card` holds. `discard_card` stores the bare tile; `get_valid_actions`
   * reads a record with the tile and the seat it came from, as an action object carries them.
   */
  datatype LastDiscard = BareCard(card: Card) | Claim(card: Card, fromPlayer: Option<PlayerRef>)

  /** The smaller of `k` and `size`: how many of `k` pops a wall of `size` tiles can serve. */
  function Upto(k: nat, size: nat): (r: nat)
    ensures r <= k && r <= size && (r == k || r == size)
  {
    if k < size then k else size
  }

  /** The tiles of pops number `a` to `b - 1` from the end of `d`, in the order they are popped. */
  function Popped(d: seq<Card>, a: nat, b: nat): (r: seq<Card>)
    requires a <= b <= |d|
    ensures |r| == b - a
    ensures forall k :: 0 <= k < b - a ==> r[k] == d[|d| - 1 - (a + k)]
    decreases b - a
  {
    if a == b then [] else Popped(d, a, b - 1) + [d[|d| - b]]
  }

  /** The tiles popped from `a` to `b` and the wall left after `b` pops make up the wall left after `a` pops. */
  lemma {:induction false} PoppedBag(d: seq<Card>, a: nat, b: nat)
    requires a <= b <= |d|
    ensures multiset(Popped(d, a, b)) + multiset(d[..|d| - b]) == multiset(d[..|d| - a])
    decreases b - a
  {
    if a < b {
      PoppedBag(d, a, b - 1);
      assert d[..|d| - (b - 1)] == d[..|d| - b] + [d[|d| - b]];
    }
  }

  /** One more pop hands over the tile now at the end of the wall. */
  lemma PopOne(d: seq<Card>, a: nat, b: nat)
    requires a <= b < |d|
    ensures Popped(d, a, b + 1) == Popped(d, a, b) + [d[..|d| - b][|d| - b - 1]]
    ensures d[..|d| - b][..|d| - b - 1] == d[..|d| - (b + 1)]
  {
  }

  /** The tiles of the initial deal for seat `j`: pops 13j to 13j + 12 of the shuffled wall, as far as it lasts. */
  function InitialHand(s: seq<Card>, j: nat): seq<Card>
  {
    Popped(s, Upto(13 * j, |s|), Upto(13 * j + 13, |s|))
  }

  /** Every player of `ps` with the hand of the initial deal from wall `s`, the other fields as they were. */
  function DealtPlayers(ps: seq<Player>, s: seq<Card>): (r: seq<Player>)
    ensures |r| == |ps|
    ensures forall j :: 0 <= j < |ps| ==> r[j] == ps[j].(hand := InitialHand(s, j))
  {
    seq(|ps|, j requires 0 <= j < |ps| => ps[j].(hand := InitialHand(s, j)))
  }

  /** What is left of wall `s` after the initial deal to `n` players. */
  function WallAfterDeal(s: seq<Card>, n: nat): seq<Card>
  {
    s[..|s| - Upto(13 * n, |s|)]
  }

  class GameState {
    var ruleName: string
    var deck: seq<Card>
    var discardPile: seq<Card>
    var players: seq<Player>
    var currentPlayer: Option<PlayerRef>
    var lastDiscard: Option<LastDiscard>
    var stage: Stage
    var winner: Option<PlayerRef>
    var roundNumber: int
    var wind: string
    var rule: Option<RuleConfig>

    /**
     * `GameState(players=None, rule=None, rule_name="tencent_common")`: an empty wall and
     * discard pile, no current player, no last discard, stage "init", no winner, round 1, the
     * east wind; an absent player list becomes the empty list.
     */
    constructor(players: Option<seq<Player>> := None, rule: Option<RuleConfig> := None, ruleName: string := "tencent_common")
      ensures this.ruleName == ruleName && this.rule == rule
      ensures this.players == (if players.Some? then players.value else [])
      ensures deck == [] && discardPile == []
      ensures currentPlayer == None && lastDiscard == None && winner == None
      ensures stage == Init && roundNumber == 1 && wind == "东"
    {
      this.ruleName := ruleName;
      deck := [];
      discardPile := [];
      this.players := if players.Some? then players.value else [];
      currentPlayer := None;
      lastDiscard := None;
      stage := Init;
      winner := None;
      roundNumber := 1;
      wind := "东";
      this.rule := rule;
    }

    /**
     * `initialize_game`: takes the Tencent rule when none is set, builds the 136-tile deck,
     * shuffles it with the draws `pick`, then deals the initial hands. Seat 0 becomes the
     * current player and the stage "playing"; with no players the lookup of seat 0 raises
     * `IndexError` after the deal.
     */
    method InitializeGame(pick: nat -> nat) returns (r: Outcome<Raised>)
      modifies this
      ensures rule == (if old(rule).Some? then old(rule) else Some(TencentCommonRule()))
      ensures players == DealtPlayers(old(players), Shuffled(StandardDeck(), pick))
      ensures deck == WallAfterDeal(Shuffled(StandardDeck(), pick), |players|)
      ensures r.Fail? <==> |players| == 0
      ensures r.Fail? ==> r.error == IndexError && currentPlayer == old(currentPlayer) && stage == old(stage)
      ensures r.Pass? ==> currentPlayer == Some(0) && stage == Playing
      ensures ruleName == old(ruleName) && discardPile == old(discardPile) && lastDiscard == old(lastDiscard)
      ensures winner == old(winner) && roundNumber == old(roundNumber) && wind == old(wind)
    {
      PrepareWall(pick);
      DealInitialHands();
      if |players| == 0 {
        return Fail(IndexError);
      }
      currentPlayer := Some(0);
      stage := Playing;
      return Pass;
    }

    /** The first steps of `initialize_game`: the rule falls back to Tencent's, and the wall is a shuffled standard deck. */
    method PrepareWall(pick: nat -> nat)
      modifies this`rule, this`deck
      ensures rule == (if old(rule).Some? then old(rule) else Some(TencentCommonRule()))
      ensures deck == Shuffled(StandardDeck(), pick)
    {
      if rule.None? {
        rule := Some(TencentCommonRule());
      }
      deck := CreateInitialDeck();
      deck := Shuffled(deck, pick);
    }

    /**
     * The dealing loop of `initialize_game`: each player in turn gets a new hand of up to 13
     * tiles popped from the end of the wall; once the wall is empty later players get fewer
     * tiles, or none, and nothing is raised.
     */
    method DealInitialHands()
      modifies this`deck, this`players
      ensures players == DealtPlayers(old(players), old(deck))
      ensures deck == WallAfterDeal(old(deck), |players|)
    {
      ghost var s := deck;
      var j := 0;
      while j < |players|
        invariant j <= |players| == |old(players)|
        invariant deck == s[..|s| - Upto(13 * j, |s|)]
        invariant forall k :: 0 <= k < j ==> players[k] == old(players[k]).(hand := InitialHand(s, k))
        invariant forall k :: j <= k < |players| ==> players[k] == old(players[k])
      {
        var hand := DrawHand(s, j);
        players := players[j := players[j].(hand := hand)];
        j := j + 1;
      }
      assert players[..|players|] == players;
      assert players == DealtPlayers(old(players), s);
    }

    /** The inner loop of the deal: up to 13 pops from the end of the wall, while it lasts. */
    method DrawHand(ghost s: seq<Card>, ghost j: nat) returns (hand: seq<Card>)
      requires deck == s[..|s| - Upto(13 * j, |s|)]
      modifies this`deck
      ensures hand == InitialHand(s, j)
      ensures deck == s[..|s| - Upto(13 * j + 13, |s|)]
    {
      hand := [];
      for t := 0 to 13
        invariant deck == s[..|s| - Upto(13 * j + t, |s|)]
        invariant hand == Popped(s, Upto(13 * j, |s|), Upto(13 * j + t, |s|))
      {
        if |deck| > 0 {
          PopOne(s, Upto(13 * j, |s|), Upto(13 * j + t, |s|));
          assert deck == deck[..|deck| - 1] + [deck[|deck| - 1]];
          hand := hand + [deck[|deck| - 1]];
          deck := deck[..|deck| - 1];
        }
      }
    }
  }

  /** Dealing to one more player takes that player's hand off the wall. */
  lemma DealtPlayersPrefix(ps: seq<Player>, s: seq<Card>)
    requires ps != []
    ensures DealtPlayers(ps, s)[..|ps| - 1] == DealtPlayers(ps[..|ps| - 1], s)
  {
  }

  /**
   * The initial deal neither creates nor loses tiles: the hands dealt and the wall left make up
   * the wall dealt from.
   */
  lemma {:induction false} InitialDealConserves(ps: seq<Player>, s: seq<Card>)
    ensures multiset(WallAfterDeal(s, |ps|)) + HandsBag(DealtPlayers(ps, s)) == multiset(s)
    decreases |ps|
  {
    var n := |ps|;
    if n > 0 {
      var init := ps[..n - 1];
      InitialDealConserves(init, s);
      DealtHandsStep(ps, s);
      WallStep(s, n);
      Regroup(multiset(WallAfterDeal(s, n)), multiset(InitialHand(s, n - 1)), multiset(WallAfterDeal(s, n - 1)),
        HandsBag(DealtPlayers(init, s)), HandsBag(DealtPlayers(ps, s)), multiset(s));
    } else {
      assert DealtPlayers(ps, s) == [];
      assert s[..|s|] == s;
    }
  }

  /** The hands of the first n players are those of the first n - 1 plus player n's. */
  lemma DealtHandsStep(ps: seq<Player>, s: seq<Card>)
    requires ps != []
    ensures HandsBag(DealtPlayers(ps, s)) == HandsBag(DealtPlayers(ps[..|ps| - 1], s)) + multiset(InitialHand(s, |ps| - 1))
  {
    DealtPlayersPrefix(ps, s);
  }

  /** Dealing player n's hand takes those tiles off the wall left for player n. */
  lemma WallStep(s: seq<Card>, n: nat)
    requires n > 0
    ensures multiset(WallAfterDeal(s, n)) + multiset(InitialHand(s, n - 1)) == multiset(WallAfterDeal(s, n - 1))
  {
    var a, b := Upto(13 * (n - 1), |s|), Upto(13 * (n - 1) + 13, |s|);
    assert WallAfterDeal(s, n) == s[..|s| - b];
    PoppedBag(s, a, b);
  }

  lemma Regroup(wall: multiset<Card>, hand: multiset<Card>, before: multiset<Card>,
                hands: multiset<Card>, after: multiset<Card>, all: multiset<Card>)
    requires before + hands == all && wall + hand == before && after == hands + hand
    ensures wall + after == all
  {
  }

  /** With at most ten players (4 at the table) every hand gets 13 tiles and 136 - 13n stay in the wall. */
  lemma InitialDealSizes(s: seq<Card>, n: nat, j: nat)
    requires |s| == 136 && j < n <= 10
    ensures |InitialHand(s, j)| == 13
    ensures |s[..136 - Upto(13 * n, 136)]| == 136 - 13 * n
  {
  }

  /** With eleven or more players the wall runs out: seat 10 gets 6 tiles and later seats none. */
  lemma InitialDealShort(s: seq<Card>, j: nat)
    requires |s| == 136 && j >= 10
    ensures |InitialHand(s, j)| == if j == 10 then 6 else 0
  {
  }

  /**
   * `initialize_game` at a table of four: whatever the shuffle, each player holds 13 tiles, 84
   * stay in the wall, and hands and wall together are exactly the 136-tile set.
   */
  lemma TencentInitialDeal(ps: seq<Player>, pick: nat -> nat)
    requires |ps| == 4
    ensures var s := Shuffled(StandardDeck(), pick);
      |WallAfterDeal(s, 4)| == 84
      && (forall j :: 0 <= j < 4 ==> |DealtPlayers(ps, s)[j].hand| == 13)
      && multiset(WallAfterDeal(s, 4)) + HandsBag(DealtPlayers(ps, s)) == multiset(StandardDeck())
  {
    var s := Shuffled(StandardDeck(), pick);
    InitialDealConserves(ps, s);
    ShuffledPermutes(StandardDeck(), pick);
    forall j | 0 <= j < 4
      ensures |DealtPlayers(ps, s)[j].hand| == 13
    {
      InitialDealSizes(s, 4, j);
    }
    InitialDealSizes(s, 4, 0);
  }
}
