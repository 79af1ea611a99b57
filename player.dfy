/** The player record the rules read, and the tiles held across all hands. */
module Players {
  import opened Results
  import opened Cards

  /** Players are compared by identity in Python; here a player is referred to by seat index. */
  type PlayerRef = nat

  /** A player's fields (src/core/data/player.py); `melds` holds the claimed groups of tiles. */
  datatype Player = Player(
    name: string,
    isAi: bool,
    hand: seq<Card>,
    melds: seq<seq<Card>>,
    score: int,
    position: Option<string>,
    isDealer: bool,
    drawnCard: Option<Card>,
    previousPlayer: Option<PlayerRef>,
    nextPlayer: Option<PlayerRef>)

  /** A player as first created: empty hand, no melds, not dealer, nothing drawn, no neighbours. */
  function NewPlayer(name: string, isAi: bool := true): Player
  {
    Player(name, isAi, [], [], 0, None, false, None, None, None)
  }

  /** The multiset of all tiles in the hands of `ps`. */
  function HandsBag(ps: seq<Player>): multiset<Card>
  {
    if ps == [] then multiset{} else HandsBag(ps[..|ps| - 1]) + multiset(ps[|ps| - 1].hand)
  }

  /** Replacing one player's hand exchanges that hand's tiles in the total and leaves the rest. */
  lemma {:induction false} HandsBagUpdate(ps: seq<Player>, j: nat, p: Player)
    requires j < |ps|
    ensures HandsBag(ps[j := p]) + multiset(ps[j].hand) == HandsBag(ps) + multiset(p.hand)
  {
    var qs := ps[j := p];
    if j == |ps| - 1 {
      assert qs[..|qs| - 1] == ps[..|ps| - 1];
    } else {
      var init := ps[..|ps| - 1];
      assert qs[..|qs| - 1] == init[j := p];
      assert init[j] == ps[j];
      HandsBagUpdate(init, j, p);
      var last := multiset(ps[|ps| - 1].hand);
      assert HandsBag(qs) == HandsBag(init[j := p]) + last;
      assert HandsBag(ps) == HandsBag(init) + last;
      calc {
        HandsBag(qs) + multiset(ps[j].hand);
        HandsBag(init[j := p]) + multiset(init[j].hand) + last;
        HandsBag(init) + multiset(p.hand) + last;
      }
    }
  }

  /** Appending a tile to one hand adds exactly that tile to the total. */
  lemma HandsBagAppend(ps: seq<Player>, j: nat, x: Card)
    requires j < |ps|
    ensures HandsBag(ps[j := ps[j].(hand := ps[j].hand + [x])]) == HandsBag(ps) + multiset{x}
  {
    HandsBagUpdate(ps, j, ps[j].(hand := ps[j].hand + [x]));
    assert multiset(ps[j].hand + [x]) == multiset(ps[j].hand) + multiset{x};
    Cancel(HandsBag(ps[j := ps[j].(hand := ps[j].hand + [x])]), HandsBag(ps), multiset(ps[j].hand), multiset{x});
  }

  lemma Cancel(a: multiset<Card>, b: multiset<Card>, o: multiset<Card>, x: multiset<Card>)
    requires a + o == b + (o + x)
    ensures a == b + x
  {
    forall c
      ensures a[c] == (b + x)[c]
    {
      assert (a + o)[c] == (b + (o + x))[c];
    }
  }
}
