/**
 * The Tencent common rule object: its claim, win, score and action queries hand over to the
 * action, hu and score rules built for its own configuration `TencentCommonRule()`.
 */
module TencentRule {
  import opened Results
  import opened Cards
  import opened Players
  import opened Rule
  import opened TileOrder
  import opened MeldShapes
  import opened GameStates
  import HuRules
  import ScoreRules
  import ActionRules

  /**
   * `can_chow`: the tile comes from the `next_player` seat, is a numeral tile, the hand holds
   * only its suit, and two held tiles complete a run with it.
   */
  function CanChow(p: Player, card: Card, from: Option<PlayerRef>): (b: bool)
    ensures b <==> (p.nextPlayer == from && IsNumeral(card.suit)
                    && (forall c :: c in p.hand ==> c.suit == card.suit)
                    && ActionRules.CompletesRun(p.hand, card))
  {
    ActionRules.ChowAllowedMeaning(p, card, from);
    ActionRules.ChowAllowed(p, card, from)
  }

  /** `can_pong`: the hand holds the tile at least twice. */
  function CanPong(p: Player, card: Card, from: Option<PlayerRef>): (b: bool)
    ensures b <==> multiset(p.hand)[card] >= 2
  {
    ActionRules.PongKongMeaning(p, card, from);
    ActionRules.PongAllowed(p, card, from)
  }

  /** `can_kong`: three copies in hand for a discarded tile, four for a concealed kong. */
  function CanKong(p: Player, card: Card, from: Option<PlayerRef>): (b: bool)
    ensures b <==> multiset(p.hand)[card] == if from.Some? then 3 else 4
  {
    ActionRules.PongKongMeaning(p, card, from);
    ActionRules.KongAllowed(p, card, from)
  }

  /**
   * `can_hu`: with at most 10 fans the fan gate always passes, so a tile wins exactly when it
   * completes a winning shape; a tile without sort key raises `KeyError`.
   */
  method CanHu(p: Player, card: Card) returns (r: Result<bool, Raised>)
    ensures r.Failure? <==> exists c :: c in p.hand + [card] && !Keyed(c)
    ensures r.Failure? ==> r.error == KeyError
    ensures r.Success? ==> (r.value <==> WinningShape(multiset(p.hand + [card])))
  {
    r := HuRules.CanHu(TencentCommonRule(), p, card);
    HuRules.CanHuMeaning(TencentCommonRule(), p, card);
    HuRules.BasicHuMeaning(p.hand, card);
  }

  /** `calculate_score`: 2 to the power of the capped fan count, so between 4 and 1024. */
  function CalculateScore(p: Player, winning: Card): (r: nat)
    ensures 4 <= r <= 1024
    ensures r == ScoreRules.Pow2(ScoreRules.Fans(TencentCommonRule(), p, winning))
  {
    ScoreRules.TencentScoreRange(p, winning);
    ScoreRules.Score(TencentCommonRule(), p, winning)
  }

  /**
   * `get_valid_actions` under this rule, where every claim and both wins are enabled: a built list
   * starts with "discard", is in the order discard, chow, pong, kong, hu, and offers each claim
   * exactly when the hand allows it on the last discard.
   */
  method GetValidActions(p: Player, gs: GameState) returns (r: Result<seq<ActionRules.ActionName>, Raised>)
    ensures r == ActionRules.ValidActions(TencentCommonRule(), p, gs.lastDiscard)
    ensures r.Success? ==> r.value[0] == ActionRules.Discard && ActionRules.InOrder(r.value)
    ensures r.Success? && gs.lastDiscard.Some? ==>
      (ActionRules.Chow in r.value <==> CanChow(p, gs.lastDiscard.value.card, gs.lastDiscard.value.fromPlayer))
      && (ActionRules.Pong in r.value <==> CanPong(p, gs.lastDiscard.value.card, gs.lastDiscard.value.fromPlayer))
      && (ActionRules.Kong in r.value <==> CanKong(p, gs.lastDiscard.value.card, gs.lastDiscard.value.fromPlayer))
  {
    r := ActionRules.GetValidActions(TencentCommonRule(), p, gs);
    if r.Success? {
      ActionRules.ValidActionsClaims(TencentCommonRule(), p, gs.lastDiscard);
      ActionRules.ValidActionsOrder(TencentCommonRule(), p, gs.lastDiscard);
    }
  }
}
