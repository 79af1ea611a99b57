/**
 * The Tencent claim rules: which tiles may be chowed (吃), ponged (碰) or konged (杠), and the
 * list of actions offered to a player after a discard or a draw.
 */
module ActionRules {
  import opened Results
  import opened Cards
  import opened Players
  import opened Rule
  import opened TileOrder
  import opened MeldShapes
  import opened GameStates
  import opened HuRules

  /** How many tiles of `hand` equal `card` under `Card.__eq__`. */
  function Count(hand: seq<Card>, card: Card): (n: nat)
    ensures n == multiset(hand)[card]
  {
    if hand == [] then 0
    else
      EqualsIsIdentity(hand[0], Some(card));
      assert hand == [hand[0]] + hand[1..];
      (if Equals(hand[0], Some(card)) then 1 else 0) + Count(hand[1..], card)
  }

  /** Python's `str` of an integer: a minus sign before the digits of a negative number. */
  function IntText(i: int): (t: string)
    ensures |t| >= 1
    ensures i < 0 <==> t[0] == '-'
  {
    if i >= 0 then DecimalText(i) else "-" + DecimalText(-i)
  }

  /** The rank texts that make a run with rank `r`: the two below, one on each side, the two above. */
  function ChowCombos(r: int): seq<set<string>>
  {
    [{IntText(r - 2), IntText(r - 1)}, {IntText(r - 1), IntText(r + 1)}, {IntText(r + 1), IntText(r + 2)}]
  }

  /** A held numeral rank text names a non-negative rank whose tile is held. */
  lemma IntTextHeld(hand: seq<Card>, s: Suit, i: int)
    requires IsNumeral(s)
    ensures IntText(i) in RankSet(hand, s) <==> i >= 0 && Card(s, i) in hand
  {
    if i >= 0 {
      RankSetNumeral(hand, s, i);
    }
  }

  /** The tile `card` and two tiles of `hand` would form a run of three consecutive ranks. */
  predicate CompletesRun(hand: seq<Card>, card: Card)
  {
    var s, r := card.suit, card.rank;
    (r >= 2 && Card(s, r - 2) in hand && Card(s, r - 1) in hand)
    || (r >= 1 && Card(s, r - 1) in hand && Card(s, r + 1) in hand)
    || (Card(s, r + 1) in hand && Card(s, r + 2) in hand)
  }

  /**
   * `can_chow` as written: the tile must come from the seat held in `next_player`, be a numeral
   * tile, the hand may hold no tile of another suit, and the rank texts held in the tile's suit
   * must contain one of the three neighbour pairs.
   */
  predicate ChowAllowed(p: Player, card: Card, from: Option<PlayerRef>)
  {
    if p.nextPlayer != from then false
    else if !IsNumeral(card.suit) || exists c :: c in p.hand && c.suit != card.suit then false
    else
      var combos, ranks := ChowCombos(card.rank), RankSet(p.hand, card.suit);
      exists i :: 0 <= i < 3 && combos[i] <= ranks
  }

  /** `can_chow`: the seat and suit checks, then a search through the three rank pairs. */
  method CanChow(p: Player, card: Card, from: Option<PlayerRef>) returns (b: bool)
    ensures b == ChowAllowed(p, card, from)
  {
    if p.nextPlayer != from {
      return false;
    }
    if !IsNumeral(card.suit) || exists c :: c in p.hand && c.suit != card.suit {
      return false;
    }
    var combos := ChowCombos(card.rank);
    var ranks := RankSet(p.hand, card.suit);
    for i := 0 to 3
      invariant forall k :: 0 <= k < i ==> !(combos[k] <= ranks)
    {
      if combos[i] <= ranks {
        return true;
      }
    }
    return false;
  }

  /**
   * Chow is offered exactly when the tile comes from the `next_player` seat, is a numeral tile,
   * every held tile has its suit, and two held tiles complete a run with it.
   */
  lemma ChowAllowedMeaning(p: Player, card: Card, from: Option<PlayerRef>)
    ensures ChowAllowed(p, card, from) <==>
      p.nextPlayer == from && IsNumeral(card.suit)
      && (forall c :: c in p.hand ==> c.suit == card.suit)
      && CompletesRun(p.hand, card)
  {
    if p.nextPlayer == from && IsNumeral(card.suit) && (forall c :: c in p.hand ==> c.suit == card.suit) {
      var found := ComboSearch(p.hand, card);
    }
  }

  /** The search through the three neighbour pairs succeeds exactly when two held tiles complete a run. */
  lemma ComboSearch(hand: seq<Card>, card: Card) returns (found: bool)
    requires IsNumeral(card.suit)
    ensures found == exists i :: 0 <= i < 3 && ChowCombos(card.rank)[i] <= RankSet(hand, card.suit)
    ensures found == CompletesRun(hand, card)
  {
    var s, r: int := card.suit, card.rank;
    var combos, ranks := ChowCombos(r), RankSet(hand, s);
    var below := PairHeld(hand, s, r - 2, r - 1);
    var around := PairHeld(hand, s, r - 1, r + 1);
    var above := PairHeld(hand, s, r + 1, r + 2);
    assert combos[0] <= ranks <==> below;
    assert combos[1] <= ranks <==> around;
    assert combos[2] <= ranks <==> above;
    found := below || around || above;
    if found {
      var i := if below then 0 else if around then 1 else 2;
      assert combos[i] <= ranks;
    }
  }

  /** A neighbour pair of rank texts is held exactly when both ranks are non-negative and both tiles are held. */
  lemma PairHeld(hand: seq<Card>, s: Suit, a: int, b: int) returns (held: bool)
    requires IsNumeral(s)
    ensures held == ({IntText(a), IntText(b)} <= RankSet(hand, s))
    ensures held <==> a >= 0 && b >= 0 && Card(s, a) in hand && Card(s, b) in hand
  {
    IntTextHeld(hand, s, a);
    IntTextHeld(hand, s, b);
    held := {IntText(a), IntText(b)} <= RankSet(hand, s);
  }

  /** `can_pong`: at least two equal tiles in hand, whoever discarded. */
  predicate PongAllowed(p: Player, card: Card, from: Option<PlayerRef>)
  {
    Count(p.hand, card) >= 2
  }

  /** `can_kong`: three equal tiles in hand for a discard (明杠), four for a concealed kong (暗杠, no source). */
  predicate KongAllowed(p: Player, card: Card, from: Option<PlayerRef>)
  {
    var count := Count(p.hand, card);
    (from.Some? && count == 3) || (from.None? && count == 4)
  }

  /**
   * Pong and kong read the hand as a multiset: pong needs two copies of the tile; a claimed kong
   * three, a concealed one four; and whoever may kong a tile may also pong it.
   */
  lemma PongKongMeaning(p: Player, card: Card, from: Option<PlayerRef>)
    ensures PongAllowed(p, card, from) <==> multiset(p.hand)[card] >= 2
    ensures KongAllowed(p, card, from) <==> multiset(p.hand)[card] == if from.Some? then 3 else 4
    ensures KongAllowed(p, card, from) ==> PongAllowed(p, card, from)
  {
  }

  /** The action names `get_valid_actions` returns: "discard", "chow", "pong", "kong", "hu". */
  datatype ActionName = Discard | Chow | Pong | Kong | Hu

  /** The position of each name in the order the list is built. */
  function Order(a: ActionName): nat
  {
    match a
    case Discard => 0
    case Chow => 1
    case Pong => 2
    case Kong => 3
    case Hu => 4
  }

  /** `[a]` when `b` holds, the empty list otherwise: one conditional `append`. */
  function Opt(b: bool, a: ActionName): seq<ActionName>
  {
    if b then [a] else []
  }

  /** The last discard is a recorded claimable tile (the branch under `if game_state.last_discarded_card`). */
  predicate Claimable(last: Option<LastDiscard>)
  {
    last.Some? && last.value.Claim?
  }

  predicate ChowOffered(rule: RuleConfig, p: Player, last: Option<LastDiscard>)
  {
    Claimable(last) && rule.allowChow && ChowAllowed(p, last.value.card, last.value.fromPlayer)
  }

  predicate PongOffered(rule: RuleConfig, p: Player, last: Option<LastDiscard>)
  {
    Claimable(last) && rule.allowPong && PongAllowed(p, last.value.card, last.value.fromPlayer)
  }

  predicate KongOffered(rule: RuleConfig, p: Player, last: Option<LastDiscard>)
  {
    Claimable(last) && rule.allowKong && KongAllowed(p, last.value.card, last.value.fromPlayer)
  }

  /** The win on a discard (点炮) is checked: there is a recorded discard and the rule allows it. */
  predicate OtherHuChecked(rule: RuleConfig, last: Option<LastDiscard>)
  {
    Claimable(last) && rule.allowOtherHu
  }

  /** The self-drawn win (自摸) is checked: a tile was drawn and the rule allows it. */
  predicate SelfHuChecked(rule: RuleConfig, p: Player)
  {
    p.drawnCard.Some? && rule.allowSelfHu
  }

  /** The hu check on the last discard runs and holds. */
  predicate OtherHuWins(rule: RuleConfig, p: Player, last: Option<LastDiscard>)
  {
    OtherHuChecked(rule, last) && CanHuSpec(rule, p, last.value.card) == Success(true)
  }

  /** The hu check on the drawn tile runs and holds. */
  predicate SelfHuWins(rule: RuleConfig, p: Player)
  {
    SelfHuChecked(rule, p) && CanHuSpec(rule, p, p.drawnCard.value) == Success(true)
  }

  /** The list in the order `get_valid_actions` appends to it, given which entries are added. */
  function Build(chow: bool, pong: bool, kong: bool, otherHu: bool, selfHu: bool): seq<ActionName>
  {
    [Discard] + Opt(chow, Chow) + Opt(pong, Pong) + Opt(kong, Kong) + Opt(otherHu, Hu) + Opt(selfHu, Hu)
  }

  /**
   * `get_valid_actions` as a value. A bare tile as last discard has no `card` attribute and
   * raises `AttributeError`; an error of the hu check on the discard, then of the one on the drawn
   * tile, propagates. Otherwise "discard" comes first, then the claims, then "hu" for each hu check
   * that holds.
   */
  function ValidActions(rule: RuleConfig, p: Player, last: Option<LastDiscard>): Result<seq<ActionName>, Raised>
  {
    if last.Some? && last.value.BareCard? then Failure(AttributeError)
    else if OtherHuChecked(rule, last) && CanHuSpec(rule, p, last.value.card).Failure? then
      Failure(CanHuSpec(rule, p, last.value.card).error)
    else if SelfHuChecked(rule, p) && CanHuSpec(rule, p, p.drawnCard.value).Failure? then
      Failure(CanHuSpec(rule, p, p.drawnCard.value).error)
    else Success(Build(ChowOffered(rule, p, last), PongOffered(rule, p, last), KongOffered(rule, p, last),
      OtherHuWins(rule, p, last), SelfHuWins(rule, p)))
  }

  /** `get_valid_actions(player, game_state)`: builds the list step by step from the state's last discard. */
  method GetValidActions(rule: RuleConfig, p: Player, gs: GameState) returns (r: Result<seq<ActionName>, Raised>)
    ensures r == ValidActions(rule, p, gs.lastDiscard)
  {
    ghost var last := gs.lastDiscard;
    ghost var chow, pong, kong := ChowOffered(rule, p, last), PongOffered(rule, p, last), KongOffered(rule, p, last);
    ghost var otherHu, selfHu := OtherHuWins(rule, p, last), SelfHuWins(rule, p);
    BuildSteps(chow, pong, kong, otherHu, selfHu);
    var actions := [Discard];
    if gs.lastDiscard.Some? {
      if gs.lastDiscard.value.BareCard? {
        return Failure(AttributeError);
      }
      var lastCard, lastPlayer := gs.lastDiscard.value.card, gs.lastDiscard.value.fromPlayer;
      actions := ClaimActions(rule, p, lastCard, lastPlayer);
      ClaimsOffered(rule, p, last);
      assert actions == Build(chow, pong, kong, false, false);
      if rule.allowOtherHu {
        var hu := CanHu(rule, p, lastCard);
        if hu.Failure? {
          OtherHuRaises(rule, p, last);
          return Failure(hu.error);
        }
        if hu.value {
          actions := actions + [Hu];
        }
      }
      assert actions == Build(chow, pong, kong, otherHu, false);
    } else {
      assert actions == Build(chow, pong, kong, otherHu, false);
    }
    if p.drawnCard.Some? && rule.allowSelfHu {
      var hu := CanHu(rule, p, p.drawnCard.value);
      if hu.Failure? {
        SelfHuRaises(rule, p, last);
        return Failure(hu.error);
      }
      if hu.value {
        actions := actions + [Hu];
      }
    }
    BuildWhenAnswered(rule, p, last);
    return Success(actions);
  }

  /** The chow, pong and kong steps of `get_valid_actions` on a recorded discard. */
  method ClaimActions(rule: RuleConfig, p: Player, card: Card, from: Option<PlayerRef>) returns (actions: seq<ActionName>)
    ensures actions == Build(rule.allowChow && ChowAllowed(p, card, from), rule.allowPong && PongAllowed(p, card, from),
      rule.allowKong && KongAllowed(p, card, from), false, false)
  {
    ghost var chow, pong, kong := rule.allowChow && ChowAllowed(p, card, from), rule.allowPong && PongAllowed(p, card, from),
      rule.allowKong && KongAllowed(p, card, from);
    BuildSteps(chow, pong, kong, false, false);
    actions := [Discard];
    if rule.allowChow {
      var ok := CanChow(p, card, from);
      if ok {
        actions := actions + [Chow];
      }
    }
    assert actions == [Discard] + Opt(chow, Chow);
    if rule.allowPong && PongAllowed(p, card, from) {
      actions := actions + [Pong];
    }
    assert actions == [Discard] + Opt(chow, Chow) + Opt(pong, Pong);
    if rule.allowKong && KongAllowed(p, card, from) {
      actions := actions + [Kong];
    }
  }

  /** On a recorded discard the three claim conditions are those of its tile and seat. */
  lemma ClaimsOffered(rule: RuleConfig, p: Player, last: Option<LastDiscard>)
    requires Claimable(last)
    ensures ChowOffered(rule, p, last) == (rule.allowChow && ChowAllowed(p, last.value.card, last.value.fromPlayer))
    ensures PongOffered(rule, p, last) == (rule.allowPong && PongAllowed(p, last.value.card, last.value.fromPlayer))
    ensures KongOffered(rule, p, last) == (rule.allowKong && KongAllowed(p, last.value.card, last.value.fromPlayer))
  {
  }

  /** An error of the hu check on the discard is what `get_valid_actions` raises. */
  lemma OtherHuRaises(rule: RuleConfig, p: Player, last: Option<LastDiscard>)
    requires OtherHuChecked(rule, last) && CanHuSpec(rule, p, last.value.card).Failure?
    ensures ValidActions(rule, p, last) == Failure(CanHuSpec(rule, p, last.value.card).error)
  {
  }

  /** Past the discard, an error of the hu check on the drawn tile is what `get_valid_actions` raises. */
  lemma SelfHuRaises(rule: RuleConfig, p: Player, last: Option<LastDiscard>)
    requires last.Some? ==> last.value.Claim?
    requires OtherHuChecked(rule, last) ==> CanHuSpec(rule, p, last.value.card).Success?
    requires SelfHuChecked(rule, p) && CanHuSpec(rule, p, p.drawnCard.value).Failure?
    ensures ValidActions(rule, p, last) == Failure(CanHuSpec(rule, p, p.drawnCard.value).error)
  {
  }

  /** When no error arises the list is `Build` of the five conditions. */
  lemma BuildWhenAnswered(rule: RuleConfig, p: Player, last: Option<LastDiscard>)
    requires last.Some? ==> last.value.Claim?
    requires OtherHuChecked(rule, last) ==> CanHuSpec(rule, p, last.value.card).Success?
    requires SelfHuChecked(rule, p) ==> CanHuSpec(rule, p, p.drawnCard.value).Success?
    ensures ValidActions(rule, p, last) == Success(Build(ChowOffered(rule, p, last), PongOffered(rule, p, last),
      KongOffered(rule, p, last), OtherHuWins(rule, p, last), SelfHuWins(rule, p)))
  {
  }

  /** The list grows by one optional entry at each step. */
  lemma BuildSteps(chow: bool, pong: bool, kong: bool, otherHu: bool, selfHu: bool)
    ensures Build(chow, pong, kong, false, false) == [Discard] + Opt(chow, Chow) + Opt(pong, Pong) + Opt(kong, Kong)
    ensures Build(chow, pong, kong, otherHu, false) == Build(chow, pong, kong, false, false) + Opt(otherHu, Hu)
    ensures Build(chow, pong, kong, otherHu, selfHu) == Build(chow, pong, kong, otherHu, false) + Opt(selfHu, Hu)
  {
  }

  /**
   * When the action list cannot be built: a bare tile as last discard raises `AttributeError`;
   * otherwise `KeyError` is raised exactly when a hu check runs on a hand or tile without sort key.
   */
  lemma ValidActionsErrors(rule: RuleConfig, p: Player, last: Option<LastDiscard>)
    ensures ValidActions(rule, p, last).Failure? <==>
      (last.Some? && last.value.BareCard?)
      || (OtherHuChecked(rule, last) && exists c :: c in p.hand + [last.value.card] && !Keyed(c))
      || (SelfHuChecked(rule, p) && exists c :: c in p.hand + [p.drawnCard.value] && !Keyed(c))
    ensures ValidActions(rule, p, last).Failure? ==>
      ValidActions(rule, p, last).error == if last.Some? && last.value.BareCard? then AttributeError else KeyError
  {
    if last.Some? && last.value.Claim? {
      CanHuMeaning(rule, p, last.value.card);
      BasicHuMeaning(p.hand, last.value.card);
    }
    if p.drawnCard.Some? {
      CanHuMeaning(rule, p, p.drawnCard.value);
      BasicHuMeaning(p.hand, p.drawnCard.value);
    }
  }

  /** Appending an entry that ranks no lower than every entry keeps the list in order. */
  predicate InOrder(acts: seq<ActionName>)
  {
    forall i, j :: 0 <= i < j < |acts| ==> Order(acts[i]) <= Order(acts[j])
  }

  lemma AppendInOrder(acts: seq<ActionName>, b: bool, a: ActionName)
    requires InOrder(acts) && forall i :: 0 <= i < |acts| ==> Order(acts[i]) <= Order(a)
    ensures InOrder(acts + Opt(b, a))
  {
  }

  /** Whatever is added, the list is in the order discard, chow, pong, kong, hu and has at most six entries. */
  lemma BuildInOrder(chow: bool, pong: bool, kong: bool, otherHu: bool, selfHu: bool)
    ensures |Build(chow, pong, kong, otherHu, selfHu)| <= 6 && InOrder(Build(chow, pong, kong, otherHu, selfHu))
  {
    AppendInOrder([Discard], chow, Chow);
    AppendInOrder([Discard] + Opt(chow, Chow), pong, Pong);
    AppendInOrder([Discard] + Opt(chow, Chow) + Opt(pong, Pong), kong, Kong);
    AppendInOrder([Discard] + Opt(chow, Chow) + Opt(pong, Pong) + Opt(kong, Kong), otherHu, Hu);
    AppendInOrder([Discard] + Opt(chow, Chow) + Opt(pong, Pong) + Opt(kong, Kong) + Opt(otherHu, Hu), selfHu, Hu);
  }

  /** Each claim is in the list exactly when it was added; "discard" leads once; "hu" counts the hu checks that held. */
  lemma BuildContents(chow: bool, pong: bool, kong: bool, otherHu: bool, selfHu: bool)
    ensures var acts := Build(chow, pong, kong, otherHu, selfHu);
      acts[0] == Discard && multiset(acts)[Discard] == 1
      && (Chow in acts <==> chow) && (Pong in acts <==> pong) && (Kong in acts <==> kong)
      && multiset(acts)[Hu] == (if otherHu then 1 else 0) + (if selfHu then 1 else 0)
  {
    var acts := Build(chow, pong, kong, otherHu, selfHu);
    BuildCount(chow, pong, kong, otherHu, selfHu, Discard);
    BuildCount(chow, pong, kong, otherHu, selfHu, Chow);
    BuildCount(chow, pong, kong, otherHu, selfHu, Pong);
    BuildCount(chow, pong, kong, otherHu, selfHu, Kong);
    BuildCount(chow, pong, kong, otherHu, selfHu, Hu);
    assert Chow in acts <==> Chow in multiset(acts);
    assert Pong in acts <==> Pong in multiset(acts);
    assert Kong in acts <==> Kong in multiset(acts);
  }

  /** How often each name occurs in the list: once per append of it. */
  lemma BuildCount(chow: bool, pong: bool, kong: bool, otherHu: bool, selfHu: bool, a: ActionName)
    ensures multiset(Build(chow, pong, kong, otherHu, selfHu))[a] ==
      (if a == Discard then 1 else 0) + OptCount(chow, Chow, a) + OptCount(pong, Pong, a)
      + OptCount(kong, Kong, a) + OptCount(otherHu, Hu, a) + OptCount(selfHu, Hu, a)
  {
    var m := multiset([Discard]) + multiset(Opt(chow, Chow)) + multiset(Opt(pong, Pong))
      + multiset(Opt(kong, Kong)) + multiset(Opt(otherHu, Hu)) + multiset(Opt(selfHu, Hu));
    assert multiset(Build(chow, pong, kong, otherHu, selfHu)) == m;
    OptBag(chow, Chow, a);
    OptBag(pong, Pong, a);
    OptBag(kong, Kong, a);
    OptBag(otherHu, Hu, a);
    OptBag(selfHu, Hu, a);
  }

  /** How often `x` occurs in `Opt(b, a)`. */
  function OptCount(b: bool, a: ActionName, x: ActionName): nat
  {
    if b && a == x then 1 else 0
  }

  lemma OptBag(b: bool, a: ActionName, x: ActionName)
    ensures multiset(Opt(b, a))[x] == OptCount(b, a, x)
  {
  }

  /**
   * What the list holds: "discard" once and first; each claim exactly when the rule enables it
   * and the hand allows it on the last discard.
   */
  lemma ValidActionsClaims(rule: RuleConfig, p: Player, last: Option<LastDiscard>)
    requires ValidActions(rule, p, last).Success?
    ensures var acts := ValidActions(rule, p, last).value;
      acts[0] == Discard && multiset(acts)[Discard] == 1
      && (Chow in acts <==> last.Some? && rule.allowChow && ChowAllowed(p, last.value.card, last.value.fromPlayer))
      && (Pong in acts <==> last.Some? && rule.allowPong && multiset(p.hand)[last.value.card] >= 2)
      && (Kong in acts <==> last.Some? && rule.allowKong && KongAllowed(p, last.value.card, last.value.fromPlayer))
  {
    BuiltList(rule, p, last);
    ClaimsIn(rule, p, last);
  }

  /** Which claims the built list holds, for a last discard that is absent or recorded with its seat. */
  lemma ClaimsIn(rule: RuleConfig, p: Player, last: Option<LastDiscard>)
    requires last.Some? ==> last.value.Claim?
    ensures var acts := Build(ChowOffered(rule, p, last), PongOffered(rule, p, last), KongOffered(rule, p, last),
        OtherHuWins(rule, p, last), SelfHuWins(rule, p));
      acts[0] == Discard && multiset(acts)[Discard] == 1
      && (Chow in acts <==> last.Some? && rule.allowChow && ChowAllowed(p, last.value.card, last.value.fromPlayer))
      && (Pong in acts <==> last.Some? && rule.allowPong && multiset(p.hand)[last.value.card] >= 2)
      && (Kong in acts <==> last.Some? && rule.allowKong && KongAllowed(p, last.value.card, last.value.fromPlayer))
  {
    BuildContents(ChowOffered(rule, p, last), PongOffered(rule, p, last), KongOffered(rule, p, last),
      OtherHuWins(rule, p, last), SelfHuWins(rule, p));
    if last.Some? {
      PongKongMeaning(p, last.value.card, last.value.fromPlayer);
    }
  }

  /**
   * "hu" appears once for each hu check that holds, that is for each checked tile that completes
   * a winning shape with the hand while `max_fans` is positive.
   */
  lemma ValidActionsHu(rule: RuleConfig, p: Player, last: Option<LastDiscard>)
    requires ValidActions(rule, p, last).Success?
    ensures multiset(ValidActions(rule, p, last).value)[Hu] ==
      (if OtherHuChecked(rule, last) && WinningShape(multiset(p.hand + [last.value.card])) && rule.maxFans > 0 then 1 else 0)
      + (if SelfHuChecked(rule, p) && WinningShape(multiset(p.hand + [p.drawnCard.value])) && rule.maxFans > 0 then 1 else 0)
  {
    BuiltList(rule, p, last);
    HuCount(rule, p, last);
  }

  /** Counting "hu" in the built list, given that every hu check that runs returns a value. */
  lemma HuCount(rule: RuleConfig, p: Player, last: Option<LastDiscard>)
    requires OtherHuChecked(rule, last) ==> CanHuSpec(rule, p, last.value.card).Success?
    requires SelfHuChecked(rule, p) ==> CanHuSpec(rule, p, p.drawnCard.value).Success?
    ensures multiset(Build(ChowOffered(rule, p, last), PongOffered(rule, p, last), KongOffered(rule, p, last),
        OtherHuWins(rule, p, last), SelfHuWins(rule, p)))[Hu] ==
      (if OtherHuChecked(rule, last) && WinningShape(multiset(p.hand + [last.value.card])) && rule.maxFans > 0 then 1 else 0)
      + (if SelfHuChecked(rule, p) && WinningShape(multiset(p.hand + [p.drawnCard.value])) && rule.maxFans > 0 then 1 else 0)
  {
    BuildContents(ChowOffered(rule, p, last), PongOffered(rule, p, last), KongOffered(rule, p, last),
      OtherHuWins(rule, p, last), SelfHuWins(rule, p));
    OtherHuMeaning(rule, p, last);
    SelfHuMeaning(rule, p);
  }

  /** The hu check on the discard holds, when it runs without raising, exactly for a winning shape with fans allowed. */
  lemma OtherHuMeaning(rule: RuleConfig, p: Player, last: Option<LastDiscard>)
    requires OtherHuChecked(rule, last) ==> CanHuSpec(rule, p, last.value.card).Success?
    ensures OtherHuWins(rule, p, last) <==>
      OtherHuChecked(rule, last) && WinningShape(multiset(p.hand + [last.value.card])) && rule.maxFans > 0
  {
    if OtherHuChecked(rule, last) {
      HuWins(rule, p, last.value.card);
    }
  }

  /** The hu check on the drawn tile holds, when it runs without raising, exactly for a winning shape with fans allowed. */
  lemma SelfHuMeaning(rule: RuleConfig, p: Player)
    requires SelfHuChecked(rule, p) ==> CanHuSpec(rule, p, p.drawnCard.value).Success?
    ensures SelfHuWins(rule, p) <==>
      SelfHuChecked(rule, p) && WinningShape(multiset(p.hand + [p.drawnCard.value])) && rule.maxFans > 0
  {
    if SelfHuChecked(rule, p) {
      HuWins(rule, p, p.drawnCard.value);
    }
  }

  /** A list that is built is `Build` of the five conditions, and every hu check that ran returned a value. */
  lemma BuiltList(rule: RuleConfig, p: Player, last: Option<LastDiscard>)
    requires ValidActions(rule, p, last).Success?
    ensures ValidActions(rule, p, last).value == Build(ChowOffered(rule, p, last), PongOffered(rule, p, last),
      KongOffered(rule, p, last), OtherHuWins(rule, p, last), SelfHuWins(rule, p))
    ensures OtherHuChecked(rule, last) ==> CanHuSpec(rule, p, last.value.card).Success?
    ensures SelfHuChecked(rule, p) ==> CanHuSpec(rule, p, p.drawnCard.value).Success?
    ensures last.Some? ==> last.value.Claim?
  {
  }

  /** A hu check that does not raise holds exactly for a winning shape while `max_fans` is positive. */
  lemma HuWins(rule: RuleConfig, p: Player, card: Card)
    requires CanHuSpec(rule, p, card).Success?
    ensures CanHuSpec(rule, p, card) == Success(true) <==> WinningShape(multiset(p.hand + [card])) && rule.maxFans > 0
  {
    CanHuMeaning(rule, p, card);
  }

  /** The list is built in the order discard, chow, pong, kong, hu, and never has more than six entries. */
  lemma ValidActionsOrder(rule: RuleConfig, p: Player, last: Option<LastDiscard>)
    requires ValidActions(rule, p, last).Success?
    ensures |ValidActions(rule, p, last).value| <= 6 && InOrder(ValidActions(rule, p, last).value)
  {
    BuildInOrder(ChowOffered(rule, p, last), PongOffered(rule, p, last), KongOffered(rule, p, last),
      OtherHuWins(rule, p, last), SelfHuWins(rule, p));
  }

  /** `discard_card` stores the bare tile, and reading its `card` attribute then raises `AttributeError`. */
  lemma BareDiscardRaises(rule: RuleConfig, p: Player, card: Card)
    ensures ValidActions(rule, p, Some(BareCard(card))) == Failure(AttributeError)
  {
  }

  /**
   * With the discarding seat recorded, the action list never raises `AttributeError`, and it is
   * built whenever every tile the hu checks look at has a sort key.
   */
  lemma ClaimedDiscardAnswers(rule: RuleConfig, p: Player, card: Card, from: PlayerRef)
    ensures ValidActions(rule, p, Some(Claim(card, Some(from)))) != Failure(AttributeError)
    ensures (forall c :: c in p.hand ==> Keyed(c)) && Keyed(card)
      && (p.drawnCard.Some? ==> Keyed(p.drawnCard.value))
      ==> ValidActions(rule, p, Some(Claim(card, Some(from)))).Success?
  {
    ValidActionsErrors(rule, p, Some(Claim(card, Some(from))));
  }

  /**
   * The intended chow rule: the tile comes from the seat before (上家, `previous_player`), is a
   * numeral tile, and two held tiles of its suit complete a run with it.
   */
  predicate ChowIntended(p: Player, card: Card, from: Option<PlayerRef>)
  {
    p.previousPlayer == from && IsNumeral(card.suit) && CompletesRun(p.hand, card)
  }

  /** The run (顺子) starting at rank `st` of the tile's suit is valid, contains the tile, and its other tiles are held. */
  predicate RunThrough(hand: seq<Card>, card: Card, st: nat)
  {
    ValidGroup(Run(card.suit, st)) && card in Tiles(Run(card.suit, st))
    && Tiles(Run(card.suit, st)) <= multiset(hand) + multiset{card}
  }

  /**
   * Under the intended rule a chow is offered exactly when the tile comes from the seat before and
   * it lies in a valid run whose other tiles are in hand.
   */
  lemma ChowIntendedFormsRun(p: Player, card: Card, from: Option<PlayerRef>)
    ensures ChowIntended(p, card, from) <==> p.previousPlayer == from && exists st: nat :: RunThrough(p.hand, card, st)
  {
    if ChowIntended(p, card, from) {
      var st := RunStart(p.hand, card);
      assert RunThrough(p.hand, card, st);
    }
    if p.previousPlayer == from && exists st: nat :: RunThrough(p.hand, card, st) {
      var st: nat :| RunThrough(p.hand, card, st);
      RunOthersHeld(p.hand, card, st);
    }
  }

  /** The start of a run that the tile completes from the hand. */
  lemma RunStart(hand: seq<Card>, card: Card) returns (st: nat)
    requires IsNumeral(card.suit) && CompletesRun(hand, card)
    ensures RunThrough(hand, card, st)
  {
    var s, r := card.suit, card.rank;
    if r >= 2 && Card(s, r - 2) in hand && Card(s, r - 1) in hand {
      st := r - 2;
    } else if r >= 1 && Card(s, r - 1) in hand && Card(s, r + 1) in hand {
      st := r - 1;
    } else {
      st := r;
    }
    RunHeld(hand, card, st);
  }

  /** A run through `card` whose other two tiles are held lies within the hand plus the tile. */
  lemma RunHeld(hand: seq<Card>, card: Card, st: nat)
    requires st <= card.rank <= st + 2
    requires forall k :: st <= k <= st + 2 && k != card.rank ==> Card(card.suit, k) in hand
    ensures card in Tiles(Run(card.suit, st))
    ensures Tiles(Run(card.suit, st)) <= multiset(hand) + multiset{card}
  {
    var s := card.suit;
    var m := multiset(hand) + multiset{card};
    assert Card(s, st) in m && Card(s, st + 1) in m && Card(s, st + 2) in m;
  }

  /** Conversely the other two tiles of such a run are held, so the tile completes a run from the hand. */
  lemma RunOthersHeld(hand: seq<Card>, card: Card, st: nat)
    requires RunThrough(hand, card, st)
    ensures IsNumeral(card.suit) && CompletesRun(hand, card)
  {
    var s, r := card.suit, card.rank;
    var m := multiset(hand) + multiset{card};
    assert Card(s, st) in m && Card(s, st + 1) in m && Card(s, st + 2) in m;
    assert r == st || r == st + 1 || r == st + 2;
    if r == st {
      assert Card(s, st + 1) in hand && Card(s, st + 2) in hand;
    } else if r == st + 1 {
      assert Card(s, st) in hand && Card(s, st + 2) in hand;
    } else {
      assert Card(s, st) in hand && Card(s, st + 1) in hand;
    }
  }

  /**
   * As written, chow looks at `next_player`: whenever a player's two neighbours differ (three or
   * more seats), the seat before, whose discards a chow is meant for, is always refused.
   */
  lemma ChowRefusesPreviousSeat(p: Player, card: Card)
    requires p.previousPlayer != p.nextPlayer
    ensures !ChowAllowed(p, card, p.previousPlayer)
  {
  }

  /**
   * Seat 1 of four holds 万1 万2 and seat 0, the seat before, throws 万3: the code refuses the
   * chow that the intended rule grants.
   */
  lemma ChowSeatExample()
    ensures var p := NewPlayer("南").(hand := [Card(Wan, 1), Card(Wan, 2)], previousPlayer := Some(0), nextPlayer := Some(2));
      !ChowAllowed(p, Card(Wan, 3), Some(0)) && ChowIntended(p, Card(Wan, 3), Some(0))
  {
  }

  /**
   * A hand holding 万1 万2 and also 筒5 cannot chow 万3 as written, even from the seat the code
   * checks, because one held tile has another suit; the intended rule grants it.
   */
  lemma ChowMixedHandExample()
    ensures var p := NewPlayer("南").(hand := [Card(Wan, 1), Card(Wan, 2), Card(Tong, 5)], previousPlayer := Some(0), nextPlayer := Some(0));
      !ChowAllowed(p, Card(Wan, 3), Some(0)) && ChowIntended(p, Card(Wan, 3), Some(0))
  {
    assert Card(Tong, 5) in [Card(Wan, 1), Card(Wan, 2), Card(Tong, 5)];
  }

  /** Wherever the code grants a chow and the two neighbour links agree, the intended rule grants it too. */
  lemma ChowAllowedIsIntended(p: Player, card: Card, from: Option<PlayerRef>)
    requires p.previousPlayer == p.nextPlayer
    ensures ChowAllowed(p, card, from) ==> ChowIntended(p, card, from)
  {
    ChowAllowedMeaning(p, card, from);
  }
}
