# Tencent common mahjong rules, modelled in Dafny

This project models the rules engine of a Chinese mahjong game under the "Tencent common" rule
(腾讯大众麻将), together with the tile value, the wall and the dealing operations the rules run on:

- **Tiles.** A tile (`Card`) is a suit and a rank. Its identifier is the suit's character
  followed by the rank's text. Equality, hash and `repr` all go through that identifier.
- **Winning shape (胡).** The hu check adds the candidate tile to the hand and sorts the result.
  It tries each adjacent equal pair as the eyes (将), then decomposes the rest by backtracking:
  the lowest tile leaves as a triplet (刻子) or as the start of a run (顺子).
  A fan gate (番) follows. It always passes, because the all-pairs placeholder always scores.
- **Fans and score.** Fans come from:
  - self-drawn;
  - concealed hand;
  - all pairs;
  - seven pairs;
  - pure suit;
  - mixed suit;
  - the nine-rank straight (一条龙).

  They are summed and capped by `max_fans`. The score is `2 ** fans`.
- **Claims and actions.** The claim predicates decide chow (吃), pong (碰) and kong (杠). The list
  of valid actions is built by ordered appends.
- **Rule object.** It holds the configuration and the 136-tile deck. Its queries forward to the
  action, hu and score rules.
- **Wall and game state.** The wall manager shuffles, deals round by round, draws and discards.
  The game state has its defaults and `initialize_game`.

Each of the system's functions is a Dafny function. Code that loops or updates state is a Dafny
method, proved against a specification function:
- the meld search;
- the seven-pairs toggle;
- the fan accumulators;
- deck construction;
- dealing;
- drawing and discarding;
- `initialize_game`;
- the action list.

The game state is a class whose methods modify its fields.

Python exceptions are part of the model, as `Result`/`Outcome` values:
- `KeyError` from the sort table;
- `IndexError` from popping an empty wall or indexing an empty player list;
- `StopIteration` when no player is dealer;
- `AttributeError` from a missing rule or a bare discarded tile.

The main results proved:
- **Tiles.** Tile equality is identity of suit and rank.
- **Meld check.** On a sorted hand the meld check holds exactly when the tiles partition into
  triplets and runs. So the hu check holds exactly when hand plus tile is a winning shape, and
  raises exactly when a tile has no sort key.
- **Fans and score.** Seven pairs, pure suit, mixed suit and the straight have set or multiset
  characterisations. A Tencent score lies between 4 and 1024.
- **Claims and actions.**
  - Each claim predicate has an exact characterisation.
  - The action list always starts with "discard".
  - The list offers each claim exactly when its condition holds.
  - It is in append order and contains "hu" once per successful hu check.
  - It fails exactly in the listed error cases.
- **Deck.** The deck holds four of each of the 34 standard tiles and no flowers.
- **Shuffle.** The shuffle is a permutation whatever the random draws.
- **Dealing.**
  - Tiles are conserved, whether the deal returns or raises.
  - Each hand grows by exactly `starting_tiles`, plus one for the first dealer.
  - Which error arises is determined exactly.
  - With four players and a full wall, 83 tiles remain after `deal` and 84 after `initialize_game`.

## Model

| member | source | states |
|---|---|---|
| `Cards.Id` | src/core/data/card.py:9-11 | The identifier is the suit's character followed by the rank text: decimal digits, or 东南西北 / 中发白 for honours. |
| `Cards.IdInjective` | src/core/data/card.py:11 | Two tiles have the same identifier exactly when they have the same suit and rank. |
| `Cards.DecimalTextInjective` | src/core/data/card.py:11 | Distinct ranks have distinct decimal texts, so `int(str(n)) == n`. |
| `Cards.EqualsIsIdentity` | src/core/data/card.py:17-18 | `__eq__` holds exactly when the other value is present and is the same tile; `None` equals no tile. |
| `Cards.EqualTilesHashAlike` | src/core/data/card.py:20-21 | Equal tiles have equal hashes, whatever the string hash, and are the same tile. |
| `Cards.Repr` | src/core/data/card.py:14-15 | `repr` is the identifier. |
| `Cards.CardExamples` | src/core/data/card.py:9-18 | 万1 has identifier "万1", equals 万1, differs from 万2 and from `None`; 风1 is "风东", 箭3 is "箭白". |
| `Cards.RankSetNumeral` | src/rules/tencent_common/action_rules.py:32 | In a numeral suit the rank text of n is among the held rank texts exactly when tile (suit, n) is held. |
| `Rule.TencentCommonRule` | src/rules/tencent_common/rule.py:9-16 | 4 players, 136 tiles, 13 starting tiles, dealer's extra tile, every claim and both wins allowed, at most 10 fans, mandatory discard. |
| `Rule.CreateInitialDeck` | src/rules/tencent_common/rule.py:53-69 | The nested append loops build exactly the standard deck: each kind four times in a row, in the order 万1-9, 筒1-9, 条1-9, 东南西北, 中发白. |
| `Rule.AppendFour` | src/rules/tencent_common/rule.py:56-57 | The innermost loop appends four copies of one kind, which extends the four-fold deck of the kinds so far by that kind. |
| `Rule.DeckIsFourfold` | src/rules/tencent_common/rule.py:53-69 | The deck is the 34 kinds, each repeated four times in a row. |
| `Rule.KindsAreStandardTiles` | src/rules/tencent_common/rule.py:54-67 | The kinds listed are exactly the standard tiles. |
| `Rule.StandardDeckComposition` | src/rules/tencent_common/rule.py:47-71 | The deck has `tiles_count` = 136 tiles, four of each standard tile, none of any other tile, and no flower. |
| `Rule.DeckCount` | src/rules/tencent_common/rule.py:53-69 | Any tile occurs in the deck four times if it is a standard tile and not at all otherwise. |
| `TileOrder.SortKeyOf` | src/rules/tencent_common/hu_rules.py:99-103 | A tile has the key (suit position, rank) when its suit is in the table and its rank text is a key of the rank table; otherwise the lookup fails. |
| `TileOrder.SortTiles` | src/rules/tencent_common/hu_rules.py:103 | Sorting yields an ordered permutation of its input. |
| `TileOrder.Insert` | src/rules/tencent_common/hu_rules.py:103 | Inserting a tile into an ordered list gives an ordered list holding the old tiles plus that one. |
| `TileOrder.SortedUnique` | src/rules/tencent_common/hu_rules.py:103 | Two ordered lists with the same tiles are equal, so any correct sort gives the same list. |
| `TileOrder.RemoveFirst` | src/rules/tencent_common/hu_rules.py:133-140 | Removing the first occurrence takes exactly one copy of a present tile out and leaves a list without it unchanged. |
| `HuRules.SortHand` | src/rules/tencent_common/hu_rules.py:96-103 | `_sort_hand` raises `KeyError` exactly when some tile has no key; otherwise it returns an ordered permutation of the hand. |
| `HuRules.SortHandKeyed` | src/rules/tencent_common/hu_rules.py:99-103 | The sort succeeds exactly when every tile is keyed. |
| `HuRules.DeleteFirst` | src/rules/tencent_common/hu_rules.py:133-140 | The `del`-in-loop removal of a run's next tile removes its first occurrence. |
| `HuRules.CheckMelds` | src/rules/tencent_common/hu_rules.py:105-144 | The backtracking `_check_melds` computes the meld predicate. |
| `HuRules.MeldsSound` | src/rules/tencent_common/hu_rules.py:105-144 | A list the meld check accepts partitions into valid triplets and runs. |
| `HuRules.MeldsLayout` | src/rules/tencent_common/hu_rules.py:105-144 | From a list the meld check accepts, builds the melds explicitly: triplets and runs whose tiles together are exactly the list. |
| `HuRules.MeldsComplete` | src/rules/tencent_common/hu_rules.py:105-144 | A sorted list that partitions into triplets and runs is accepted. |
| `HuRules.MeldsIffDecomposable` | src/rules/tencent_common/hu_rules.py:105-144 | On sorted lists, the meld check holds exactly when the tiles partition into triplets and runs. |
| `HuRules.MeldsLength` | src/rules/tencent_common/hu_rules.py:107-108 | The empty list is accepted, and any accepted list has a length divisible by 3. |
| `HuRules.HonourOnlyTriplet` | src/rules/tencent_common/hu_rules.py:119-120 | An accepted list led by a wind or dragon starts with a triplet of it, and the rest is accepted. |
| `MeldShapes.WinningShapeSize` | src/rules/tencent_common/hu_rules.py:84-94 | A winning shape, a pair plus melds, has 3k + 2 tiles. |
| `HuRules.CheckBasicHuCondition` | src/rules/tencent_common/hu_rules.py:74-94 | The pair loop over a sorted copy of hand plus tile computes the basic condition, errors included. |
| `HuRules.WinningPairIffShape` | src/rules/tencent_common/hu_rules.py:84-94 | On a sorted list, some adjacent equal pair leaves melds exactly when the tiles form a winning shape. |
| `HuRules.BasicHuMeaning` | src/rules/tencent_common/hu_rules.py:74-94 | The basic condition raises `KeyError` exactly when a tile has no key; otherwise it holds exactly when hand plus tile is a winning shape. |
| `HuRules.BasicHuSize` | src/rules/tencent_common/hu_rules.py:84-94 | The basic condition can hold only when the hand size plus 1 is 2 modulo 3. |
| `HuRules.FanGate` | src/rules/tencent_common/hu_rules.py:37-72 | The three kong checks are false; the gate holds exactly when the capped fans are positive, that is when `max_fans` > 0. |
| `HuRules.CanHu` | src/rules/tencent_common/hu_rules.py:7-25 | `can_hu` is the basic condition followed by the fan gate. |
| `HuRules.CanHuMeaning` | src/rules/tencent_common/hu_rules.py:18-25 | `can_hu` raises exactly when a tile has no key; otherwise it holds exactly when hand plus tile is a winning shape and `max_fans` > 0. |
| `ScoreRules.IsAllPairs` | src/rules/tencent_common/score_rules.py:89-94 | The all-pairs test accepts every player. |
| `ScoreRules.IsSevenPairs` | src/rules/tencent_common/score_rules.py:96-111 | The toggle loop holds exactly when the hand has 14 tiles and every kind occurs an even number of times. |
| `ScoreRules.SevenPairsOfAnyKinds` | src/rules/tencent_common/score_rules.py:96-111 | Any seven kinds, each taken twice, are seven pairs, repeated kinds included (four of a kind counts as two pairs). |
| `ScoreRules.PureSuitMeaning` | src/rules/tencent_common/score_rules.py:113-119 | Pure suit holds exactly when the hand uses exactly one suit, which also excludes an empty hand. |
| `ScoreRules.MixedSuitMeaning` | src/rules/tencent_common/score_rules.py:121-134 | Mixed suit holds exactly when one numeral suit is present and every numeral tile is of it; honours are optional. |
| `ScoreRules.PureNumeralIsMixed` | src/rules/tencent_common/score_rules.py:113-134 | A hand of a single numeral suit is both pure and mixed. |
| `ScoreRules.StraightIn` | src/rules/tencent_common/score_rules.py:143-144 | Rank texts "1".."9" are all held in a numeral suit exactly when tiles 1..9 of that suit are held. |
| `ScoreRules.DragonMeaning` | src/rules/tencent_common/score_rules.py:136-147 | The straight holds exactly when some numeral suit has all of ranks 1..9 in hand. |
| `ScoreRules.BasicFans` | src/rules/tencent_common/score_rules.py:49-69 | The basic fans lie between 2 and 8. |
| `ScoreRules.CheckBasicFans` | src/rules/tencent_common/score_rules.py:49-69 | The accumulating method computes the basic fans. |
| `ScoreRules.SelfDrawnFan` | src/rules/tencent_common/score_rules.py:53-55 | Drawing the winning tile oneself adds exactly one fan. |
| `ScoreRules.SpecialFans` | src/rules/tencent_common/score_rules.py:71-87 | The special fans are one of 0, 3, 6, 9, 12. |
| `ScoreRules.CheckSpecialFans` | src/rules/tencent_common/score_rules.py:71-87 | The accumulating method computes the special fans. |
| `ScoreRules.Fans` | src/rules/tencent_common/score_rules.py:38-47 | The fans are the minimum of basic plus special and `max_fans`. |
| `ScoreRules.FansLowerBound` | src/rules/tencent_common/score_rules.py:38-47 | The fans are at least 2, or `max_fans` if smaller, and positive exactly when `max_fans` is. |
| `ScoreRules.Score` | src/rules/tencent_common/score_rules.py:17-26 | The score is 2 to the power of the fans, between 1 and 2 to the power of `max_fans`. |
| `ScoreRules.TencentScoreRange` | src/rules/tencent_common/score_rules.py:17-26 | Under the Tencent rule a win scores between 4 and 1024. |
| `ActionRules.Count` | src/rules/tencent_common/action_rules.py:47 | Counting equal tiles with `__eq__` gives the multiplicity of the tile in the hand. |
| `ActionRules.IntText` | src/rules/tencent_common/action_rules.py:26-28 | `str` of an integer starts with a minus sign exactly when the integer is negative. |
| `ActionRules.IntTextHeld` | src/rules/tencent_common/action_rules.py:24-32 | A neighbour rank text is among the held rank texts exactly when that rank is non-negative and its tile is held. |
| `ActionRules.CanChow` | src/rules/tencent_common/action_rules.py:7-38 | The seat check, the suit check and the search over the three rank pairs compute the chow predicate as written. |
| `ActionRules.ChowAllowedMeaning` | src/rules/tencent_common/action_rules.py:16-38 | Chow holds exactly when the discarder is `next_player`, the tile is numeral, every held tile has its suit, and two held tiles complete a run with it. |
| `ActionRules.ComboSearch` | src/rules/tencent_common/action_rules.py:24-38 | The search finds one of the three neighbour rank pairs among the held rank texts exactly when two held tiles of the suit complete a run with the discard. |
| `ActionRules.PongKongMeaning` | src/rules/tencent_common/action_rules.py:40-67 | Pong holds exactly when the tile is held twice or more; kong when it is held exactly 3 times (claimed) or 4 times (concealed); kong implies pong. |
| `ActionRules.GetValidActions` | src/rules/tencent_common/action_rules.py:69-107 | The append-by-append method computes the declared action list, errors included. |
| `ActionRules.ClaimActions` | src/rules/tencent_common/action_rules.py:81-91 | The chow, pong and kong steps give "discard" followed by each claim whose rule flag is set and whose check holds, in that order. |
| `ActionRules.ValidActionsErrors` | src/rules/tencent_common/action_rules.py:77-105 | The list raises exactly when the last discard is a bare tile (`AttributeError`), or when a hu check that runs sees a tile without sort key (`KeyError`). |
| `ActionRules.ValidActionsClaims` | src/rules/tencent_common/action_rules.py:71-91 | "discard" is first and occurs once; chow, pong and kong are each present exactly when there is a last discard, the flag is set and the hand allows it. |
| `ActionRules.ValidActionsHu` | src/rules/tencent_common/action_rules.py:93-105 | "hu" occurs once for each checked tile (the discard, the drawn tile) that completes a winning shape, so up to twice. |
| `ActionRules.OtherHuMeaning` | src/rules/tencent_common/action_rules.py:93-98 | When the hu check on the discard answers, "hu" is added for it exactly when the hand plus the discard is a winning shape and `max_fans` is positive. |
| `ActionRules.SelfHuMeaning` | src/rules/tencent_common/action_rules.py:100-105 | When the hu check on the drawn tile answers, "hu" is added for it exactly when the hand plus the drawn tile is a winning shape and `max_fans` is positive. |
| `ActionRules.ValidActionsOrder` | src/rules/tencent_common/action_rules.py:71-105 | The list is in the order discard, chow, pong, kong, hu and has at most six entries. |
| `ActionRules.BuildContents` | src/rules/tencent_common/action_rules.py:71-105 | Each conditional append appears exactly when its condition held; "hu" counts both hu appends. |
| `ActionRules.BareDiscardRaises` | src/rules/tencent_common/action_rules.py:78 | With the bare tile that `discard_card` stores, the action list raises `AttributeError`. |
| `ActionRules.ClaimedDiscardAnswers` | src/rules/tencent_common/action_rules.py:77-79 | With the discarding seat recorded the list never raises `AttributeError`, and is built whenever every tile checked has a sort key. |
| `ActionRules.ChowRefusesPreviousSeat` | src/rules/tencent_common/action_rules.py:16-17 | When a player's two neighbours differ, a discard from the seat before is never chowed. |
| `ActionRules.ChowSeatExample` | src/rules/tencent_common/action_rules.py:16-17 | Seat 1 with 万1 万2 cannot chow seat 0's 万3, although the intended rule allows it. |
| `ActionRules.ChowMixedHandExample` | src/rules/tencent_common/action_rules.py:20 | A hand holding 万1 万2 筒5 cannot chow 万3, although the intended rule allows it. |
| `ActionRules.ChowIntendedFormsRun` | src/core/data/player.py:18 | Under the intended rule, chow holds exactly when the tile comes from `previous_player` and lies in a valid run whose other two tiles are held. |
| `ActionRules.ChowAllowedIsIntended` | src/rules/tencent_common/action_rules.py:16-38 | Where both neighbour links agree, every chow the code allows is allowed by the intended rule. |
| `TencentRule.CanChow` | src/rules/tencent_common/rule.py:23-25 | The rule's chow query is the action rules' chow, characterised as above. |
| `TencentRule.CanPong` | src/rules/tencent_common/rule.py:27-29 | The rule's pong query holds exactly when the tile is held twice or more. |
| `TencentRule.CanKong` | src/rules/tencent_common/rule.py:31-33 | The rule's kong query holds exactly when the tile is held 3 times for a discard, 4 times for a concealed kong. |
| `TencentRule.CanHu` | src/rules/tencent_common/rule.py:35-37 | With at most 10 fans the gate passes, so the rule's hu query holds exactly when hand plus tile is a winning shape. |
| `TencentRule.CalculateScore` | src/rules/tencent_common/rule.py:39-41 | The rule's score is 2 to the power of the capped fans, between 4 and 1024. |
| `TencentRule.GetValidActions` | src/rules/tencent_common/rule.py:43-45 | The rule forwards to the action rules. A built list starts with "discard", is in append order, and offers each claim exactly when the rule's own query allows it. |
| `Shuffling.ShuffledPermutes` | src/core/logic/deck_manager.py:30-32 | Fisher–Yates with any draws yields a permutation of its input. |
| `Shuffling.ShuffledIdentity` | src/core/logic/deck_manager.py:31 | Draws that always pick the current index leave the list unchanged, so the order is set by the draws alone. |
| `DeckManager.CreateInitialDeck` | src/core/logic/deck_manager.py:9-18 | With no rule it raises `AttributeError`; otherwise it returns the rule's 136-tile deck. |
| `DeckManager.Shuffle` | src/core/logic/deck_manager.py:20-32 | The shuffled copy has the same length and the same tiles. |
| `DeckManager.ShuffleIdentity` | src/core/logic/deck_manager.py:30-32 | The copy is the input reordered by the draws; with identity draws it equals the input. |
| `DeckManager.FirstDealer` | src/core/logic/deck_manager.py:56 | `next(...)` finds the first seat marked dealer, or none when no seat is. |
| `DeckManager.Deal` | src/core/logic/deck_manager.py:34-57 | With no rule, `AttributeError` and nothing changes. Otherwise the nested pop loops and the extra tile leave players, wall and outcome as the deal specification says. |
| `DeckManager.DealRound` | src/core/logic/deck_manager.py:50-52 | One round hands each seat in turn the tile at the end of the wall; when the wall runs out part-way it reports so, with every tile handed out and the wall empty. |
| `DeckManager.GiveDealerExtra` | src/core/logic/deck_manager.py:55-57 | The first dealer gets the last tile of the wall; no dealer raises `StopIteration`, an empty wall `IndexError`, and neither changes anything. |
| `DeckManager.DealtCount` | src/core/logic/deck_manager.py:49-52 | After t full rounds and i more pops, seat j holds t new tiles, plus one if it came before seat i. |
| `DeckManager.DealConserves` | src/core/logic/deck_manager.py:49-57 | Hands plus wall hold the same tiles before and after the deal, whether it returns or raises. |
| `DeckManager.ExtraTileConserves` | src/core/logic/deck_manager.py:55-57 | The dealer's extra tile moves one tile from the wall to a hand: hands plus wall keep the same tiles. |
| `DeckManager.DealExtendsHands` | src/core/logic/deck_manager.py:49-57 | The deal only appends to hands; every other player field is unchanged. |
| `DeckManager.DealOutcome` | src/core/logic/deck_manager.py:51-56 | `IndexError` exactly when the wall is shorter than n·`starting_tiles`, or exactly that long with an extra tile owed to a dealer. `StopIteration` exactly when the wall suffices, the extra tile is on and no one is dealer. |
| `DeckManager.DealCounts` | src/core/logic/deck_manager.py:49-57 | A completed deal shrinks the wall by n·`starting_tiles` plus the extra tile. Each hand grows by `starting_tiles`, and the first dealer's by one more. |
| `DeckManager.TencentDeal` | src/core/logic/deck_manager.py:49-57 | Four players, a full wall and a dealer: the deal completes, the dealer holds 14 new tiles, the others 13, and 83 tiles remain. |
| `DeckManager.DrawCard` | src/core/logic/deck_manager.py:69-72 | An empty wall gives `None` and stays empty; otherwise the last tile is removed and returned. |
| `DeckManager.DiscardCard` | src/core/logic/deck_manager.py:82-83 | The tile is appended to the discard pile and stored, bare, as the last discard; nothing else changes. |
| `DeckManager.DiscardCardFrom` | src/rules/tencent_common/action_rules.py:77-79 | The discard stored with its tile and discarding seat, the record the action rules read. |
| `DeckManager.ShuffleAndDeal` | src/core/logic/deck_manager.py:85-101 | With no rule, `AttributeError` before any change. Otherwise the wall becomes a shuffled standard deck and is dealt from. |
| `DeckManager.TencentShuffleAndDeal` | src/core/logic/deck_manager.py:85-101 | Four players with a dealer: dealing completes, 83 tiles remain, and hands plus wall are exactly the standard set. |
| `GameStates.GameState.constructor` | src/core/data/game_state.py:2-20 | Empty wall and discard pile, the given players or none, no current player, no last discard, stage init, no winner, round 1, east wind. |
| `GameStates.GameState.InitializeGame` | src/core/data/game_state.py:22-47 | Falls back to the Tencent rule, then deals 13-tile hands from the shuffled standard deck. Seat 0 becomes current and the stage "playing"; an empty player list raises `IndexError`. |
| `GameStates.GameState.PrepareWall` | src/core/data/game_state.py:27-36 | The rule falls back to the Tencent rule when none is set, and the wall becomes the standard deck shuffled by the given draws. |
| `GameStates.GameState.DealInitialHands` | src/core/data/game_state.py:39-43 | Each player's hand is replaced by up to 13 tiles popped in turn; an exhausted wall gives later players fewer tiles, without error. |
| `GameStates.GameState.DrawHand` | src/core/data/game_state.py:41-43 | Up to 13 pops from the end of the wall, stopping when it is empty: the hand is the initial hand of that seat and the wall is what is left after it. |
| `GameStates.Popped` | src/core/data/game_state.py:41-43 | The tiles of a range of pops are the wall's tiles taken from the end, in popping order. |
| `GameStates.PoppedBag` | src/core/data/game_state.py:41-43 | The tiles popped and the wall left together make up the wall before. |
| `GameStates.InitialDealConserves` | src/core/data/game_state.py:32-43 | The initial deal neither creates nor loses tiles: hands plus wall are the shuffled deck. |
| `GameStates.InitialDealSizes` | src/core/data/game_state.py:39-43 | From 136 tiles, with up to ten players, every hand gets 13 tiles and 136 - 13n remain. |
| `GameStates.InitialDealShort` | src/core/data/game_state.py:42 | With eleven or more players the wall runs out: seat 10 gets 6 tiles and later seats none. |
| `GameStates.TencentInitialDeal` | src/core/data/game_state.py:32-43 | Four players: each gets 13 tiles, 84 remain, and hands plus wall are exactly the standard set. |

## Left out

- `Card.is_visible` (src/core/data/card.py:12) is not modelled: no core code reads it.
- A rank is a natural number. A numeral or honour card built with any other rank text is not representable, for example `Card('万', '东')`, where `int()` would raise `ValueError`.
- The string hash behind `Card.__hash__` is a parameter: Python's hash is randomised per process.
- Players are values and are named by seat number. Object identity and aliasing are not captured. For example, `current_player` is a seat index, and `next_player`, `previous_player` and `from_player` are seat indices.
- `random.shuffle` is Fisher–Yates with the random draws as a parameter `pick`. No distribution is modelled, only that the result depends on the draws and is a permutation.
- The rule object is an immutable configuration record, because the source never reassigns its fields after construction. Every configuration builds the same 136-tile deck, as `create_initial_deck` ignores the configuration.
- `max_fans` is a natural number. A negative cap would make `2 ** fans` a float, which is out of scope.
- The abstract methods of the base rule (they raise `NotImplementedError`) are not modelled.
- Not part of this model:
  - the AI strategies and risk evaluation, which are floating-point heuristics;
  - the terminal and graphical interfaces;
  - the turn handler and the game loop;
  - the timestamp of an action record.
- The rule tests describe fans and multipliers that the code does not contain. They are not encoded.
- `ActionRules.ValidActions` follows the code as written, so it uses the `next_player` chow check and the bare-discard shape. The corrected chow rule and the recorded discard sit beside it (see Findings).

## Findings

| source | as written | input that shows it | evidently intended | confidence | as-written member | corrected member |
|---|---|---|---|---|---|---|
| src/core/logic/deck_manager.py:83 | `discard_card` stores the bare tile as `last_discarded_card`. `get_valid_actions` then reads `.card` and `.from_player` from it (src/rules/tencent_common/action_rules.py:78-79). | Any discard followed by an action query, e.g. discarding 万1 | The last discard records the tile and the discarding seat | high, not executed | `ActionRules.BareDiscardRaises` (with `DeckManager.DiscardCard`) | `ActionRules.ClaimedDiscardAnswers` (with `DeckManager.DiscardCardFrom`) |
| src/rules/tencent_common/action_rules.py:16 | Chow is allowed only from the seat in `next_player` (下家), but the docstring asks for the seat before, 上家, which is `previous_player` (src/core/data/player.py:18). | Four seats: seat 1 holds 万1 万2 (previous seat 0, next seat 2) and seat 0 discards 万3 | Chow only on a discard from `previous_player` | high, not executed | `ActionRules.ChowSeatExample`, `ActionRules.ChowRefusesPreviousSeat` | `ActionRules.ChowIntended`, proved in `ActionRules.ChowIntendedFormsRun` |
| src/rules/tencent_common/action_rules.py:20 | Chow is refused when any held tile has a suit other than the discard's | Hand 万1 万2 筒5, discard 万3 from the checked seat | Only the run's own tiles must share the suit ("只能吃同种花色的牌") | medium, not executed | `ActionRules.ChowMixedHandExample` | `ActionRules.ChowIntended`, proved in `ActionRules.ChowIntendedFormsRun` |
