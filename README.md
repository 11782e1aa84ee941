# A verified model of the risk-rl game engine

This project models the engine of risk-rl, a Risk board game written in Python for training agents. The model covers:

- the board of 42 countries and its borders;
- the five continents and their bonuses;
- the players' country lists and card hands;
- the `Game` class that runs setup, card trading, reinforcement, attack, battle, fortification and turn order;
- the flat attack action space an agent picks from.

Dafny proves, about that model, the properties the code and its design promise (listed in the table below).

## Modules

- `Countries` holds the 42 constants of `COUNTRIES` as the ids 0..41, in the order they are declared, with their names and continent labels.
- `CountryRecords` models the `Country` record as a class. It stands alone: `Engine` keeps the board in its `owner` and `soldiers` sequences, and no lemma ties a record's army to `soldiers[c]`. Its `army` slot starts empty and is replaced through the setter. `__str__` renders `name(n)`; the decimal digits come from `Decimal`.
- `Armies` declares the `Army` value the record holds.
- `Continents` holds the five `Continent` records of `CONTINENTS`.
- `GameMap` keeps the 92 `add_edge` calls of `initialize_game_map` as data. It also keeps the neighbour lists as a table, written in the order networkx reports them (first appearance among the calls). It proves that the table and the calls agree on who borders whom; the order within each list is transcribed, not derived.
- `Cards` models card types, the 42-card deck and the trade-in reward schedule.
- `Players` models the `Player` class.
  - It has `countries`, plus the per-player state that risk/game.py reads and writes but risk/player.py in this revision does not declare: the hand (one list of cards per type), the pool of unassigned soldiers and the trade-in counter.
  - A hand is modelled as a value, and a trade-in pops from its lists.
- `Combat` models the dice: the sort of `roll_dice`, the pairwise comparison of `battle` and the soldiers that move into a conquered country.
- `ActionSpace` models the attack action tables `Game.__init__` builds, `decode_attack_option` and the loop of `get_attack_options_encoded`.
- `AttackOptions` models `get_attack_options`.
- `Fortification` models `get_fortify_options` and the assertions of `fortify`.
  - networkx's connected components become paths through the player's own countries, plus a closure computation.
  - `float('inf')` is the `Inf` case of `Ext`.
- `Engine` models the `Game` class.
  - The class holds the players and the board: `owner[c]` and `soldiers[c]` stand for `country.owner` and `country.army.n_soldiers`. It also holds the deck, the used cards, the turn, the phase and the once-per-round conquest flag.
  - The invariant `Valid` ties the board to the players' lists. A ghost field `lists` mirrors those lists.
  - Each method of the source is a method with a `Status` result:
    - `AssertionError` for a failed `assert`; the model then leaves the state unchanged.
    - `IndexError` for a `pop` from an empty deck.
  - `IsGameOver` is the end test `num_players == 1` of `gameplay_loop`.
- `Sorting` is a stable insertion sort, standing for Python's `list.sort`.
- `Util` holds the sequence and multiset helpers.

## Randomness and the game loop

Every random choice is an input:
- the order `random.shuffle` gives `COUNTRIES`;
- the `randint` picks of the initial distribution;
- the face values the dice show;
- the arrangement of the shuffled deck;
- the arrangement of the reshuffled used cards.

`COUNTRIES` is shuffled in place before the action tables are built, so the tables follow the shuffled order (`Game.order`).

`attack` takes the thrown dice. It sorts them with `RollDice` the way `roll_dice` does, and `Battle` takes the sorted rolls.

## Where the code and its documentation differ

The model follows the code, except in three places where the code as written cannot run. There the model takes the evident intent:

- risk/game.py:37 builds `GameMap(display_map=..., player_colors=...)`, but the `GameMap` of risk/game_map.py takes no such arguments. The model's board graph is its `initialize_game_map`.
- risk/game.py:316 calls `get_subgraph`, which risk/game_map.py does not define. The model reads it as the player's countries with the borders between them.
- risk/game.py:220-222 reads `neighbor.continent.countries`, but `continent` is a plain string label in risk/country.py, so the line raises `AttributeError`. `AttackOptions.RankedAttackOptions` and `AttackOptions.GetAttackOptions` read "the countries of the target's continent" as the countries that carry the target's label.
- `reinforce` tests `country.army.owner == player`, and `battle` sets `country.owner`. The model keeps one owner per country, because the two are always assigned together.
- Neither `assign_soldiers` nor `fortify` asks for a positive count, and neither does the model. A negative count moves soldiers the other way.
- The four Australian countries carry the label `'Australia'`, but no `Continent` record lists them. So `reinforce` never pays an Australia bonus.

## Model

| member | source | states |
|---|---|---|
| Countries.AllCountriesEnumerates | risk/country.py:70 | `COUNTRIES` lists each of the 42 countries exactly once, in declaration order |
| Countries.NamesDistinct | risk/country.py:27-68 | no two of the 42 countries share a name |
| Countries.LabelRuns | risk/country.py:27-68 | the continent labels take consecutive runs of 9 North America, 4 South America, 7 Europe, 6 Africa, 12 Asia and 4 Australia countries, and no label occurs outside its run |
| CountryRecords.Country.constructor | risk/country.py:6-9 | a new country has its name and label and no army |
| CountryRecords.Country.SetArmy | risk/country.py:15-17 | after the setter, the getter returns the value set |
| CountryRecords.Country.Str | risk/country.py:19-21 | `str(country)` is the name, then the soldier count in parentheses; the text between the parentheses is a decimal numeral that reads back as the count |
| CountryRecords.Country.Repr | risk/country.py:24-25 | `repr(country)` is the name, which is exactly the part of `str(country)` before the opening parenthesis |
| CountryRecords.Render | risk/country.py:19-21 | the rendering is at least three characters longer than the name |
| CountryRecords.RenderReadsBack | risk/country.py:19-21 | the rendering is the name, `(`, a signed decimal that parses back to the army's soldier count (0 without an army), and `)` |
| CountryRecords.RenderInjective | risk/country.py:19-21 | two renderings of one name are equal exactly when they show the same soldier count |
| Decimal.NatRoundTrip | risk/country.py:21 | parsing the decimal digits of a natural number gives the number back, and only 0 starts with the digit 0 |
| Decimal.IntRoundTrip | risk/country.py:21 | `int(str(i)) == i` for every integer, negative ones included |
| Continents.StrDistinct | risk/continent.py:8-17 | `str` gives the five continents of `CONTINENTS` five different strings |
| Continents.ContinentTable | risk/continent.py:11-17 | there are five continents, with bonuses 5, 2, 5, 3, 7 and sizes 9, 4, 7, 6, 12 |
| Continents.MembersAreRuns | risk/continent.py:11-15 | each record lists exactly one consecutive run of the country ids |
| Continents.MembersCarryLabel | risk/continent.py:11-15 | every member's `continent` label is its continent's name |
| Continents.MembersDisjoint | risk/continent.py:11-15 | no country is listed by two continents |
| Continents.MembersNoDup | risk/continent.py:11-15 | no continent lists a country twice |
| Continents.CoverageOmitsAustralia | risk/continent.py:17 | a country belongs to some continent record exactly when it is not one of the four labelled Australia |
| GameMap.CallsReflected | risk/game_map.py:48-139 | every `add_edge(a, b)` call puts each of `a`, `b` on the other's neighbour list |
| GameMap.AdjacentIffCalled | risk/game_map.py:48-139 | two countries border each other exactly when some call names them, in either order |
| GameMap.Symmetric | risk/game_map.py:48-139 | adjacency is symmetric |
| GameMap.NoSelfLoops | risk/game_map.py:48-139 | no country borders itself, and no call names one country twice |
| GameMap.NeighborsNoDup | risk/game_map.py:48-139 | no neighbour list repeats a country, so repeated calls add nothing |
| GameMap.RepeatedCalls | risk/game_map.py:48-139 | there are 92 calls, and some borders are added more than once, among them Brazil–North Africa, Mongolia–China, Iceland–Greenland and Ukraine–Ural |
| GameMap.AlaskaBorders | risk/game_map.py:48-129 | Alaska's neighbours, in reporting order, are the Northwest Territory, Alberta and Kamchatka |
| GameMap.NorthwestBorders | risk/game_map.py:48-52 | the Northwest Territory's neighbours are Alaska, Alberta, Ontario and Greenland |
| GameMap.IndonesiaBorders | risk/game_map.py:123-125 | Indonesia's neighbours are Siam, New Guinea and Western Australia |
| GameMap.DegreeBounds | risk/game_map.py:48-139 | every country has between two and six neighbours, so no action block is empty |
| GameMap.TotalDegree | risk/game_map.py:48-139 | the degrees add up to 164: 82 distinct borders |
| Cards.Value | risk/card.py:11-15 | a card type's string value is not empty |
| Cards.ValuesDistinct | risk/card.py:5-8 | two card types have the same value exactly when they are the same type |
| Cards.CardEquality | risk/card.py:21-22 | two cards are equal exactly when their types are |
| Cards.Repeat | risk/card.py:28-30 | `[x] * n` has length `n` and holds only `x` |
| Cards.InitDeck | risk/card.py:27-34 | the unshuffled deck has 42 cards |
| Cards.DeckComposition | risk/card.py:27-31 | the deck holds 14 cards of each type |
| Cards.ShuffledDeckComposition | risk/card.py:27-34 | any shuffle of the deck still has 42 cards, 14 of each type |
| Cards.ShuffleIsFullDeck | risk/card.py:33 | the arrangements a shuffle can produce are exactly the 42-card sequences with 14 of each type |
| Cards.TradeInRewards | risk/card.py:37-41 | every trade-in pays at least 4 soldiers |
| Cards.RewardSchedule | risk/card.py:36-41 | the first seven trade-ins pay 4, 6, 8, 10, 12, 15, 20, and after the sixth each pays 5 more than the one before |
| Cards.RewardsIncreasing | risk/card.py:36-41 | every trade-in pays strictly more than each earlier one |
| Util.RemoveFirst | risk/player.py:10-11 | `list.remove` drops exactly the first occurrence and keeps the rest in order |
| Util.RemoveFirstMembers | risk/player.py:10-11 | on a list without repeats, removing `x` leaves exactly the other members, still without repeats |
| Util.RemoveAfterAppend | risk/player.py:7-11 | appending a country that is not on the list and removing it again gives the original list |
| Players.Player.constructor | risk/player.py:2-5 | a new player has its name, no countries and 0 soldiers, with an empty hand, pool and trade-in count |
| Players.Player.AddCountry | risk/player.py:7-8 | the country is appended at the end |
| Players.Player.RemoveCountry | risk/player.py:10-11 | the first occurrence of the country leaves the list |
| Players.EmptyHandWellFormed | risk/player.py:2-5 | the empty hand has a list for each type and holds no cards |
| Players.WithCardSpec | risk/game.py:386 | appending a drawn card to its type's list adds exactly that card and keeps the hand well formed |
| Players.WithoutLastSpec | risk/game.py:399 | popping the last card of a type's list removes one card of that type and keeps the hand well formed |
| Players.TradeSpec | risk/game.py:397-399 | after the pops of a trade-in the hand stays well formed and lacks exactly the combination's cards |
| Players.PlayCards | risk/game.py:397-399 | the pop loop leaves the traded hand and plays the cards of the combination |
| Sorting.SortBy | risk/game.py:352 | sorting returns a permutation of its input |
| Sorting.SortBySorted | risk/game.py:352 | under a total preorder, the result is ordered |
| Sorting.SortByMembers | risk/game.py:352 | sorting keeps exactly the same members |
| Combat.RollDiceSpec | risk/game.py:254-256 | `roll_dice` returns the values thrown, highest first, each still a die face |
| Combat.DefenderDice | risk/game.py:266 | the defender rolls exactly `min(2, n)` dice for `n` soldiers: two from two soldiers up, one from one, none from none |
| Combat.CountLosses | risk/game.py:271-278 | the defender loses one soldier per pair the attacker's die wins strictly; the two losses together are the number of pairs |
| Combat.WinsAtMost | risk/game.py:273-277 | the attacker wins at most every pair, and wins all of them exactly when each of its dice is higher |
| Combat.DefenderNeverNegative | risk/game.py:266-280 | the defender's count never drops below zero |
| Combat.ConquestWinsEveryPair | risk/game.py:266-285 | a conquest means the attacker won every pair and lost nothing |
| Combat.SoldiersToMove | risk/game.py:301-303 | the move is the attacking count unless that would leave the origin with no soldier; then it is everything but one soldier, so exactly one stays behind |
| ActionSpace.OrderFacts | risk/game.py:153-154 | a shuffled `COUNTRIES` is exactly a rearrangement of the 42 countries |
| ActionSpace.BuildTables | risk/game.py:58-68 | `__init__` builds tables in which each country of the shuffled order owns the block that starts at three times the neighbour count of the countries before it |
| ActionSpace.BuildOffsets | risk/game.py:59-68 | the offset loop and the inverted map yield the offsets of the order, maps from country to offset and back, and a total of the last offset plus one |
| ActionSpace.OffsetsIncrease | risk/game.py:62-65 | each block is `3 * neighbours` wide and the blocks follow one another without overlap |
| ActionSpace.OffsetIsDegreeSum | risk/game.py:62-65 | a block starts at three times the degree sum of the countries before it |
| ActionSpace.TotalActions | risk/game.py:67 | whatever the shuffle, `total_attack_options_cnt` is 3 * 164 + 1 = 493 |
| ActionSpace.BisectRight | risk/game.py:108 | `bisect_right` returns the first position whose element exceeds the key |
| ActionSpace.PyIndex | risk/game.py:109 | Python indexing succeeds exactly for indices from `-len` to `len - 1` |
| ActionSpace.Decode | risk/game.py:104-117 | a decoded attack commits 1 to 3 soldiers |
| ActionSpace.DecodeEnds | risk/game.py:104-117 | the last index is the skip action, and an index outside the table raises `IndexError` |
| ActionSpace.EncodeDecode | risk/game.py:108-117 | the slot `offset(c) + 3k + n - 1` lies below the skip slot and decodes to "attack the `k`-th neighbour of `c` with `n`" |
| ActionSpace.DecodeEncode | risk/game.py:108-117 | every index below the skip slot decodes to an attack across a border with 1 to 3 soldiers, and that attack's slot is the index |
| ActionSpace.DecodeInjective | risk/game.py:104-117 | two attack slots decode to the same attack exactly when they are the same slot |
| ActionSpace.FillMask | risk/game.py:83-102 | the mask has `total` slots, and a slot is 1 exactly when it is the skip slot or the loop writes it |
| ActionSpace.MarkDecodes | risk/game.py:93-98 | a slot the loop writes, in either layout, decodes to an attack from the visited country on one of its neighbours |
| ActionSpace.AsWrittenMaskOrigins | risk/game.py:85-98 | every slot the mask as written marks decodes to an attack from an owned country that does not hold exactly one soldier |
| ActionSpace.CorrectedMaskIsLegal | risk/game.py:83-117 | with the stride and the soldier test repaired, a slot is marked exactly when it decodes to an attack `attack` accepts |
| ActionSpace.AsWrittenMarksFriendlyTarget | risk/game.py:93-98 | the mask as written can mark a slot that decodes to an attack on the player's own country |
| ActionSpace.AsWrittenMarksEmptyOrigin | risk/game.py:86-88 | the mask as written marks an attack from a country with no soldiers |
| AttackOptions.RemainingEnemies | risk/game.py:221-223 | the list holds exactly the other countries of the target's continent the player does not hold |
| AttackOptions.OptionsOver | risk/game.py:218-230 | one entry for each neighbour the player does not hold |
| AttackOptions.OptionsFrom | risk/game.py:215-230 | the entries of every owned country that does not hold exactly one soldier |
| AttackOptions.Strip | risk/game.py:233 | the final comprehension keeps the order and drops the flag and the difference |
| AttackOptions.NoRemainingEnemies | risk/game.py:221-227 | no enemy remains exactly when the player holds the rest of the target's continent |
| AttackOptions.RankedAttackOptionsSpec | risk/game.py:213-233 | an attack is listed exactly from an owned country not holding exactly one soldier onto an unowned neighbour; it secures a continent exactly when the player holds the rest of the target's continent and has more soldiers; continent-securing attacks come first, then larger differences |
| Fortification.Closure | risk/game.py:319 | a component is closed under owned neighbours and stays within the owned countries |
| Fortification.ComponentIsLinked | risk/game.py:316-321 | a country is in another's component exactly when a path through owned countries joins them |
| Fortification.EnemiesAmong | risk/game.py:326 | the list holds exactly the neighbours the player does not hold |
| Fortification.MinDiff | risk/game.py:328 | the minimum lead is at most the lead over each enemy and equal to one of them |
| Fortification.TroopDiff | risk/game.py:325-330 | the difference is infinite exactly when every neighbour is owned, and otherwise the smallest lead over a hostile neighbour |
| Fortification.ByKeyTotal | risk/game.py:352 | the sort key `(dest_diff, -dest_n, -origin_diff, -origin_n)` is a total preorder: any two options compare, and the order is transitive |
| Fortification.OptionsTo | risk/game.py:332-350 | one option for each other country of the origin's component |
| Fortification.OptionsFrom | risk/game.py:319-350 | the options of every origin with at least two soldiers |
| Fortification.FortifyOptionsSpec | risk/game.py:315-353 | an option is listed exactly for two different owned countries joined through owned countries whose origin holds at least two soldiers, with those countries' differences and counts, and the list is ascending by the key |
| Fortification.CorrectedAllowsConnected | risk/game.py:363-368 | looking up the pair accepts exactly a move between two different connected owned countries whose origin holds at least two soldiers |
| Fortification.AsWrittenAllowsDisconnected | risk/game.py:364-368 | the separate lookups as written accept a move between two owned countries that no owned path joins |
| Engine.PhaseValue | risk/game.py:15-19 | each phase has a value from 0 to 3 |
| Engine.PhaseOf | risk/game.py:149 | `GamePlayState(v)` is the phase whose value is `v` |
| Engine.PhaseCycle | risk/game.py:146-149 | the phases cycle cards, draft, attack, fortify and back, and four steps return to the start |
| Engine.InitialArmies | risk/game.py:152-156 | the initial army exists exactly for 2 to 6 players (a `KeyError` otherwise) and is `50 - 5 * players` |
| Engine.BaseReinforcements | risk/game.py:178 | the base grant is `len // 3`, but never below 3 |
| Engine.BonusBounds | risk/game.py:180-182 | the continent bonus is never negative, and it is zero exactly when the player holds no whole continent |
| Engine.ReinforcementExamples | risk/game.py:177-184 | without a whole continent, 9 countries give 3 soldiers and 30 give 10, and nobody gets fewer than 3 |
| Engine.WholeMapReinforcements | risk/game.py:177-184 | holding the whole map gives 14 + 22 soldiers |
| Engine.AustraliaPaysNothing | risk/game.py:180-182 | whether the player holds Australian countries never changes the bonus |
| Engine.Seat | risk/game.py:159 | the `i % num_players` seat is a valid player index |
| Engine.DealtSpec | risk/game.py:158-161 | each player is dealt exactly the countries at its round-robin positions, once each |
| Engine.DealOwnership | risk/game.py:158-161 | a country is on a player's dealt list exactly when its position in the shuffled order falls to that player's seat |
| Engine.Deal | risk/game.py:158-162 | the deal loop gives the country at position `k` to player `k % n`, puts one soldier on it and appends it to that player's list |
| Engine.Distribution | risk/game.py:169-172 | slot `m` counts the picks of `m`, and the slots add up to the number of picks |
| Engine.ApplySlots | risk/game.py:174-175 | each country the player owns gains its distribution slot |
| Engine.SpreadArmies | risk/game.py:169-175 | a player's countries gain their counts of the picks, other countries are unchanged, and the player's total grows by the number of picks |
| Engine.SpreadAll | risk/game.py:164-175 | every player's total grows by its number of picks; each country gains its picks |
| Engine.SetupBoard | risk/game.py:158-175 | after the deal and spread, each player's army is its initial army (or its country count, if larger), and the `k`-th country of a player's list holds one soldier plus the number of that player's picks of `k` |
| Engine.Setup | risk/game.py:151-175 | the whole setup: the dealt lists, the board they agree with, each player's army, and on the `k`-th country of a player's list one soldier plus that player's picks of `k` |
| Engine.Without | risk/game.py:293-294 | `players.pop(i)` drops the `i`-th item and keeps the rest in order |
| Engine.OwnerLists | risk/game.py:160-161 | on a consistent board, a player owns a country exactly when it is on that player's list |
| Engine.TransferConsistent | risk/game.py:287-298 | moving a country from one player's list to another's keeps the board and the lists in agreement |
| Engine.EliminateConsistent | risk/game.py:289-295 | dropping a player with no countries keeps the board and the lists in agreement |
| Engine.ConquestConsistent | risk/game.py:285-298 | the conquest keeps the board and the lists in agreement, and the attacker stays in the game |
| Engine.GiveCountry | risk/game.py:161 | `add_country` changes the one player's list and no other |
| Engine.TakeCountry | risk/game.py:287 | `remove_country` changes the one player's list and no other |
| Engine.DropPlayer | risk/game.py:293-295 | after the pop the remaining players are still distinct and keep their lists |
| Engine.MoveCountry | risk/game.py:287-298 | the country leaves the defender's list and joins the end of the attacker's; the defender is dropped when its list is left empty |
| Engine.Skirmish | risk/game.py:271-280 | the origin loses the pairs the attacker lost and the target the pairs it won |
| Engine.LossesSum | risk/game.py:279-280 | the board loses exactly both sides' losses |
| Engine.MoveSoldiers | risk/game.py:301-305 | the move into the conquered country loses only the target's old army |
| Engine.ConquestMovesAll | risk/game.py:301-305 | on a conquest `attack` allowed, the origin has lost nothing, all attacking soldiers move and the origin keeps at least one |
| Engine.DrawSpec | risk/game.py:377-386 | a draw fails only when the deck and the used cards are both empty; otherwise the hand gains the last card of the deck (of the reshuffled used cards when the deck is empty); no card is made or lost |
| Engine.TradeConserves | risk/game.py:388-404 | a trade-in moves the combination's cards from the hand to the used cards; deck, used cards and hand keep their total |
| Engine.FortifiedSpec | risk/game.py:371-372 | exactly `n` soldiers go from the origin to the destination (none when they are one country), no other country changes, and the board total is kept |
| Engine.Game.OwnershipAgrees | risk/game.py:160-161 | a player owns a country exactly when it is on the player's list |
| Engine.Game.constructor | risk/game.py:30-48 | a new game keeps the players and the shuffled order, starts in the cards phase with player 0 and is valid, with the dealt lists, armies and per-country soldiers (one plus the picks) of the setup |
| Engine.Game.AssignCountriesAndInitializeArmies | risk/game.py:151-175 | the setup: the dealt lists, each player's army, and on the `k`-th country of a player's list one soldier plus that player's picks of `k` |
| Engine.Game.NextPlayer | risk/game.py:142-144 | the turn passes to the next player in `players`, cyclically, and the conquest flag is cleared |
| Engine.Game.NextPhase | risk/game.py:146-149 | the phase advances one step; the player changes only when the fortify phase ends |
| Engine.Game.Reinforce | risk/game.py:177-184 | the pool grows by exactly the base grant plus the bonuses of the continents the player holds |
| Engine.Game.AssignSoldiers | risk/game.py:201-209 | the call succeeds exactly for the current player's own country and a count within the pool; exactly `n` soldiers move from the pool to the country; pool plus board total is kept |
| Engine.Game.Conquer | risk/game.py:285-305 | the conquered country changes its owner and lists; the defender is dropped when it lost its last country |
| Engine.Game.Battle | risk/game.py:259-308 | the sides lose the pairs of dice they lost; a conquest happens exactly when the target is left with no soldier. Without one, the owners, the lists and the players stay as they were. With one, the country changes owner, the attacker moves in, the target is appended to the attacker's list and its first occurrence removed from the defender's, and a defender left with no country is dropped from the players |
| Engine.Game.Reward | risk/game.py:247-249 | only the first conquest of the round draws a card; the flag is set when the draw finds one |
| Engine.Game.Engage | risk/game.py:245-249 | the battle for the sorted rolls, with its effect on the owners, the lists and the players, then the card of the round's first conquest |
| Engine.Game.Attack | risk/game.py:235-252 | an attack is refused, with nothing changed, exactly when one of its assertions fails; otherwise it has the effect of the battle on the soldiers, the owners, both players' lists and the player list (the defender is eliminated when the target was its last country), and the card draw |
| Engine.Game.DrawCard | risk/game.py:377-386 | only the current player draws; the deck, used cards and hand become those of the draw |
| Engine.Game.TradeInCards | risk/game.py:388-404 | only the current player trades; the counter goes up by one, the pool gains the reward of the new count, and the combination moves from the hand to the used cards |
| Engine.Game.Fortify | risk/game.py:355-372 | the move is accepted exactly when every assertion holds, and then exactly `n` soldiers move; otherwise nothing changes |
| Engine.Game.AttackOptionsEncoded | risk/game.py:83-102 | a fresh mask of `total` slots whose last slot is 1 and whose other slots are 1 exactly where the loop over the player's countries writes |

## Left out

- Drawing and display (`visualize`, `draw_map`, `positions`, the colour palette and `assign_unique_colors`) and all `logging` output: they do not affect the game state.
- Randomness itself (`random.shuffle`, `random.randint`): its outcomes are parameters, as described above.
- The networkx internals: `has_edge`, `neighbors` and `connected_components` are stated over the neighbour table. The order in which networkx lists a component's countries is not modelled. The model lists fortify options in the order of the player's country list, so options with equal sort keys may come out in a different order than in the source; options with different keys are in the same order.
- `get_game_state_encoded` and `get_player_army_summary`: numpy and float encodings the engine's rules do not use.
- `gameplay_loop`'s calls into the player policies: the policies are outside the engine. The end test `num_players == 1` is `Engine.Game.IsGameOver`.
- `player.game`, `Player.__str__`, `Card.__hash__` and the `CardType.__repr__` alias: nothing here depends on them. `Cards.Value` covers `__str__`.
- risk/army.py is not part of this model. An army is its owner and soldier count. `country.army.owner` is always set together with `country.owner`, so the board keeps one owner per country.
- The action tables are not a field of `Game`. `ActionSpace.BuildTables` builds them from `Game.order`. `Engine.Game.AttackOptionsEncoded` takes them with the requirement `TablesFor(t, order)`.
- Engine.Game.DrawCard, Engine.Game.TradeInCards, Engine.Game.Attack: each requires a well-formed hand (`HandOk`) instead of keeping it in `Valid`. `Engine.DrawSpec` and `Engine.TradeConserves` prove the draw and the trade keep it.
- Engine.Game.TradeInCards: player.py in this revision has no `get_trade_in_options`. The membership check is the requirement that the hand holds the combination's cards (`Holds`).
- Engine.Game.Attack: the caller passes as many dice as are rolled. For the attacker that is `n`, when `n` passes the range check; for the defender it is `min(2, soldiers)`.
- Players.Player.RemoveCountry: requires the country to be on the list. The `ValueError` of `list.remove` is not modelled, because `battle` only removes a country the defender owns.
- `card_deck = used_cards` makes the two names share one list until the next assignment. The model copies values; nothing in the source mutates the list through the old name in between.
- Engine.Setup: `random.shuffle(COUNTRIES)` also changes the module-level list for the rest of the program. The model keeps the shuffled order in `Game.order` and leaves `Countries.AllCountries` as declared.
- Sorting.SortBy: the sort is stable, like Python's, but no lemma states stability. The contracts say the result is ordered and a permutation.
- AttackOptions.RankedAttackOptions, AttackOptions.GetAttackOptions: as written, `get_attack_options` raises `AttributeError` at `neighbor.continent.countries` as soon as it meets a neighbour the player does not hold. The model does not capture that failure; it computes the intended list, taking the continent from the label.
- GameMap.Neighbors: the order of each neighbour list is transcribed from what networkx reports for the calls, not derived from the calls; the proof covers membership only.
- Python integers are unbounded, and so are Dafny's; nothing wraps. The numpy mask of floats is an `array<int>` of 0 and 1.

## Findings

Two of these are in `get_attack_options_encoded`, one in `fortify`. `Engine.Game.AttackOptionsEncoded` and `Engine.Game.Fortify` take a `layout`:
- `AsWritten` follows the code as written;
- `Corrected` follows the evidently intended behaviour, which the corrected lemmas are about.

| source | as written | input that shows it | evidently intended | confidence | as-written member | corrected member |
|---|---|---|---|---|---|---|
| risk/game.py:93-98 | the mask writes slot `offset + k + j` for the `k`-th neighbour, while `decode_attack_option` reads `offset + 3k + j` (lines 110-112) | a player holds Alaska (two soldiers or more) and the Northwest Territory, but not Alberta. The slot written for "attack Alberta" is `offset(Alaska) + 1`, which decodes to "attack the Northwest Territory with 2", the player's own country | stride 3, so every marked slot decodes to an attack `attack` accepts | not executed | ActionSpace.AsWrittenMarksFriendlyTarget | ActionSpace.CorrectedMaskIsLegal |
| risk/game.py:86-88 | only a country with exactly one soldier is skipped | a `fortify` moves every soldier out of Alaska, leaving 0. The mask still marks "attack the Northwest Territory with 1", which `attack` refuses | skip every country with fewer than two soldiers | not executed | ActionSpace.AsWrittenMarksEmptyOrigin | ActionSpace.CorrectedMaskIsLegal |
| risk/game.py:364-368 | `fortify` checks that the origin is among the option origins and the destination among the option destinations, separately | a player holds Alaska and the Northwest Territory, and Indonesia and New Guinea, with at least two soldiers in Alaska and Indonesia. Moving from Alaska to New Guinea passes, though no owned path joins them | the pair must be one of the options | not executed | Fortification.AsWrittenAllowsDisconnected | Fortification.CorrectedAllowsConnected |
