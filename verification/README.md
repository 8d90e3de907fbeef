# Tiny World — Duel Edition: the game rules in Dafny

`tiny_world_duel.py` is a one-file pygame demo. A player walks a fixed 10 × 6 map of grass, water
and walls. The game means them to pick up the Sword of Dawn, which sets their attack bonus to 6;
as written the sword lies on water and cannot be reached (see Findings). They fight a
wandering Knight in a turn-based duel of Attack or Run. This project models the rules of that
game as pure functions over an immutable `State`. The state holds the player, the knight, the
sword (an `Option`: lying in the world or gone), the mode (`Explore` or `Battle`), the message
line and the four-line event log. Every random outcome is an explicit argument: the wander order
is a permutation of the four directions, a hit is a boolean, and a damage draw is an integer
required to lie in its range.

Modules, leaf to root:

- `Wrappers`: the `Option` type.
- `Grid` (grid.dfy): the map rows, terrain, `Passable`, Manhattan `Adjacent`, and the four steps.
- `EventLog` (eventlog.dfy): `AddLog`, the sliding window of the four latest lines.
- `Decimal` (decimal.dfy): how a damage number is rendered into a log line (`f"{dmg}"`).
- `World` (world.dfy): the entities, the whole `State`, the state invariant `Valid` and the
  initial state.
- `Movement` (movement.dfy): `move_entity` and the knight's `npc_wander`.
- `Interaction` (interaction.dfy): `interact`, `start_battle`, `inventory_text`.
- `Combat` (combat.dfy): `player_attack`, `knight_attack`, `battle_turn`, `run_from_battle`.
- `Session` (session.dfy): `handle_explore_action`, `handle_battle_action`, the mode dispatcher,
  `Play` (a series of handler calls), and the main loop over key presses (`Loop`).
- `Duel` (duel.dfy): how long a battle against an armed player can last.
- `Layout` (layout.dfy): what the start layout allows, namely whether the sword can be reached.

The model follows the code as written, including these behaviours:

- The knight wanders only after a *successful* step or after `e` (lines 289-301). It does not
  wander after every action.
- A blocked step changes nothing at all, not even the message: `moved` stays false and the
  message is not touched (lines 295-302).
- In battle, Q or Escape flees instead of quitting (line 317).
- Victory is checked as `knight hp <= 0` (line 260). A knight already at 0 health therefore
  "loses" again on a miss, and each such round pays another 20 gold.
- The player starts on water at (2,2) and the knight starts inside a wall at (7,3). Both are kept
  as written. Neither position is ever re-validated, and the player can still step off.

## Model

| member | source | states |
|---|---|---|
| Grid.TerrainIsMap | tiny_world_duel.py:14-21 | the three-feature terrain function agrees with the map rows character by character |
| Grid.PassableExactlyGrass | tiny_world_duel.py:9-24 | every tile off the 10 × 6 map is impassable; on the map, a tile is passable exactly when its map character is `.` |
| Grid.AdjacentIsOneStep | tiny_world_duel.py:26-27 | Manhattan distance exactly 1 holds iff one of the four cardinal steps leads from one tile to the other |
| EventLog.AddLog | tiny_world_duel.py:49-52 | the new line is last; what precedes it is the old log, minus its oldest line when the log was full; a log within capacity stays within capacity |
| EventLog.AddAllIsWindow | tiny_world_duel.py:49-52 | after any series of appends, the log is exactly the last min(n, 4) lines of the whole history, in append order, and never longer than 4 |
| EventLog.FiveAppendsKeepLastFour | tiny_world_duel.py:49-52 | five appends to an empty log leave the last four, oldest evicted first |
| Decimal.NatToString | tiny_world_duel.py:241 | a damage number is written as a non-empty string of digits without a leading zero |
| Decimal.ValueOfNatToString | tiny_world_duel.py:252 | reading back the written digits gives the damage number |
| Decimal.IntToString | tiny_world_duel.py:241 | `f"{dmg}"` for any int: a non-negative number is written as its shortest numeral (digits that read back as the number, no leading zero); a negative one as `-` followed by the shortest numeral of its magnitude |
| World.InitialState | tiny_world_duel.py:30-47 | the corrected start: player, knight, mode and log as written, but with the sword on the grass tile (5,1) instead of the water tile (4,1) of line 42; it satisfies the state invariant, begins in explore mode, and its sword tile is passable |
| World.InitialStateAsWritten | tiny_world_duel.py:30-47 | the start as written satisfies the invariant, but its sword tile is impassable |
| World.StartTilesAsWritten | tiny_world_duel.py:14-42 | the player starts on water, the knight in a wall and the sword on water |
| Movement.MoveEntity | tiny_world_duel.py:197-202 | the move succeeds iff the target is passable and, for anyone but the knight, not the knight's tile; on success only the mover's position changes, by exactly (dx, dy); on failure nothing changes |
| Movement.FirstAdmissible | tiny_world_duel.py:204-209 | the chosen index is the first admissible direction of the order; when none is chosen, no direction in the order is admissible |
| Movement.NoneAdmissible | tiny_world_duel.py:204-209 | when no entry of a permutation of the four directions is admissible, no direction at all is |
| Movement.NpcWander | tiny_world_duel.py:204-209 | only the knight's position changes; it stays put iff no cardinal step is admissible; otherwise it lands one step away, on a passable tile that is not the player's, via the first admissible direction of the order (`WanderedTo`) |
| Movement.WanderedToUnique | tiny_world_duel.py:204-209 | the wander rule is deterministic given the order: two destinations that both follow it are the same tile |
| Interaction.StartBattle | tiny_world_duel.py:227-231 | battle mode, the battle message and the encounter log line; player, knight and sword untouched |
| Interaction.Interact | tiny_world_duel.py:211-225 | on the sword: the sword's name is appended to the bag, the bonus is set to 6, the sword leaves the world, the pickup message is shown, the pickup line is logged and the mode is kept; otherwise bag, bonus and sword are untouched; a battle starts iff the player is off the sword and adjacent to the knight, with the battle message and the encounter line logged; otherwise only the message changes, to "Nothing to interact with here." |
| Interaction.InteractPreservesValid | tiny_world_duel.py:211-231 | interacting keeps health bounds, gold, log capacity and "sword in the world XOR in the bag" |
| Interaction.PickupAtMostOnce | tiny_world_duel.py:211-220 | once the sword is gone, interacting never adds to the bag, never changes the bonus and never brings the sword back |
| Interaction.JoinSnoc | tiny_world_duel.py:279 | joining one more item appends ", " and that item |
| Interaction.JoinLength | tiny_world_duel.py:279 | the joined text is as long as all items plus two characters per separator |
| Interaction.InventoryText | tiny_world_duel.py:278-279 | the text starts with "Inv: " and continues with "(empty)" for an empty bag, or with the comma-joined bag otherwise |
| Combat.PlayerAttack | tiny_world_duel.py:233-243 | only the knight's health and the log change; a miss does no damage and logs a miss; a hit logs `draw + bonus` and takes exactly that much, between 4+bonus and 7+bonus, except that the knight drops to 0 (never below) exactly when it had no more than that left |
| Combat.PlayerHitLine | tiny_world_duel.py:241 | the line of a landed blow is "You hit for ", then the shortest decimal numeral of the damage, then "!" |
| Combat.KnightAttack | tiny_world_duel.py:245-254 | a fallen knight does nothing; otherwise only the player's health and the log change; a landed blow takes exactly the drawn damage, between min_dmg and max_dmg, except that the player drops to 0 (never below) exactly when the draw covers their health |
| Combat.KnightHitLine | tiny_world_duel.py:252 | the line of a landed knight blow is "Knight hits you for ", then the shortest decimal numeral of the damage, then "!" |
| Combat.BattleTurn | tiny_world_duel.py:256-270 | health stays non-negative and never increases; the knight falls exactly when it was already down or the landed blow of draw+bonus covers its health, and a surviving knight loses exactly draw+bonus on a hit; on victory the knight gets no counter-attack, the player's health is untouched, gold grows by exactly 20, the victory line is logged and the mode returns to explore; otherwise gold is unchanged, the player falls exactly when a landed knight blow covers their health (else loses exactly the draw), and the battle ends with the defeat line exactly when the player has fallen |
| Combat.RunFromBattle | tiny_world_duel.py:272-276 | fleeing always returns to explore mode and changes neither fighter nor the sword |
| Combat.BattleTurnPreservesValid | tiny_world_duel.py:233-270 | a round keeps 0 ≤ hp ≤ hp_max for both fighters, gold non-negative, log capacity and the sword invariant |
| Combat.FallenKnightPaysAgain | tiny_world_duel.py:256-265 | against a knight already at 0 health, any round, hit or miss, is a victory paying another 20 gold and costing the player nothing |
| Session.ExploreMove | tiny_world_duel.py:284-301 | a blocked step changes nothing and the knight does not wander; a successful step moves the player by one step, sets the context message by whether the player now stands on the sword, and lets the knight wander by the order around the player's new tile: the first admissible direction, or staying put when none is admissible |
| Session.ExploreInteract | tiny_world_duel.py:289-290 | the `e` key interacts, then the knight wanders: mode, message, log, bag, bonus and sword are those of the interaction; battle mode results iff the player was off the sword and adjacent to the knight; the player does not move and the knight takes the first admissible direction of the order, or stays put when none is admissible |
| Session.HandleExplore | tiny_world_duel.py:282-302 | `q` and only `q` ends the session; `i` changes only the message, to the inventory text; the battle actions do nothing while exploring |
| Session.HandleBattle | tiny_world_duel.py:304-308 | `atk` plays exactly one battle round with this action's dice, `run` flees (explore mode, both fighters unchanged), and every other action does nothing; nobody moves |
| Session.Dispatch | tiny_world_duel.py:282-308 | while exploring, every action goes to the explore handler, in battle to the battle handler; the session ends iff `q` is pressed while exploring; a battle is entered only by `e` off the sword next to the knight; exploring never changes health or gold; in battle nobody moves; the knight's damage range never changes |
| Session.DispatchPreservesValid | tiny_world_duel.py:282-308 | every action keeps the state invariant |
| Session.DispatchAfterPickup | tiny_world_duel.py:211-220 | after the pickup, no single action restores the sword or changes the bag or the bonus |
| Session.Play | tiny_world_duel.py:282-308 | a series of handler calls (`handle_explore_action` or `handle_battle_action`, chosen by the mode) ends the session only if one of them is a quit, and the knight's damage range stays as drawn at start-up |
| Session.PlaySnoc | tiny_world_duel.py:282-308 | handler calls are applied one after another: no calls leave the state unchanged, and one more call is one more dispatch from the state the earlier calls reached, unless they already quit |
| Session.PlayPreservesValid | tiny_world_duel.py:282-308 | every state reached by any series of handler calls satisfies the invariant |
| Session.PickupIsFinal | tiny_world_duel.py:211-220 | after the pickup, no series of handler calls restores the sword or changes the bag or the bonus |
| Session.HandleEvent | tiny_world_duel.py:313-329 | closing the window ends the session; every key press is exactly one handler call, the action the key maps to in the current mode (Q/Escape: quit while exploring, flee in battle; A/D/W/S, arrows, E, I while exploring; E/Return, R/Backspace in battle), and any other key changes nothing; the session ends only by closing the window or by Q/Escape while exploring; no key moves anyone in battle |
| Session.Loop | tiny_world_duel.py:311-329 | the main loop over events ends only if the window was closed or Q/Escape was pressed, and keeps the knight's damage range |
| Session.LoopIsPlay | tiny_world_duel.py:311-329 | every run of the main loop that has not ended reaches the same state as some series of handler calls, one per event |
| Session.LoopPreservesValid | tiny_world_duel.py:311-329 | every state the main loop reaches from a valid state is valid |
| Session.LoopPickupIsFinal | tiny_world_duel.py:211-220 | after the pickup, no key presses restore the sword or change the bag or the bonus |
| Duel.AttacksIdleWhileExploring | tiny_world_duel.py:282-302 | outside a battle, any number of attack presses leaves the state unchanged |
| Duel.AttacksAreFight | tiny_world_duel.py:304-308 | pressing the attack button once per roll, through the dispatcher, plays one battle round per roll until the battle is over and then does nothing |
| Duel.ArmedFightEnds | tiny_world_duel.py:233-270 | with the sword, a run of n landed blows against a knight with at most 10·n health ends in victory (+20 gold) or defeat (gold unchanged) |
| Duel.ArmedDuelEnds | tiny_world_duel.py:233-270 | with the sword, n rounds of landed blows end a battle against a knight with at most 10·n health: either the knight is at 0 and the player gained exactly 20 gold, or the player is at 0 and gained nothing |
| Duel.ArmedDuelEndsWithinSix | tiny_world_duel.py:233-270 | a 60-health knight and an armed player who always hits: the battle is over within six rounds, 60 / (4 + 6) rounded up |
| Layout.SwordNeverTaken | tiny_world_duel.py:42 | while the sword lies on its water tile, no series of actions and no dice puts it into the bag or sets the bonus |
| Layout.SwordUnobtainableAsWritten | tiny_world_duel.py:42 | from the start as written, the attack bonus is 0 after any series of handler calls |
| Layout.SwordUnobtainableByKeys | tiny_world_duel.py:42 | from the start as written, the attack bonus is 0 after any key presses in the main loop |
| Layout.SwordObtainable | tiny_world_duel.py:211-220 | with the sword on the grass tile (5,1), a concrete nine-action walk from the start picks it up: the bag holds the sword and the bonus is 6 |

## Left out

- Rendering: `draw_world`, `draw_hud`, `draw_ui_*`, `draw_all`, `draw_button`, the button
  rectangles, colours, sprites and `load_scaled`. These are presentation and pygame calls.
- `wrap_text` needs pygame font metrics. `draw_hp_bar` computes a floating-point ratio for drawing.
- Mouse hit-testing of the buttons (lines 330-342) is not modelled. Keys are modelled as an
  abstract `Key` datatype, not pygame key codes.
- `pygame.quit()` and `sys.exit()` become the `Exit` outcome.
- `random.*`: the 85 % and 80 % hit chances are floats compared with `random.random()`. They
  appear as boolean hit inputs, so the model says nothing about probabilities.
- The start-up `random.randint` for the knight's damage range is the precondition
  6 ≤ min_dmg ≤ 7 and 8 ≤ max_dmg ≤ 9 (`FairKnightStats`). Damage draws are integer inputs
  required to lie in their ranges.
- Python integers are unbounded, and so are Dafny's. There is no wrap-around to model.

## Findings

| source | as written | input that shows it | evidently intended | confidence | as-written member | corrected member |
|---|---|---|---|---|---|---|
| tiny_world_duel.py:42 | the sword lies at (4,1), which is a water tile (`~`), although the comment calls it a safe grass tile | any series of key presses or handler calls from the start: the player can never enter (4,1), so `interact` never finds them on the sword and the bonus stays 0 | the sword on a reachable grass tile; the model uses (5,1), the nearest grass tile in the same row | high (proved, not executed) | Layout.SwordUnobtainableAsWritten | Layout.SwordObtainable |
