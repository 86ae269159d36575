# The Buggening: a verified model of the game core

This project models the simulation core of "Frogger (Clone): The Buggening!".
It is a browser arcade game on a grid of 7 by 6 tiles. The player crosses from
a start tile on the bottom row to a door on the top row. The player needs a
key for the door, must stay out of the water, and must avoid the bugs that
run along the four middle rows.

Two JavaScript files form the core:
- `js/cool.app.js` holds the entities (enemies and their five variants,
  player, attacks, items, tiles), the utility functions, the key listener
  and the cheats.
- `js/cool.engine.js` holds the frame update, the collision checks, level
  and game set-up, and the generators for maps, enemies and items.

The model keeps the program's own shape:
- Objects whose fields the game changes in place are classes with
  `modifies` frames: `Enemy`, `Player`, `Attack`, and `World` for the
  globals `gamestate`, `map`, `player`, `allEnemies`, `allItems`,
  `allAttacks`, `keys` and `levelStartTime`.
- Values are datatypes: the game state record, the map and its tiles, the
  items.
- Loops stay loops, with invariants. Each is proved against a function or
  predicate that says what it computes.

Randomness, the clock and the dialogs become inputs:
- Every `Math.random()` draw becomes a parameter. `choice` and `randInt`
  take a natural number that is reduced into their range, so every outcome
  stays reachable.
- `Date.now()` is a parameter `now`, in milliseconds.
- The gem's two timers are functions of the time elapsed since the gem was
  created.
- The enemies' interval timers are methods that the environment may call
  at any moment.
- A dialog that holds the game is `gamestate.paused == true`. Its dismissal
  is the separate step `World.Resume`.

Numbers are exact, not floating point:
- The game speed is an integer in hundredths: 1.0, rising in steps of 0.05 up to 2.5. The source adds binary floating-point 0.05s, so its cap works out at about 2.55 (see "## Left out").
- Enemy weights are integers in hundredths, and the weighted pool holds exactly weight copies of each kind. The source's float weights give some kinds one extra copy (see "## Left out").

`Array.prototype.forEach` with `removeElement` inside the callback is
modelled exactly (module `ForEachRemoval`). `forEach` visits the slots of
the array as it is at the time of each visit. So after a removal, the
element that slides into the visited slot is passed over in that pass.
The passes of the engine that remove while they iterate are proved against
this model:
- the item pass and the attack pass of `updateEntities`;
- the enemy pass of `checkAllCollisions`.

`collectItems` visits the slots as `forEach` does, including the step past
the slot it removed from. It is proved through `ItemsApart` and
`ItemIndexAt` instead: no two items share a tile, so at most one item is
under the player, and the element that a removal skips can never be one
that the pass would have picked up.

## Model

| member | source | states |
|---|---|---|
| Geometry.CollisionIsSound | js/cool.engine.js:263-272 | checkCollision never reports boxes that are apart: a reported collision means the two closed boxes overlap |
| Geometry.CollisionExactForSmallerFirst | js/cool.engine.js:263-272 | when the first box is no wider and no taller than the second (the player against any enemy), checkCollision is exactly box overlap |
| Geometry.CollisionNotSymmetric | js/cool.engine.js:263-272 | a concrete wide box that contains another horizontally is missed in one argument order and reported in the other |
| Geometry.CollisionMissesCrossing | js/cool.engine.js:263-272 | a concrete flat box crossing a tall narrow one overlaps it, yet checkCollision misses it in both argument orders |
| Utils.RandInt | js/cool.app.js:45-47 | randInt(min, max) yields an integer in [min, max] |
| Utils.Choice | js/cool.app.js:54-56 | choice yields an element of the non-empty array |
| Utils.IndexOf | js/cool.app.js:64-69 | indexOf gives -1 exactly when the element is absent, and otherwise its first position |
| Utils.RemoveElement | js/cool.app.js:64-69 | removeElement leaves the array unchanged when the element is absent; otherwise it splices out the first occurrence, one element shorter and the multiset minus that element |
| Utils.RemoveFromDistinct | js/cool.app.js:64-69 | in an array without repeats, removing the element at k deletes exactly position k |
| Utils.RemoveAtSlot | js/cool.app.js:64-69 | the same splice, and the array left has no repeats |
| Utils.GenerateWeightedList | js/cool.app.js:95-104 | for whole-number weights (in hundredths), the nested push loops build exactly the reference expansion: weight[i] copies of list[i], in order |
| Utils.ExpandLength | js/cool.app.js:95-104 | the weighted list is as long as the weights add up to |
| Utils.ExpandGroups | js/cool.app.js:95-104 | the copies of list[i] sit at positions Sum(weight[..i]) up to Sum(weight[..i+1]) |
| Utils.ExpandCount | js/cool.app.js:95-104 | each element occurs in the weighted list exactly as often as its total weight |
| Utils.ExpandCountDistinct | js/cool.app.js:95-104 | with distinct names, list[i] occurs exactly weight[i] times |
| GameMap.Layout | js/cool.engine.js:436-459 | the layout has 42 tiles, one per grid cell |
| GameMap.LayoutAt | js/cool.engine.js:436-459 | tile 7*row+col is the tile createMap builds for that row and column: water on top except at the door, grass in rows 1 and 4, stone in rows 2 and 3, water at the bottom except at the start |
| GameMap.LayoutCoordinates | js/cool.engine.js:436-459 | every tile sits on a distinct grid corner, with tile k at column k%7 and row k/7 |
| GameMap.LayoutCovers | js/cool.engine.js:436-459 | every grid corner carries exactly one layout tile |
| GameMap.LayTiles | js/cool.engine.js:436-459 | the nested loops push exactly the layout |
| GameMap.StartAndDoorAreStone | js/cool.engine.js:432-459 | on every map the start tile and the door tile exist and are not water |
| GameMap.RockCandidateRows | js/cool.engine.js:464-472 | rock candidates lie in rows 1 to 4 on the grid |
| GameMap.RockSpots | js/cool.engine.js:464-472 | the candidate filter keeps exactly the coordinates of non-water tiles outside the start and door columns |
| GameMap.RockSpotsDistinct | js/cool.engine.js:464-472 | the filtered coordinates have no repeats |
| GameMap.CollectRockSpots | js/cool.engine.js:464-472 | the filter loop computes RockSpots |
| GameMap.SampleStep | js/cool.engine.js:473-477 | choice followed by removeElement removes exactly the chosen entry from a pool without repeats |
| GameMap.RockSpotsOfMap | js/cool.engine.js:461-478 | every map has at least three distinct rock candidates, so three rock draws always succeed |
| GameMap.PlaceRocks | js/cool.engine.js:461-478 | the rock loop places rockNumber distinct rocks on candidate tiles |
| GameMap.CreateMap | js/cool.engine.js:417-480 | createMap yields a valid map with the drawn start and door columns; no rocks up to level 15 and randInt(1,3) rocks above |
| Enemies.Displacement | js/cool.app.js:200-203 | dt*speed*gamestate.speed has the sign of the speed and is zero for a zero speed or dt |
| Enemies.StartOptions | js/cool.app.js:176-183 | the constructor loops list columns -3..4 and rows 1..4 |
| Enemies.StartOptionsInBounds | js/cool.app.js:176-183 | every starting column is left of the right edge and every starting row is an enemy row |
| Enemies.Enemy.Bounds | js/cool.app.js:220-243 | an enemy's box is its kind's width by 80 |
| Enemies.Enemy.constructor | js/cool.app.js:171-191 | a new enemy takes a drawn start column, row and speed within its kind's bounds and the kind's sprite (cow under the cow cheat); a charger keeps the speed it starts with |
| Enemies.Enemy.MoveAndWrap | js/cool.app.js:200-208 | Enemy.update moves by the speed unless paused; past the right edge it restarts three columns left on a drawn row, so it never ends right of the edge |
| Enemies.Enemy.SidestepMove | js/cool.app.js:344-355 | a sidestepper moves towards its target row and settles on it, never overshooting |
| Enemies.Enemy.BacktrackerMove | js/cool.app.js:410-434 | a backtracker turns around exactly when it is past an edge while moving outward, and then faces its new direction |
| Enemies.TurnsAtMostOnce | js/cool.app.js:410-434 | the two edge tests of Backtracker.update never both fire in one frame |
| Enemies.Stepped | js/cool.app.js:344-355 | one frame of an enemy's moving parts: a sidestepper moves and wraps as Enemy.update does (lines 200-208), then moves towards its target row and settles on it; a backtracker turns around only past an edge (lines 410-434); no enemy but a backtracker ends right of the edge or changes speed or sprite, and while paused none of them moves |
| Enemies.Enemy.Update | js/cool.app.js:200-208 | each kind's update keeps the enemy invariant and leaves the enemy exactly where one Stepped frame takes it; only a backtracker may be right of the edge or change its speed, and while paused nothing else moves sideways |
| Enemies.Enemy.ChargeTimer | js/cool.app.js:300-316 | on a draw above 0.5 a charger runs at 700 with the charging sprite (unless cows are on) |
| Enemies.Enemy.EndCharge | js/cool.app.js:308-315 | after a charge the charger returns to the speed it was built with |
| Enemies.Enemy.SidestepTimer | js/cool.app.js:369-383 | a still sidestepper with a draw above 0.3 aims one row down or up, never into the start row or the door row |
| Enemies.Enemy.BacktrackTimer | js/cool.app.js:447-466 | on a draw above 0.2 a backtracker reverses and faces its new direction; otherwise nothing changes |
| Enemies.Enemy.Restart | js/cool.engine.js:370-381 | resetLevel gives an enemy a drawn start and speed, and a backtracker its right-facing sprite |
| Players.AllowedKey | js/cool.app.js:1117-1128 | exactly the ten listed key codes map to an input |
| Players.StepDirection | js/cool.app.js:594-622 | move aims at the neighbouring tile, or at the opposite one under the time machine cheat; other inputs aim at the player's own tile |
| Players.Player.constructor | js/cool.app.js:511-521 | a new player stands at the start with 3 of 5 lives, no key and no cheat flags |
| Players.Player.Bounds | js/cool.app.js:562-588 | the player's box is 40 by 80 |
| Players.Player.Move | js/cool.app.js:594-656 | the player goes to the candidate tile exactly when it is on the map, not the door without the key, and not a rock; otherwise nothing changes |
| Players.NonDirectionStaysPut | js/cool.app.js:594-656 | an input that is not a direction leaves the player in place |
| Players.AllowedMoveIsOneTile | js/cool.app.js:594-656 | on a valid map an allowed move lands one tile away, on the grid |
| Attacks.Attack.Bounds | js/cool.app.js:786-809 | an attack's box is 80 wide and its kind's height tall |
| Attacks.Attack.Hadouken | js/cool.app.js:820-829 | a hadouken starts at the player, 80 tall, flying at 300 left for 'a' and right for 'd' |
| Attacks.Attack.FrontEnd | js/cool.app.js:843-857 | a front-end attack starts one row above the player, 210 tall, so it covers three rows; it flies left for 'q' and right for 'e' |
| Attacks.Attack.Update | js/cool.app.js:766-773 | Attack.update moves by the speed unless paused, and stops the attack exactly when it is off screen |
| Attacks.StoppedAttackStays | js/cool.app.js:766-773 | a stopped attack no longer moves |
| Items.GemTimeline | js/cool.app.js:959-969 | a gem fades at 2500 ms and is destroyed at 4000 ms; both are monotone in time, and a gem is never destroyed before it fades |
| Items.ItemSpots | js/cool.engine.js:571-592 | the item filter keeps exactly the coordinates of tiles that are not water, not the start, not the door and not next to a rock |
| Items.ItemSpotsDistinct | js/cool.engine.js:571-592 | the kept coordinates have no repeats |
| Items.ItemSpotIsSafe | js/cool.engine.js:571-592 | an item spot is a dry tile, neither start nor door, with no rock on it or on its eight neighbours |
| Items.SpotInRow | js/cool.engine.js:571-592 | a tile in row 1 or 4 more than one column away from the only rock near that row is an item spot |
| Items.ThreeInRow | js/cool.engine.js:571-592 | such a row yields at least three item spots |
| Items.ItemSpotsOfMap | js/cool.engine.js:564-617 | every valid map has at least three distinct item spots, so createItems never draws from an empty list |
| Items.CollectItemSpots | js/cool.engine.js:571-592 | the filter loop, with its inner rock loop, computes ItemSpots |
| Items.TakeSpot | js/cool.engine.js:594-597 | one draw takes the chosen spot and removes exactly it from the remaining spots |
| Items.PlaceItems | js/cool.engine.js:594-615 | key, gem and (on heart levels) heart are placed on distinct spots from the list |
| Items.CreateItems | js/cool.engine.js:564-617 | createItems makes a key and a gem, plus a heart on every fifth level when the coin exceeds 0.5, on distinct item spots |
| ItemLists.DestroyedFlags | js/cool.engine.js:66-71 | the item pass's removal test is true exactly for destroyed gems |
| ItemLists.RemoveItemAt | js/cool.engine.js:389-411 | removing an item splices out its slot; the rest stay on item spots and apart |
| ItemLists.ItemIndexAt | js/cool.engine.js:389-411 | the index found holds an item at the position, and no earlier item is there (none at all for -1) |
| ItemLists.NothingLeftUnder | js/cool.engine.js:389-411 | once the item at a position is removed, no item is left there |
| ForEachRemoval.KeptLength | js/cool.engine.js:66-71 | what a removing forEach keeps of the first n elements is at most n elements |
| ForEachRemoval.SkippedAgree | js/cool.engine.js:66-71 | whether an element is passed over depends only on the tests before it |
| ForEachRemoval.KeptAgree | js/cool.engine.js:66-71 | what is kept depends only on the tests of the elements concerned |
| ForEachRemoval.KeptStep | js/cool.engine.js:66-71 | each element is kept unless it is visited and removed |
| ForEachRemoval.NeighbourSurvives | js/cool.engine.js:66-71 | after a removal the next element is passed over and survives the pass |
| ForEachRemoval.NoNeighboursAllHonoured | js/cool.engine.js:66-71 | when no two neighbours match, exactly the matching elements are removed |
| ForEachRemoval.KeptSubset | js/cool.engine.js:66-71 | the pass only removes: what is kept is a sub-multiset |
| ForEachRemoval.KeptUnremoved | js/cool.engine.js:66-71 | every element not removed is kept |
| ForEachRemoval.KeptFrom | js/cool.engine.js:66-71 | everything kept is an element that was not removed |
| ForEachRemoval.RemovedGone | js/cool.engine.js:66-71 | in an array without repeats, a removed element is gone |
| ForEachRemoval.SkipAfterRemoval | js/cool.engine.js:66-71 | after a removal the pass resumes two elements on, or ends |
| ForEachRemoval.RemoveVisited | js/cool.engine.js:66-71 | removeElement of the visited slot keeps the array equal to what was kept followed by what is still ahead |
| ForEachRemoval.SkipMarksAreSkipped | js/cool.engine.js:66-71 | the pass-over marks the loop records are exactly the elements Skipped names |
| ForEachRemoval.PassStep | js/cool.engine.js:66-71 | one visit with its decided test advances the pass state |
| ForEachRemoval.NoRepeatsKept | js/cool.engine.js:66-71 | mid-pass, an array without repeats still has none |
| ForEachRemoval.PassStateWithin | js/cool.engine.js:66-71 | mid-pass, the array holds only original elements, and the slot visited holds the next element |
| ForEachRemoval.Visit | js/cool.engine.js:66-71 | one visit moves the pass one slot on and keeps its state |
| EnemyGeneration.ExpectedWeights | js/cool.engine.js:535-557 | the reference weights: one per kind, six in all |
| EnemyGeneration.CalcEnemyWeights | js/cool.engine.js:535-557 | the weight loop yields all basic bugs up to level 5, then with n = min(level-2, 20) basic 100-5n and every other kind n; the weights add up to 100 |
| EnemyGeneration.PoolCounts | js/cool.engine.js:487-498 | with exact hundredths, the weighted pool has 100 entries, each kind as many as its weight |
| EnemyGeneration.EarlyLevelsOnlyBugs | js/cool.engine.js:535-557 | up to level 5 every enemy drawn is a basic bug |
| EnemyGeneration.LateLevelsEvenPool | js/cool.engine.js:535-557 | with exact hundredths, from level 22 on there are no basic bugs and each other kind holds a fifth of the pool (20 entries) |
| EnemyGeneration.EnemyCountBounds | js/cool.engine.js:503-506 | the enemy count is 2 to 7 up to level 25 and 8 beyond; it grows with the level, and on negative levels with the distance from zero |
| EnemyGeneration.CreateEnemies | js/cool.engine.js:487-527 | createEnemies builds EnemyCount(level) fresh, distinct, sound enemies, each of the kind drawn from the pool and with its kind's sprite |
| Cheats.Decimal | js/cool.app.js:1139 | a key code is written with one digit exactly when it is below 10 |
| Cheats.Join | js/cool.app.js:1139 | keys.toString() is empty exactly for an empty buffer |
| Cheats.JoinAppend | js/cool.app.js:1139 | joining two non-empty buffers puts a comma between their joins |
| Cheats.JoinChars | js/cool.app.js:1139 | two-digit codes join to three characters per key less one: two digits each, commas between |
| Cheats.SecretJoin | js/cool.app.js:111 | the ten secret key codes join to exactly secretCode |
| Cheats.TypingTheCodeUnlocks | js/cool.app.js:1136-1139 | whatever was typed before, ending on the ten secret keys unlocks god mode |
| Cheats.UnalignedCodeUnlocks | js/cool.app.js:1136-1139 | the string test also unlocks for key code 138 followed by the last nine secret keys |
| Cheats.PartialCodeLocked | js/cool.app.js:1136-1139 | nine of the ten secret keys do not unlock |
| Cheats.CommandsDiffer | js/cool.app.js:117-145 | no two cheats share a command |
| Cheats.CheatTableRoundTrip | js/cool.app.js:117-145 | the cheats table and its commands are inverse: a command finds its cheat and only it, and any other string finds none |
| Collisions.RestartAll | js/cool.engine.js:370-382 | resetLevel's loop restarts every enemy with its own draws and keeps them sound |
| Collisions.HitByAttack | js/cool.engine.js:235-240 | the attack loop finds an overlap exactly when some attack box overlaps the enemy |
| Collisions.StrikeEnemy | js/cool.engine.js:235-240 | an enemy is removed exactly when the player killed it or an attack hits it, and the pass moves on |
| Collisions.SafeAtStart | js/cool.engine.js:220-233 | a player on the start row cannot meet any enemy |
| Collisions.LoseLife | js/cool.engine.js:366-383 | resetLevel's moves: one life less, the player at the start, every enemy restarted |
| Collisions.MeetPlayer | js/cool.engine.js:224-233 | meeting an enemy removes it under a cheat, ends the game on the last life, and otherwise costs one life; after a lost life nothing more happens to the player |
| Collisions.VisitEnemy | js/cool.engine.js:220-241 | one visit of the enemy pass: the player test, then the attacks, with the pass record kept |
| Collisions.WaterUnder | js/cool.engine.js:243-251 | the tile loop finds water exactly when a water tile lies at the position |
| Collisions.EnemyPass | js/cool.engine.js:220-241 | the enemy pass loses at most one life, only to an enemy met without a cheat, and the game only on the last life; with no life lost, the enemies left are those kept, each visited one removed exactly when it met a protected player or an attack |
| Game.BonusIsFloor | js/cool.engine.js:295-296 | the level bonus is the floor of 100 minus 4 points per second |
| Game.BonusShape | js/cool.engine.js:295-305 | the bonus is at most 100, falls with time, and is positive exactly up to 24.75 s |
| Game.ItemPass | js/cool.engine.js:66-72 | the item pass keeps exactly what a removing forEach keeps under the destroyed test; the rest stay on spots and apart |
| Game.UpdateOne | js/cool.engine.js:73-74 | updating one attack changes only that attack, as Attack.update says |
| Game.VisitAttack | js/cool.engine.js:73-78 | one visit of the attack pass updates the slot's attack and removes it once stopped |
| Game.AttackLoop | js/cool.engine.js:73-78 | the attack loop runs the pass to its end |
| Game.AttackPass | js/cool.engine.js:73-78 | the attack pass keeps what a removing forEach keeps under the stopped test; each attack is updated once, except those passed over, which stay untouched |
| Game.UpdateAll | js/cool.engine.js:63-65 | every enemy of a list without repeats is updated once, the i-th ending where one Stepped frame with the i-th row draw takes it; none but a backtracker ends right of the edge, and while paused none of those moves |
| Game.NewGame | js/cool.engine.js:278-286 | a new game's level-1 map, player, enemies and two items |
| Game.BuildLevel | js/cool.engine.js:320-324 | a level's map, enemy count and items from its draws |
| Game.ShotKeys | js/cool.app.js:700-723 | only god mode fires, only with the four attack keys: a hadouken exactly for 'a'/'d' under the street fighter cheat, a front-end attack exactly for 'q'/'e' under the udacious cheat |
| Game.CheatsAccumulate | js/cool.app.js:117-145 | each cheat turns on its own flag only; entering it again changes nothing, and order does not matter |
| Game.DressAsCows | js/cool.app.js:120-122 | every enemy takes the cow sprite, and nothing else about it changes |
| Game.World.constructor | js/cool.engine.js:278-286 | setupNewGame builds the new-game state, with no attacks and the clock started |
| Game.World.ResetGame | js/cool.engine.js:335-360 | resetGame, once its dialog is dismissed: the new-game state; attacks, clock and key buffer stay |
| Game.World.ResetLevel | js/cool.engine.js:366-383 | resetLevel: one life less, paused, the player at the start, every enemy restarted; the lists stay |
| Game.World.AdvanceLevel | js/cool.engine.js:295-317 | a positive bonus is added (subtracted under the time machine); the level goes up (down); the speed grows by 0.05 on dark levels while below 2.5, so it stops at exactly 2.5 in hundredths; the clock restarts |
| Game.World.SetupNewLevel | js/cool.engine.js:294-330 | setupNewLevel (LevelSetUp): the score and level as above, a new map, enemies and items, the player at the start with the same lives, no attacks, and the key kept only when udacious |
| Game.World.InstallLevel | js/cool.engine.js:320-325 | the new map, enemies and items replace the old, the player at the start, no attacks |
| Game.World.RemoveDestroyedItems | js/cool.engine.js:66-72 | the world's items become what the item pass keeps |
| Game.World.UpdateAttacks | js/cool.engine.js:73-78 | the world's attacks become what the attack pass keeps, and all that remain still fly |
| Game.World.UpdateEnemies | js/cool.engine.js:63-65 | every enemy of the world ends where one Stepped frame at the game's speed, pause and cow cheat takes it (EnemiesStepped); no non-backtracker right of the edge |
| Game.World.UpdateEntities | js/cool.engine.js:62-81 | updateEntities keeps the world invariant and the enemy list, moves every enemy one Stepped frame, leaves the items the item pass keeps, and leaves the attacks the attack pass keeps, each one updated or passed over as AttackDone says |
| Game.World.UpdateItemsAndAttacks | js/cool.engine.js:66-81 | the item pass and the attack pass of updateEntities, with the same results for items and attacks |
| Game.World.CollectItems | js/cool.engine.js:389-411 | with no item under the player nothing changes; otherwise that item is picked up (key, heart unless lives are full, gem +50 or -50 under the time machine); no item is left under the player |
| Game.World.VisitItems | js/cool.engine.js:390-410 | the forEach over the items picks up at most the one item under the player |
| Game.World.PickUp | js/cool.engine.js:391-409 | the effect of the item's kind, and the item removed |
| Game.World.DropItem | js/cool.engine.js:409 | removeElement of the item splices out its slot and leaves no item on its tile |
| Game.World.CheckLevelCompletion | js/cool.engine.js:88-93 | on the door the level is set up anew with everything SetupNewLevel promises (LevelSetUp); elsewhere nothing changes |
| Game.World.Update | js/cool.engine.js:48-53 | a frame keeps the world invariant; a lost game yields the new-game state; otherwise the same player, lives changed by at most one, and a lost life leaves the game paused |
| Game.World.Resolve | js/cool.engine.js:50-52 | the same for collisions, pick-up and the door test |
| Game.World.CheckAllCollisions | js/cool.engine.js:219-252 | the game is lost only on the last life, to an enemy met without a cheat or water without the udacious cheat; otherwise at most one life is lost, for one of those reasons, paused at the start; with no life lost the enemies left are those kept by the pass's verdicts and the player was not on water |
| Game.World.EnemyCollisions | js/cool.engine.js:220-241 | the enemy half: game reset on the last life, one life lost and paused, or the kept enemies with their verdicts |
| Game.World.InstallPass | js/cool.engine.js:220-241 | the enemy pass on the world's lists, its kept enemies installed |
| Game.World.WaterCollision | js/cool.engine.js:243-251 | drowning (water without the udacious cheat) ends the game exactly on the last life and otherwise costs one life as resetLevel does; no water changes nothing |
| Game.World.MovePlayer | js/cool.app.js:694-696 | the move on the world's map, keeping the player on a tile |
| Game.World.HandleInput | js/cool.app.js:692-725 | while paused nothing changes; otherwise the move, 'p' pauses, 'c' in god mode pauses for the prompt, and an unlocked attack key fires from the new position |
| Game.World.CommandKeys | js/cool.app.js:697-723 | the key commands after the move |
| Game.World.AttackKeys | js/cool.app.js:703-722 | in god mode the key of an unlocked attack fires it, and the hadouken is shouted |
| Game.World.Launch | js/cool.app.js:715 | the new attack is appended to the list |
| Game.World.KeyUp | js/cool.app.js:1116-1148 | outside god mode the code joins the buffer; the secret code unlocks god mode, empties the buffer and pauses, swallowing the key; otherwise the key goes to handleInput |
| Game.World.EndHadoukenShout | js/cool.app.js:712-714 | the shout flag goes off, nothing else changes |
| Game.World.Resume | js/cool.app.js:78-80 | dismissing a dialog unpauses, nothing else changes |
| Game.World.ApplyCheat | js/cool.app.js:117-145 | each cheat's effect: its flag on, the player's flags, the key for udacious, level -1 for the time machine, every enemy a cow for the cow level |
| Game.World.AnswerCommand | js/cool.app.js:664-684 | a cancelled or unknown command only unpauses; a cheat's command applies that cheat |

## Left out

- Rendering: drawing, sprites' image files, the canvas inversion and the page header and level texts are not modelled. The only sprite state kept is the enemy sprite.
- Dialog texts and bootbox itself. A dialog is `paused`, and its dismissal is `Game.World.Resume`. For the command prompt, the answer is `Game.World.AnswerCommand`.
- Game.World.ResetGame: the state is the one after the game-over dialog is dismissed. The intermediate state, with the player parked at (-100, -100) and the old enemies and items still listed, is not modelled. Off the map, the player meets no water, item or door in the rest of that frame, so the model ends the frame at the reset.
- Game.World.ResetGame: the model treats the dialog as dismissed in the frame of the death. In the source, createItems runs only in the dismissal callback (js/cool.engine.js:351-354), so a new gem's 2.5 s and 4 s timers start at the dismissal. In the model the new items are created with that frame's `now`, so the timers start at the death. A dialog held open 4 s or longer therefore leaves a gem that the source would still show but the model already counts as destroyed.
- Game.World.ApplyCheat: the time machine's level -1 and flag are applied at once, not when its first dialog is dismissed.
- Game.World.EnemyCollisions: resetLevel's pause is applied once the enemy pass ends, not in the middle of it. Nothing in the pass reads the pause flag.
- Collisions.EnemyPass: after a life is lost mid-pass, which enemies the rest of the pass removes is not stated. The rest of the pass runs on restarted positions, so only the lost life and the kept enemies being sound are stated.
- Game.World.CheckAllCollisions: which enemies of the discarded list a game-ending pass removes is not stated, because resetGame replaces the list.
- Player.blink (the invincibility cheat's sprite animation) is not modelled. It only changes the player's sprite.
- The keydown listener (it only stops the page from scrolling), init, the main loop, requestAnimationFrame and the image loading are not modelled.
- Timers: setInterval and setTimeout become methods (`ChargeTimer`, `EndCharge`, `SidestepTimer`, `BacktrackTimer`, `EndHadoukenShout`) that may run at any moment. Their periods are not modelled. The gem's timers are functions of elapsed time.
- EnemyGeneration.CalcEnemyWeights: the weights are exact hundredths. The source's repeated binary floating-point subtraction of 0.05 from 1 is not modelled.
- Utils.GenerateWeightedList: the weights are whole numbers, and the loop pushes exactly weight[i] copies. In the source, the weights are floats and the loop runs while `j < weight[i]*100` (js/cool.app.js:98-99), which pushes ceil(100·w) copies. A weight that is slightly above its hundredth gets one extra copy. For example, 6 × 0.01 is 0.060000000000000005, and ×100 that is 6.000000000000001, so 7 copies.
- EnemyGeneration.PoolCounts: states a 100-entry pool. In the source, float weights give the five non-basic kinds one extra copy each at levels 8 and 9 and from level 20 on, so the pool there has 105 entries. The drawn kind's odds therefore differ slightly from the model's.
- EnemyGeneration.LateLevelsEvenPool: states 20 entries for each non-basic kind. In the source, from level 22 on, each weight is 0.20000000000000004, so the pool holds 21 of each kind in 105 entries. The split is still even and still has no basic bugs.
- Game.World.AdvanceLevel: the game speed is exact hundredths, so it stops at 2.5 after 30 steps. In the source, 30 binary floating-point additions of 0.05 to 1 give 2.499999999999999, which still passes `speed < 2.5` (js/cool.engine.js:317-318). So a 31st step runs, and the source's speed settles at about 2.55 from level 56 on.
- Enemies.Displacement: positions and time steps are reals, not IEEE doubles.
- Commands that name a property every JavaScript object inherits (such as "toString") are modelled as unknown commands that only unpause.
- Game.World.HandleInput: the direction test of handleInput is always true, so every key calls move, as modelled. A key that is not a direction then leaves the player in place (Players.NonDirectionStaysPut).
- Player.update, Item.update and Item.render do nothing in the source and are not modelled.
