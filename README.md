# Goose platformer: the gameplay core in Dafny

This project models the simulation core of a side-scrolling goose platformer
written in Python with pygame (`main.py`), and proves properties of it:

- **Level loading** (`load_level`). Each line of the level file is stripped of
  whitespace, then padded with `.` to the width of the longest line.
- **Level layout** (`generate_level`). Each grid cell becomes placed entities
  at 100 × (column, row):
  - a `#` becomes a wall tile plus three 1-wide `Border` hazards;
  - `^` and `v` become spikes;
  - `0` becomes a coin, as does `.` when the cheat is on;
  - `$` becomes a portal;
  - `@` becomes the player, and the last `@` in reading order wins.
- **The player's tick** (`Player.go`), in the source's order:
  1. the animation cycles step;
  2. the player moves by its speed;
  3. touching a portal wins;
  4. touching a tile snaps the player back up and sets the run speed;
  5. a hazard's pixel mask ends the game;
  6. coins under the mask are collected;
  7. gravity is added.
- **The jump** (`Player.jump`).
- **The coin spin** (`Coin.update`).
- **The scrolling camera** (`Camera`). Its offset centres the player, and it
  is added in place to every sprite's x.
- **One level attempt** (`start_level`): the per-tick loop and the score
  `count // 2 + 100 * coins_count`.
- **The coin economy**:
  - the reward `win` pays;
  - the buy button of the set shop;
  - the choose button of the set shop.

The modules follow the program's structure:

| module | file | contents |
|---|---|---|
| `Wrappers` | wrappers.dfy | `Option`, `Result` |
| `Geometry` | geometry.dfy | pygame `Rect.move` and `colliderect` |
| `LevelLoader` | level_loader.dfy | `load_level` |
| `Layout` | layout.dfy | `generate_level` and the sprite constructors' rectangles |
| `Animation` | animation.dfy | frame cycles |
| `Gameplay` | gameplay.dfy | the `Coin` and `Player` classes and the sprite groups (`Scene`) |
| `Viewport` | viewport.dfy | the `Camera` class |
| `Economy` | economy.dfy | the score and the `Store`, which holds balance, sets and selection |
| `Session` | session.dfy | `start_level`, as the `Level` class and `StartLevel` |

The source mutates objects in place, and so does the model:

- `Player`, `Coin`, `Camera`, `Scene`, `Store` and `Level` are classes.
- Their methods update fields under `modifies` clauses.
- Loops become `while` loops with invariants.
- Each loop is proved against a specification function:
  - `GenerateLevel` against `Entities`/`Spawn`;
  - `CollectCoins` against `Uncollected`/`Collected`;
  - the camera loops against `Shift`.

Pixel-perfect collision (`pygame.sprite.collide_mask`) depends on image data.
The caller therefore supplies it as a `MaskOracle`, a function of:

- the player's frame index;
- the player's rectangle;
- the other sprite.

Box collision (`spritecollideany`, used for portals and tiles) is computed
exactly.

`win` and `game_over` never return to the level loop: each opens its own
screen loop. A tick therefore ends in an `Outcome`:

- `Continue`;
- `Won(score, coins)`;
- `Lost(score, coins)`.

The score both terminal outcomes report is `player.score`, the value the loop
stored at the end of the previous tick (main.py:784-785 runs after `go`).
`Level.Tick` proves this.

The model follows `main.py` in these cases:

- **Empty lines.** An empty line in the level file is not an error. It
  becomes a row of `.` padding. Only a file with no lines at all fails,
  because `max()` of an empty sequence raises. That failure is
  `EmptyLevelFile`.
- **Spaces.** A space inside a line is not turned into `.`. It stays a cell
  code that creates nothing, and the cheat does not turn it into a coin.
- **Spawn cells.** A grid with several `@` cells is accepted, and the last
  one is the spawn. A grid with none cannot be started (`NoSpawn`): the
  source would crash on `camera.update(None)`.
- **Border shapes.** The borders of a `#` cell are not all insets of the
  tile. `Border` ignores its `x2` argument and is always 1 wide, so:
  - the "bottom" border is a 1×5 sliver at the cell's lower-left corner;
  - the left and right walls are 1×90, starting 5 below the top edge.

## Model

| member | source | states |
|---|---|---|
| Geometry.MoveCompose | main.py:190-195 | moves compose by adding displacements; the ground snap after the move leaves only the horizontal part of the move, and a move is undone by its opposite |
| Geometry.OverlapsShift | main.py:193 | box overlap is unchanged when both rectangles are moved by the same amount |
| LevelLoader.StripLeft | main.py:230 | the result is a suffix of the line, everything dropped is whitespace, and it does not start with whitespace |
| LevelLoader.StripRight | main.py:230 | the result is a prefix of the line, everything dropped is whitespace, and it does not end with whitespace |
| LevelLoader.Strip | main.py:230 | `line.strip()` is a slice of the line with only whitespace (Python's `isspace` set) removed on either side, and neither starts nor ends with whitespace |
| LevelLoader.MaxWidth | main.py:231 | `max(map(len, ...))` is at least every row's length and equal to some row's length |
| LevelLoader.PadRight | main.py:232 | `ljust(width, '.')` keeps the line as a prefix, fills the rest with `.`, and has length max(width, len) |
| LevelLoader.LoadLevel | main.py:227-232 | fails exactly when the file has no lines; otherwise one row per line, each row its stripped line followed only by `.`, all of the longest stripped line's width |
| LevelLoader.LoadedRowsEqualWidth | main.py:231-232 | every loaded grid is rectangular |
| Layout.BorderIgnoresX2 | main.py:89-93 | a border's rectangle does not depend on `x2`: it is always 1 wide and ends at y2 |
| Layout.CellsDisjoint | main.py:100-112 | tiles and spikes fill their own cell only: two tiles overlap exactly when they belong to the same cell, and a spike overlaps a tile exactly when both belong to the same cell |
| Layout.CoinRect | main.py:128 | a coin sits inside its cell against the top-left corner and covers less than half of it |
| Layout.PortalRect | main.py:152 | a portal sits inside its cell, spans its whole height, and leaves a 20-wide gap on the right |
| Layout.PlayerRect | main.py:176 | a new player sits inside its spawn cell, horizontally centred, touching the top edge, 20 above the bottom |
| Layout.CellSprites | main.py:240-256 | a cell creates nothing exactly when its code is none of `# ^ v 0 $` (and not a cheated `.`); it creates four entities exactly when it is `#`, otherwise at most one |
| Layout.CellSpriteShape | main.py:240-256 | an entity created by a cell determines the cell: tiles come from `#`, spikes from `^`/`v` by orientation, coins from `0` or a cheated `.`, portals from `$`, each at that cell's rectangle, and borders are 1-wide strips on the edges of a `#` cell |
| Layout.GenerateRow | main.py:239-256 | the inner loop appends exactly the row's entities in column order and keeps the row's last `@` as the spawn |
| Layout.GenerateLevel | main.py:236-257 | `generate_level` creates exactly `Entities(level)` in creation order, returns the last `@` as the spawn, and returns the final x (last column of the last non-empty row) and y (last row index), or None when the loops did not run |
| Layout.RowSpritesSound | main.py:239-256 | every entity of a row's first n cells is created by one of those cells |
| Layout.RowSpritesComplete | main.py:239-256 | every entity one of a row's first n cells creates is among that row's entities |
| Layout.GridSpritesSound | main.py:238-256 | every entity of the first m rows is created by a cell of those rows |
| Layout.GridSpritesComplete | main.py:238-256 | every entity a cell of the first m rows creates is among those rows' entities |
| Layout.EntitiesMember | main.py:236-257 | the layout holds an entity if and only if some grid cell creates it |
| Layout.TilePlacedIff | main.py:242-246 | a 100×100 tile is at (100x, 100y) if and only if cell (x, y) is `#` |
| Layout.TileHasBorders | main.py:243-245 | a `#` cell creates its left wall (1×90 at (100x, 100y+5)), right wall (1×90 at (100x+100, 100y+5)) and bottom sliver (1×5 at (100x, 100y+95)) |
| Layout.BordersAreSlivers | main.py:88-93 | every border is 1 wide and 90 or 5 high, with its corner on the left or right edge of a `#` cell, 5 or 95 below its top |
| Layout.SpikePlacedIff | main.py:249-252 | a spike of the given orientation is at (100x, 100y) if and only if cell (x, y) is `^` (placed down) or `v` (placed up) |
| Layout.CoinPlacedIff | main.py:240-254 | a 60×64 coin is at (100x, 100y) if and only if cell (x, y) is `0`, or `.` with the cheat on |
| Layout.PortalPlacedIff | main.py:255-256 | an 80×100 portal is at (100x, 100y) if and only if cell (x, y) is `$` |
| Layout.OtherCodesPlaceNothing | main.py:240-256 | a cell whose code is none of `# ^ v 0 $` (nor a cheated `.`) creates no entity |
| Layout.LastAtSpec | main.py:247-248 | the column found is an `@` with no `@` after it in the row, and none is found exactly when the row has no `@` |
| Layout.SpawnInSpec | main.py:237-248 | after m rows the spawn is the last `@` in reading order, and there is none exactly when those rows hold no `@` |
| Layout.SpawnSpec | main.py:237-257 | the player `generate_level` returns sits on the last `@` of the grid, and there is none if and only if the grid has no `@` |
| Layout.RectsOfKindMember | main.py:97-101 | a sprite group of one kind (`tiles_group`, `portals`, `coins`) holds a rectangle if and only if an entity of that kind has it |
| Layout.HazardsOfMember | main.py:88-113 | `for_mask` holds exactly the borders and spikes |
| Animation.NextFrame | main.py:181 | `(cur + 1) % len(frames)` stays in range and is the next frame or wraps to 0 from the last |
| Animation.Advance | main.py:181 | k steps of a cycle stay in range |
| Animation.CycleStep | main.py:141-144 | a cycle's frame stays in range and changes only on ticks whose counter is a multiple of the period |
| Animation.CycleAfter | main.py:140-144 | the frame after k ticks stays in range |
| Animation.AdvanceWraps | main.py:181 | k steps from frame cur land on (cur + k) mod n |
| Animation.CycleCadence | main.py:140-144 | after k ticks the frame has stepped exactly once per multiple of the period the counter passed: it equals that many plain steps of the cycle |
| Animation.MultiplesOfFive | main.py:141 | the number of multiples of 5 among k consecutive counters, in closed form |
| Animation.CoinCadence | main.py:120-144 | a coin (counter 5, frame 0) shows frame ceil(k / 5) mod n after k updates, so its first update already steps |
| Gameplay.Coin.constructor | main.py:118-128 | a new coin has counter 5, frame 0, 8 frames, and the given rectangle |
| Gameplay.Coin.Update | main.py:140-144 | `Coin.update` adds 1 to the counter and steps the frame exactly when the old counter is a multiple of 5 |
| Gameplay.PickupPartition | main.py:203-206 | the coins kept are exactly the untouched ones, without repeats, and kept plus collected equals the coins before |
| Gameplay.Scene.constructor | main.py:52-58 | the groups are the ones given |
| Gameplay.Scene.UpdateCoins | main.py:771 | `coins.update()` gives every coin one spin tick and moves none |
| Gameplay.Player.constructor | main.py:157-176 | a new player is at (100x + 15, 100y), 70×80, airborne, with speed (5, 1), counters and frames 0, no coins, score 0 |
| Gameplay.Player.Jump | main.py:211-216 | a grounded player leaves the ground with speed (8, -29) and restarts the jump cycle; an airborne player is unchanged |
| Gameplay.Player.Go | main.py:179-208 | one tick of `go`. Exactly one animation cycle may step, depending on the ground flag. The move is by the old speed. A win happens if and only if the moved box touches a portal, and reports the stored score and coins. Otherwise: the ground flag says whether a tile is touched, which snaps back the vertical move and sets speed 7. A loss happens if and only if a hazard's mask is touched. Otherwise the touched coins are removed and counted, and gravity is added |
| Gameplay.Player.Land | main.py:193-208 | the part of `go` after the portal test: ground resolution, the hazard test, pickups and gravity, with the same guarantees as in `Go` |
| Gameplay.Player.StepAnimation | main.py:180-189 | a grounded player steps the run cycle when the counter is a multiple of 10 and resets the jump frame; an airborne one steps the jump cycle when it is a multiple of 5; the counter goes up by 1 |
| Gameplay.Player.ResolveGround | main.py:193-199 | the ground flag becomes "touches a tile"; if so the vertical move is undone, the fall stops and the run speed is 7 |
| Gameplay.Player.TouchesHazard | main.py:200-202 | the loop over `for_mask` finds a hit if and only if some border or spike's mask is touched |
| Gameplay.Player.CollectCoins | main.py:203-206 | the coin loop keeps exactly the untouched coins, in order, and adds the number touched to `coins_count` |
| Viewport.Offset | main.py:270 | applying the offset puts the target's centre x + w // 2 at the window's middle (400) |
| Viewport.ShiftCompose | main.py:266-267 | the camera's in-place shifts accumulate: two ticks move a sprite by the sum of the offsets, a zero offset changes nothing, and a shift is a horizontal `Rect.move` |
| Viewport.AnyOverlapShift | main.py:768-772 | applying the camera to the player and a group never changes whether their boxes touch |
| Viewport.Camera.constructor | main.py:262-264 | a new camera has offset 0 and keeps the field size |
| Viewport.Camera.Update | main.py:269-270 | the new offset centres the target |
| Viewport.Camera.ApplyToPlayer | main.py:266-267 | the player's x moves by the offset; nothing else changes |
| Viewport.Camera.ApplyToCoin | main.py:266-267 | the coin's x moves by the offset; nothing else changes |
| Viewport.Camera.ApplyToCoins | main.py:769-770 | every coin's x moves by the offset, and their counters and frames are unchanged |
| Economy.Score | main.py:784 | the coins collected can be read back from the score and the tick count, and the score's last two digits come from the ticks alone |
| Economy.ScoreStep | main.py:784 | a tick raises the score by 100 per coin picked up, plus 1 on every second tick, so the score never decreases |
| Economy.Store.constructor | main.py:19-23 | the store holds the given balance, sets and selection; the selection (`Standard` at start) need not be owned |
| Economy.Store.Buy | main.py:600-613 | a set is bought if and only if it is not owned and the balance covers its cost; then the cost is deducted and the set becomes owned. Otherwise nothing changes. The balance stays non-negative, and an owned selected set stays owned |
| Economy.Store.Choose | main.py:616-621 | a set becomes the one played with if and only if it is owned; otherwise the selection is kept. After a successful choice the selected set is owned |
| Economy.Store.Reward | main.py:686-688 | a win adds the coins collected to the balance |
| Session.MakeCoins | main.py:241 | one fresh, distinct coin per coin rectangle, each with counter 5 and frame 0 |
| Session.MakeScene | main.py:240-256 | the tile, hazard, portal and coin groups hold exactly the layout's entities of those kinds, in creation order |
| Session.Level.constructor | main.py:744 | a new level is running with the given player, scene, camera and store |
| Session.Level.ApplyCamera | main.py:769-770 | every sprite's rectangle moves right by the offset, and nothing else changes |
| Session.Level.Prepare | main.py:758-771 | a click on a grounded player is a jump (speed (8, -29), jump frame 0) and otherwise changes nothing; the offset centres the player's old position; the player and every tile, hazard, portal and coin move right by it; every coin takes one spin tick; counters, score and coin group are untouched |
| Session.Level.Play | main.py:772-785 | from the pose `before`, exactly `go`'s guarantees: the animation step, the move by the pose's speed, a win if and only if a portal is touched, the ground snap, a loss if and only if a hazard mask is touched, pickups and gravity. A win adds its coins to the balance; a terminal outcome reports `Score(count, coins)` of the previous tick; a continued pass stores the new score |
| Session.Level.Tick | main.py:757-785 | one pass of the level loop. The pose `go` starts from is the old pose after the click and the camera (`Prepared`). The offset centres the old position, and every group and coin is shifted by it; every coin spins once. From that pose the player's frames, rectangle, speeds, ground flag and coins follow `go` exactly, as in `Play`. The level keeps running if and only if the pass continues. A win adds the coins to the balance; a loss or a continued pass leaves it alone |
| Session.Populate | main.py:755-756 | the groups hold the layout's entities by kind, the player stands on the spawn cell with no coins, the camera keeps the field size, and the level is running |
| Session.StartLevel | main.py:754-756 | an empty file is `BadLevelFile`; a grid without `@` is `NoSpawn`; otherwise a running level whose groups hold the entities of the loaded grid and whose player stands on its last `@` |

## Left out

- Rendering, fonts, images, sounds and music are left out. This includes
  `load_image`, `cut_sheet`, `transform.scale`, the HUD text, the random music
  track and `sound_control`. Image sizes enter only as the rectangle sizes
  they produce.
- Pixel masks are not computed. `collide_mask` is the `MaskOracle` parameter,
  whose player argument is always the current run frame's mask, as in the
  source.
- The SQLite database is left out: `COINS`, the `Sets` table and
  `set_for_playing` are `Store` fields. The `Statistics` table and the
  best-score reads and updates in `start_level`, `win` and `game_over` are
  not modelled, and neither is their comparison of old and new records.
- The screens and menus are left out: `menu`, `customizing` apart from its
  buy and choose branches, `pause`, `description`, `win`'s and `game_over`'s
  own loops, and the `is_chosen`/`pushed` button state.
- `terminate`, the clock and the event queue are left out. A tick's left
  click is a boolean parameter, and the pause key is left out.
- The cheat flag is a parameter, not the keyboard input that sets it.
- The HUD coin sprite (`sheet`) is left out. It is repositioned every tick,
  so the camera has no lasting effect on it.
- Extra `@` cells are left out. They create player sprites that are drawn
  and shifted but never stepped; only the last `@`'s player is modelled.
- Tiles, hazards and portals are values in `Scene`, not objects, so aliasing
  between sprite groups is not modelled. Coins are objects, because `go`
  removes them from their group.
- Session.Populate: states only the number of coins created.
  Session.MakeScene states their rectangles.
- Session.StartLevel: states only the number of coins created, for the same
  reason.
- Gameplay.Player.constructor: requires non-empty run and jump frame lists.
  With no run frames the source crashes at once, indexing `frames[0]`
  (main.py:174). With no jump frames it crashes on the first tick: the new
  player is airborne with counter 0, so main.py:187 takes a remainder by
  zero.
- Economy.Store.Buy: requires the set to exist, because the source reads
  `result[0][0]` and crashes otherwise.
- Economy.Store.Choose: requires the set to exist, for the same reason. The
  `Is_buyed` column is read as a boolean.
- Economy.Store.Buy and Economy.Store.Choose: the "no set highlighted"
  (`is_chosen` false) case is left out. In that case nothing happens.
- Economy.Store.constructor: requires a non-negative starting balance. The
  stored balance only ever grows by rewards and shrinks by affordable
  purchases, so the game never writes a negative one.
- Geometry.Rect.Move: coordinates are unbounded integers. pygame keeps a
  `Rect`'s coordinates as 32-bit C ints. A player who misses the portal and
  runs past the last tile falls forever, its vertical speed growing by 2
  per tick. After about 46,000 ticks (about 15 minutes at 50 ticks per
  second) `rect.move` at main.py:190 would overflow; the model never does.
