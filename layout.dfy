/** Turning a loaded grid into placed entities (main.py `generate_level` and
    the constructors of `Border`, `Tile`, `Spike`, `Coin`, `Portal` and
    `Player`). Each cell (x, y) sits at world position (100x, 100y). */
module Layout {
  import opened Wrappers
  import opened Geometry

  /** `tile_width = tile_height = 100`. */
  const CellSize: int := 100

  /** What a placed rectangle stands for; `Spike(true)` is `spikes.png`
      (a `^` cell), `Spike(false)` is `up_spikes.png` (a `v` cell). */
  datatype EntityKind = Tile | Border | Spike(placedDown: bool) | CoinPickup | Portal

  /** One entity `generate_level` creates, with its world-space rectangle. */
  datatype Sprite = Sprite(kind: EntityKind, rect: Rect)

  /** `Border(x1, y1, x2, y2)`: the rectangle is always 1 wide and x2 is
      ignored, so the "bottom" border is a 1x5 sliver. */
  function BorderRect(x1: int, y1: int, x2: int, y2: int): (r: Rect)
    // spelled out so that callers need not unfold the body
    ensures r.x == x1 && r.y == y1 && r.w == 1 && r.h == y2 - y1
  {
    Rect(x1, y1, 1, y2 - y1)
  }

  /** Border's rectangle ignores x2: a border is a 1-wide vertical strip from
      (x1, y1) down to y2 whatever horizontal extent the caller asks for. */
  lemma BorderIgnoresX2(x1: int, y1: int, x2: int, x2': int, y2: int)
    ensures BorderRect(x1, y1, x2, y2) == BorderRect(x1, y1, x2', y2)
    ensures BorderRect(x1, y1, x2, y2).w == 1 && BorderRect(x1, y1, x2, y2).y + BorderRect(x1, y1, x2, y2).h == y2
  {
  }

  /** The square of cell (x, y) in world space. */
  function CellBox(x: int, y: int): Rect { Rect(CellSize * x, CellSize * y, CellSize, CellSize) }

  /** Rectangle a lies inside rectangle b and shares its top-left corner's row. */
  predicate TopInside(a: Rect, b: Rect)
  {
    b.x <= a.x && a.x + a.w <= b.x + b.w && a.y == b.y && a.y + a.h <= b.y + b.h
  }

  /** A `wall` image is scaled to 100x100: a tile fills its cell. */
  function TileRect(x: int, y: int): (r: Rect)
    ensures r == CellBox(x, y)
  {
    Rect(CellSize * x, CellSize * y, 100, 100)
  }

  /** Spike images are scaled to 100x100: a spike fills its cell. */
  function SpikeRect(x: int, y: int): (r: Rect)
    ensures r == CellBox(x, y)
  {
    Rect(CellSize * x, CellSize * y, 100, 100)
  }

  /** Full-cell entities never intrude on another cell: two tiles overlap
      only when they are the tile of the same cell, and a spike overlaps a
      tile only when both belong to the same cell. */
  lemma CellsDisjoint(x: int, y: int, x': int, y': int)
    ensures Overlaps(TileRect(x, y), TileRect(x', y')) <==> x == x' && y == y'
    ensures Overlaps(SpikeRect(x, y), TileRect(x', y')) <==> x == x' && y == y'
  {
  }

  /** A coin frame is a 60x64 piece of the coin sheet, placed at the cell's
      corner: it sits inside the cell, against its top-left corner, and covers
      less than half of it. */
  function CoinRect(x: int, y: int): (r: Rect)
    ensures TopInside(r, CellBox(x, y)) && r.x == CellBox(x, y).x
    ensures 2 * r.w * r.h < CellSize * CellSize
  {
    Rect(CellSize * x, CellSize * y, 60, 64)
  }

  /** The portal image is scaled to 80x100: it spans the cell's height and
      leaves a 20-wide gap on the right. */
  function PortalRect(x: int, y: int): (r: Rect)
    ensures TopInside(r, CellBox(x, y)) && r.x == CellBox(x, y).x && r.h == CellSize
    ensures CellBox(x, y).x + CellSize - (r.x + r.w) == 20
  {
    Rect(CellSize * x, CellSize * y, 80, 100)
  }

  /** Player frames are scaled to 70x80 and the player is placed 15 units
      right of the cell's corner: it starts inside its cell, horizontally
      centred, touching the top edge, 20 above the bottom edge. */
  function PlayerRect(x: int, y: int): (r: Rect)
    ensures TopInside(r, CellBox(x, y))
    ensures r.x - CellBox(x, y).x == CellBox(x, y).x + CellSize - (r.x + r.w)
    ensures CellBox(x, y).y + CellSize - (r.y + r.h) == 20
  {
    Rect(CellSize * x + 15, CellSize * y, 70, 80)
  }

  /** The three borders a `#` cell creates, in creation order: left wall,
      right wall, bottom. */
  function TileBorders(x: int, y: int): seq<Sprite>
  {
    [Sprite(Border, BorderRect(x * 100, y * 100 + 5, x * 100, (y + 1) * 100 - 5)),
     Sprite(Border, BorderRect((x + 1) * 100, y * 100 + 5, (x + 1) * 100, (y + 1) * 100 - 5)),
     Sprite(Border, BorderRect(x * 100, y * 100 + 95, (x + 1) * 100, (y + 1) * 100))]
  }

  /** The entities one cell of code c at column x, row y creates, in creation
      order (the `if`/`elif` chain of `generate_level`). The player is not an
      entity of the layout: see `Spawn`. */
  function CellSprites(c: char, x: int, y: int, cheated: bool): (r: seq<Sprite>)
    ensures r == [] <==> !(c in {'#', '^', 'v', '0', '$'} || (cheated && c == '.'))
    ensures |r| == 4 <==> c == '#'
    ensures c != '#' ==> |r| <= 1
  {
    if c == '.' && cheated then [Sprite(CoinPickup, CoinRect(x, y))]
    else if c == '#' then TileBorders(x, y) + [Sprite(Tile, TileRect(x, y))]
    else if c == '^' then [Sprite(Spike(true), SpikeRect(x, y))]
    else if c == 'v' then [Sprite(Spike(false), SpikeRect(x, y))]
    else if c == '0' then [Sprite(CoinPickup, CoinRect(x, y))]
    else if c == '$' then [Sprite(Portal, PortalRect(x, y))]
    else []
  }

  /** Entities of the first n cells of row y, left to right. */
  function RowSprites(row: string, y: int, n: nat, cheated: bool): seq<Sprite>
    requires n <= |row|
  {
    if n == 0 then [] else RowSprites(row, y, n - 1, cheated) + CellSprites(row[n - 1], n - 1, y, cheated)
  }

  /** Entities of the first m rows, top to bottom. */
  function GridSprites(level: seq<string>, m: nat, cheated: bool): seq<Sprite>
    requires m <= |level|
  {
    if m == 0 then [] else GridSprites(level, m - 1, cheated) + RowSprites(level[m - 1], m - 1, |level[m - 1]|, cheated)
  }

  /** Every entity of the level in the order `generate_level` creates them. */
  function Entities(level: seq<string>, cheated: bool): seq<Sprite>
  {
    GridSprites(level, |level|, cheated)
  }

  /** Column of the last '@' among the first n cells of a row. */
  function LastAt(row: string, n: nat): Option<nat>
    requires n <= |row|
  {
    if n == 0 then None else if row[n - 1] == '@' then Some(n - 1) else LastAt(row, n - 1)
  }

  /** The spawn after scanning the first n cells of row y, given the spawn
      found before the row. */
  function RowSpawn(row: string, n: nat, y: nat, before: Option<(nat, nat)>): Option<(nat, nat)>
    requires n <= |row|
  {
    match LastAt(row, n)
    case Some(x) => Some((x, y))
    case None => before
  }

  /** Cell (column, row) of the last '@' in the first m rows, in reading order. */
  function SpawnIn(level: seq<string>, m: nat): Option<(nat, nat)>
    requires m <= |level|
  {
    if m == 0 then None else RowSpawn(level[m - 1], |level[m - 1]|, m - 1, SpawnIn(level, m - 1))
  }

  /** The cell of the player `generate_level` returns: every '@' creates a
      player, and the one created last is returned. */
  function Spawn(level: seq<string>): Option<(nat, nat)>
  {
    SpawnIn(level, |level|)
  }

  /** The column loop variable `x` after the first m rows: the last column of the
      last non-empty row, or None when no cell was visited. */
  function LastColumn(level: seq<string>, m: nat): Option<nat>
    requires m <= |level|
  {
    if m == 0 then None
    else if |level[m - 1]| > 0 then Some(|level[m - 1]| - 1)
    else LastColumn(level, m - 1)
  }

  /** The inner loop of `generate_level` over the cells of row y: appends the
      cells' entities to `placed` and updates the last '@' seen. */
  method GenerateRow(row: string, y: nat, cheated: bool, placed: seq<Sprite>, spawn: Option<(nat, nat)>)
    returns (placed': seq<Sprite>, spawn': Option<(nat, nat)>)
    ensures placed' == placed + RowSprites(row, y, |row|, cheated)
    ensures spawn' == RowSpawn(row, |row|, y, spawn)
  {
    placed', spawn' := placed, spawn;
    var x := 0;
    while x < |row|
      invariant x <= |row|
      invariant placed' == placed + RowSprites(row, y, x, cheated)
      invariant spawn' == RowSpawn(row, x, y, spawn)
    {
      var cell := CellSprites(row[x], x, y, cheated);
      ghost var prefix := RowSprites(row, y, x, cheated);
      assert RowSprites(row, y, x + 1, cheated) == prefix + cell;
      placed' := placed' + cell;
      assert placed' == placed + (prefix + cell);
      if row[x] == '@' {
        spawn' := Some((x, y));
      }
      x := x + 1;
    }
  }

  /** `generate_level`: visits the grid row by row, cell by cell, creating
      the cells' entities and remembering the last '@'. Also returns the final
      values of its loop variables x and y, which `start_level` passes on as
      the level size. */
  method GenerateLevel(level: seq<string>, cheated: bool)
    returns (placed: seq<Sprite>, spawn: Option<(nat, nat)>, lastX: Option<nat>, lastY: Option<nat>)
    ensures placed == Entities(level, cheated)
    ensures spawn == Spawn(level)
    ensures lastX == LastColumn(level, |level|)
    ensures lastY == if |level| == 0 then None else Some(|level| - 1)
  {
    placed, spawn, lastX, lastY := [], None, None, None;
    var y := 0;
    while y < |level|
      invariant y <= |level|
      invariant placed == GridSprites(level, y, cheated)
      invariant spawn == SpawnIn(level, y)
      invariant lastX == LastColumn(level, y)
      invariant lastY == if y == 0 then None else Some(y - 1)
    {
      placed, spawn := GenerateRow(level[y], y, cheated, placed, spawn);
      if |level[y]| > 0 {
        lastX := Some(|level[y]| - 1);
      }
      lastY := Some(y);
      y := y + 1;
    }
  }

  /** (x, y) is a cell of the grid. */
  predicate InGrid(level: seq<string>, x: int, y: int)
  {
    0 <= y < |level| && 0 <= x < |level[y]|
  }

  /** Cell x of row y creates entity s. */
  predicate RowCreates(row: string, y: int, cheated: bool, s: Sprite, x: int)
  {
    0 <= x < |row| && s in CellSprites(row[x], x, y, cheated)
  }

  /** Cell (x, y) of the grid creates entity s. */
  predicate CreatedAt(level: seq<string>, cheated: bool, s: Sprite, x: int, y: int)
  {
    0 <= y < |level| && RowCreates(level[y], y, cheated, s, x)
  }

  /** What a cell's entity tells about the cell: its kind fixes the cell's code
      and its rectangle, and borders are 1-wide strips on the cell's edges. */
  lemma CellSpriteShape(c: char, x: int, y: int, cheated: bool, s: Sprite)
    requires s in CellSprites(c, x, y, cheated)
    ensures s.kind == Tile ==> c == '#' && s.rect == TileRect(x, y)
    ensures s.kind.Spike? ==> c == (if s.kind.placedDown then '^' else 'v') && s.rect == SpikeRect(x, y)
    ensures s.kind == CoinPickup ==> (c == '0' || (cheated && c == '.')) && s.rect == CoinRect(x, y)
    ensures s.kind == Portal ==> c == '$' && s.rect == PortalRect(x, y)
    ensures s.kind == Border ==>
      c == '#' && s.rect.w == 1 && (s.rect.h == 90 || s.rect.h == 5) &&
      s.rect.y - 100 * y in {5, 95} && s.rect.x - 100 * x in {0, 100}
  {
  }

  /** Every entity of the first n cells of a row is created by one of them. */
  lemma {:induction false} RowSpritesSound(row: string, y: int, n: nat, cheated: bool, s: Sprite)
    requires n <= |row| && s in RowSprites(row, y, n, cheated)
    ensures exists x :: x < n && RowCreates(row, y, cheated, s, x)
  {
    var prefix, cell := RowSprites(row, y, n - 1, cheated), CellSprites(row[n - 1], n - 1, y, cheated);
    assert RowSprites(row, y, n, cheated) == prefix + cell;
    if s in cell {
      assert RowCreates(row, y, cheated, s, n - 1);
    } else {
      RowSpritesSound(row, y, n - 1, cheated, s);
      var x :| x < n - 1 && RowCreates(row, y, cheated, s, x);
      assert x < n;
    }
  }

  /** Every entity cell x creates is among the entities of the first n cells
      when x < n. */
  lemma {:induction false} RowSpritesComplete(row: string, y: int, n: nat, cheated: bool, s: Sprite, x: int)
    requires n <= |row| && x < n && RowCreates(row, y, cheated, s, x)
    ensures s in RowSprites(row, y, n, cheated)
  {
    var prefix, cell := RowSprites(row, y, n - 1, cheated), CellSprites(row[n - 1], n - 1, y, cheated);
    assert RowSprites(row, y, n, cheated) == prefix + cell;
    if x < n - 1 {
      RowSpritesComplete(row, y, n - 1, cheated, s, x);
    }
  }

  /** Every entity of the first m rows is created by one of their cells. */
  lemma {:induction false} GridSpritesSound(level: seq<string>, m: nat, cheated: bool, s: Sprite)
    requires m <= |level| && s in GridSprites(level, m, cheated)
    ensures exists y, x :: y < m && CreatedAt(level, cheated, s, x, y)
  {
    var row := level[m - 1];
    var above, last := GridSprites(level, m - 1, cheated), RowSprites(row, m - 1, |row|, cheated);
    assert GridSprites(level, m, cheated) == above + last;
    if s in last {
      RowSpritesSound(row, m - 1, |row|, cheated, s);
      var x :| x < |row| && RowCreates(row, m - 1, cheated, s, x);
      assert CreatedAt(level, cheated, s, x, m - 1);
    } else {
      GridSpritesSound(level, m - 1, cheated, s);
      var y, x :| y < m - 1 && CreatedAt(level, cheated, s, x, y);
      assert y < m;
    }
  }

  /** Every entity a cell of the first m rows creates is among their entities. */
  lemma {:induction false} GridSpritesComplete(level: seq<string>, m: nat, cheated: bool, s: Sprite, x: int, y: int)
    requires m <= |level| && y < m && CreatedAt(level, cheated, s, x, y)
    ensures s in GridSprites(level, m, cheated)
  {
    var row := level[m - 1];
    var above, last := GridSprites(level, m - 1, cheated), RowSprites(row, m - 1, |row|, cheated);
    assert GridSprites(level, m, cheated) == above + last;
    if y < m - 1 {
      GridSpritesComplete(level, m - 1, cheated, s, x, y);
    } else {
      RowSpritesComplete(row, m - 1, |row|, cheated, s, x);
    }
  }

  /** The layout holds an entity exactly when some cell of the grid creates it:
      nothing is created from outside the grid and nothing a cell creates is lost. */
  lemma EntitiesMember(level: seq<string>, cheated: bool, s: Sprite)
    ensures s in Entities(level, cheated) <==> exists y, x :: CreatedAt(level, cheated, s, x, y)
  {
    if s in Entities(level, cheated) {
      GridSpritesSound(level, |level|, cheated, s);
    }
    if exists y, x :: CreatedAt(level, cheated, s, x, y) {
      var y, x :| CreatedAt(level, cheated, s, x, y);
      GridSpritesComplete(level, |level|, cheated, s, x, y);
    }
  }

  /** There is a 100x100 tile at (100x, 100y) exactly when cell (x, y) is '#'. */
  lemma TilePlacedIff(level: seq<string>, cheated: bool, x: int, y: int)
    ensures Sprite(Tile, TileRect(x, y)) in Entities(level, cheated) <==>
            InGrid(level, x, y) && level[y][x] == '#'
  {
    EntitiesMember(level, cheated, Sprite(Tile, TileRect(x, y)));
    if InGrid(level, x, y) && level[y][x] == '#' {
      assert CellSprites(level[y][x], x, y, cheated)[3] == Sprite(Tile, TileRect(x, y));
      assert CreatedAt(level, cheated, Sprite(Tile, TileRect(x, y)), x, y);
    }
    if Sprite(Tile, TileRect(x, y)) in Entities(level, cheated) {
      var y', x' :| CreatedAt(level, cheated, Sprite(Tile, TileRect(x, y)), x', y');
      CellSpriteShape(level[y'][x'], x', y', cheated, Sprite(Tile, TileRect(x, y)));
    }
  }

  /** A '#' at (x, y) also creates its three 1-wide borders: the left and right
      walls 90 high starting 5 below the top edge, and a 1x5 sliver at the
      lower-left corner (the `x2` argument of `Border` is ignored). */
  lemma TileHasBorders(level: seq<string>, cheated: bool, x: int, y: int)
    requires InGrid(level, x, y) && level[y][x] == '#'
    ensures Sprite(Border, Rect(100 * x, 100 * y + 5, 1, 90)) in Entities(level, cheated)
    ensures Sprite(Border, Rect(100 * (x + 1), 100 * y + 5, 1, 90)) in Entities(level, cheated)
    ensures Sprite(Border, Rect(100 * x, 100 * y + 95, 1, 5)) in Entities(level, cheated)
  {
    var cell := CellSprites(level[y][x], x, y, cheated);
    assert cell[0] == Sprite(Border, Rect(100 * x, 100 * y + 5, 1, 90));
    assert cell[1] == Sprite(Border, Rect(100 * (x + 1), 100 * y + 5, 1, 90));
    assert cell[2] == Sprite(Border, Rect(100 * x, 100 * y + 95, 1, 5));
    GridSpritesComplete(level, |level|, cheated, cell[0], x, y);
    GridSpritesComplete(level, |level|, cheated, cell[1], x, y);
    GridSpritesComplete(level, |level|, cheated, cell[2], x, y);
  }

  /** Every border of the layout is a 1-wide strip, 90 or 5 high, whose top-left
      corner lies on the edge of a '#' cell. */
  lemma BordersAreSlivers(level: seq<string>, cheated: bool, s: Sprite)
    requires s in Entities(level, cheated) && s.kind == Border
    ensures s.rect.w == 1
    ensures s.rect.h == 90 || s.rect.h == 5
    ensures exists y, x ::
      InGrid(level, x, y) && level[y][x] == '#' &&
      s.rect.y - 100 * y in {5, 95} && s.rect.x - 100 * x in {0, 100}
  {
    GridSpritesSound(level, |level|, cheated, s);
    var y, x :| y < |level| && CreatedAt(level, cheated, s, x, y);
    CellSpriteShape(level[y][x], x, y, cheated, s);
  }

  /** A spike at (100x, 100y) exists exactly when cell (x, y) is '^' (placed
      down) or 'v' (placed up). */
  lemma SpikePlacedIff(level: seq<string>, cheated: bool, x: int, y: int, placedDown: bool)
    ensures Sprite(Spike(placedDown), SpikeRect(x, y)) in Entities(level, cheated) <==>
            InGrid(level, x, y) && level[y][x] == (if placedDown then '^' else 'v')
  {
    EntitiesMember(level, cheated, Sprite(Spike(placedDown), SpikeRect(x, y)));
    if InGrid(level, x, y) && level[y][x] == (if placedDown then '^' else 'v') {
      assert CreatedAt(level, cheated, Sprite(Spike(placedDown), SpikeRect(x, y)), x, y);
    }
    if Sprite(Spike(placedDown), SpikeRect(x, y)) in Entities(level, cheated) {
      var y', x' :| CreatedAt(level, cheated, Sprite(Spike(placedDown), SpikeRect(x, y)), x', y');
      CellSpriteShape(level[y'][x'], x', y', cheated, Sprite(Spike(placedDown), SpikeRect(x, y)));
    }
  }

  /** A coin at (100x, 100y) exists exactly when cell (x, y) is '0', or is '.'
      and the cheat is on. */
  lemma CoinPlacedIff(level: seq<string>, cheated: bool, x: int, y: int)
    ensures Sprite(CoinPickup, CoinRect(x, y)) in Entities(level, cheated) <==>
            InGrid(level, x, y) && (level[y][x] == '0' || (cheated && level[y][x] == '.'))
  {
    EntitiesMember(level, cheated, Sprite(CoinPickup, CoinRect(x, y)));
    if InGrid(level, x, y) && (level[y][x] == '0' || (cheated && level[y][x] == '.')) {
      assert CreatedAt(level, cheated, Sprite(CoinPickup, CoinRect(x, y)), x, y);
    }
    if Sprite(CoinPickup, CoinRect(x, y)) in Entities(level, cheated) {
      var y', x' :| CreatedAt(level, cheated, Sprite(CoinPickup, CoinRect(x, y)), x', y');
      CellSpriteShape(level[y'][x'], x', y', cheated, Sprite(CoinPickup, CoinRect(x, y)));
    }
  }

  /** A portal at (100x, 100y) exists exactly when cell (x, y) is '$'. */
  lemma PortalPlacedIff(level: seq<string>, cheated: bool, x: int, y: int)
    ensures Sprite(Portal, PortalRect(x, y)) in Entities(level, cheated) <==>
            InGrid(level, x, y) && level[y][x] == '$'
  {
    EntitiesMember(level, cheated, Sprite(Portal, PortalRect(x, y)));
    if InGrid(level, x, y) && level[y][x] == '$' {
      assert CreatedAt(level, cheated, Sprite(Portal, PortalRect(x, y)), x, y);
    }
    if Sprite(Portal, PortalRect(x, y)) in Entities(level, cheated) {
      var y', x' :| CreatedAt(level, cheated, Sprite(Portal, PortalRect(x, y)), x', y');
      CellSpriteShape(level[y'][x'], x', y', cheated, Sprite(Portal, PortalRect(x, y)));
    }
  }

  /** A cell whose code is none of `# ^ v 0 $`, and is not '.' under the cheat,
      creates nothing ('@' creates the player, outside the entity list). */
  lemma OtherCodesPlaceNothing(level: seq<string>, cheated: bool, x: int, y: int, s: Sprite)
    requires InGrid(level, x, y) && level[y][x] !in {'#', '^', 'v', '0', '$'}
    requires !(cheated && level[y][x] == '.')
    ensures s !in CellSprites(level[y][x], x, y, cheated)
  {
  }

  /** LastAt finds the right-most '@' among the first n cells. */
  lemma {:induction false} LastAtSpec(row: string, n: nat)
    requires n <= |row|
    ensures LastAt(row, n).None? <==> forall x :: 0 <= x < n ==> row[x] != '@'
    ensures LastAt(row, n).Some? ==>
            var x := LastAt(row, n).value;
            x < n && row[x] == '@' && forall k :: x < k < n ==> row[k] != '@'
  {
    if n > 0 && row[n - 1] != '@' {
      LastAtSpec(row, n - 1);
    }
  }

  /** The player cell is the last '@' in reading order, and there is none
      exactly when the grid has no '@'. */
  lemma {:induction false} SpawnInSpec(level: seq<string>, m: nat)
    requires m <= |level|
    ensures SpawnIn(level, m).None? <==>
            forall y, x :: 0 <= y < m && 0 <= x < |level[y]| ==> level[y][x] != '@'
    ensures SpawnIn(level, m).Some? ==>
            var (x, y) := SpawnIn(level, m).value;
            y < m && InGrid(level, x, y) && level[y][x] == '@' &&
            (forall k :: x < k < |level[y]| ==> level[y][k] != '@') &&
            (forall y', k :: y < y' < m && 0 <= k < |level[y']| ==> level[y'][k] != '@')
  {
    if m > 0 {
      LastAtSpec(level[m - 1], |level[m - 1]|);
      SpawnInSpec(level, m - 1);
    }
  }

  /** `Spawn` is the last '@' of the whole grid in reading order. */
  lemma SpawnSpec(level: seq<string>)
    ensures Spawn(level).None? <==> forall y, x :: InGrid(level, x, y) ==> level[y][x] != '@'
    ensures Spawn(level).Some? ==>
            var (x, y) := Spawn(level).value;
            InGrid(level, x, y) && level[y][x] == '@' &&
            (forall k :: x < k < |level[y]| ==> level[y][k] != '@') &&
            (forall y', k :: y < y' && InGrid(level, k, y') ==> level[y'][k] != '@')
  {
    SpawnInSpec(level, |level|);
  }

  /** The rectangles of the entities of kind k, in creation order: the
      contents of `tiles_group`, `portals` or `coins`. */
  function RectsOfKind(placed: seq<Sprite>, k: EntityKind): seq<Rect>
  {
    if placed == [] then []
    else RectsOfKind(placed[..|placed| - 1], k) +
         (if placed[|placed| - 1].kind == k then [placed[|placed| - 1].rect] else [])
  }

  /** Borders and spikes, the entities a touch of which ends the game. */
  predicate IsHazard(k: EntityKind)
  {
    k == Border || k.Spike?
  }

  /** The contents of `for_mask`: borders and spikes, in creation order. */
  function HazardsOf(placed: seq<Sprite>): seq<Sprite>
  {
    if placed == [] then []
    else HazardsOf(placed[..|placed| - 1]) +
         (if IsHazard(placed[|placed| - 1].kind) then [placed[|placed| - 1]] else [])
  }

  /** A group of one kind holds exactly the rectangles of that kind's entities. */
  lemma {:induction false} RectsOfKindMember(placed: seq<Sprite>, k: EntityKind, r: Rect)
    ensures r in RectsOfKind(placed, k) <==> Sprite(k, r) in placed
  {
    if placed != [] {
      var init := placed[..|placed| - 1];
      RectsOfKindMember(init, k, r);
      assert placed == init + [placed[|placed| - 1]];
    }
  }

  /** `for_mask` holds exactly the borders and spikes. */
  lemma {:induction false} HazardsOfMember(placed: seq<Sprite>, s: Sprite)
    ensures s in HazardsOf(placed) <==> s in placed && IsHazard(s.kind)
  {
    if placed != [] {
      var init := placed[..|placed| - 1];
      HazardsOfMember(init, s);
      assert placed == init + [placed[|placed| - 1]];
    }
  }
}
