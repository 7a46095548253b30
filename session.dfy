/** One attempt at a level (main.py `start_level`): the level is loaded and
    laid out, then every tick handles the click, moves the camera, spins the
    coins, runs the player's step and stores the score, until the player wins
    or loses. */
module Session {
  import opened Wrappers
  import opened Geometry
  import opened LevelLoader
  import opened Layout
  import opened Animation
  import opened Gameplay
  import opened Viewport
  import opened Economy

  /** Why a level cannot be started. */
  datatype StartError =
    /** The level file has no lines. */
    | BadLevelFile(cause: LoadError)
    /** The grid has no '@', so `generate_level` returns no player. */
    | NoSpawn

  /** A fresh coin for each rectangle, in order. */
  method MakeCoins(rects: seq<Rect>) returns (coins: seq<Coin>)
    ensures |coins| == |rects| && Distinct(coins)
    ensures forall i :: 0 <= i < |coins| ==>
      fresh(coins[i]) && coins[i].Valid() && coins[i].rect == rects[i] &&
      coins[i].count == 5 && coins[i].curFrame == 0
  {
    coins := [];
    var i := 0;
    while i < |rects|
      invariant i <= |rects| && |coins| == i && Distinct(coins)
      invariant forall k :: 0 <= k < i ==>
        fresh(coins[k]) && coins[k].Valid() && coins[k].rect == rects[k] &&
        coins[k].count == 5 && coins[k].curFrame == 0
    {
      var c := new Coin(rects[i]);
      coins := coins + [c];
      i := i + 1;
    }
  }

  /** A level being played. */
  class Level {
    const player: Player
    const scene: Scene
    const camera: Camera
    const store: Store
    /** False once `win` or `game_over` has fired: no tick runs after that. */
    var running: bool

    /** Between ticks, the player's stored score is the score of its counters. */
    ghost predicate Valid()
      reads this, player, scene, scene.coins, store
    {
      player.Valid() && scene.Valid() && store.Valid() &&
      (running ==> player.score == Score(player.count, player.coinsCount))
    }

    constructor (player: Player, scene: Scene, camera: Camera, store: Store)
      requires player.Valid() && scene.Valid() && store.Valid()
      requires player.score == Score(player.count, player.coinsCount)
      ensures Valid() && running
      ensures this.player == player && this.scene == scene && this.camera == camera && this.store == store
    {
      this.player := player;
      this.scene := scene;
      this.camera := camera;
      this.store := store;
      running := true;
    }

    /** `for sprite in all_sprites: camera.apply(sprite)`: every rectangle
        moves right by the camera offset; nothing else changes. */
    method ApplyCamera()
      requires Valid()
      modifies player`rect, scene`tiles, scene`hazards, scene`portals, scene.coins
      ensures Valid()
      ensures player.rect == Shift(old(player.rect), camera.dx)
      ensures scene.tiles == ShiftAll(old(scene.tiles), camera.dx)
      ensures scene.hazards == ShiftSprites(old(scene.hazards), camera.dx)
      ensures scene.portals == ShiftAll(old(scene.portals), camera.dx)
      ensures forall i :: 0 <= i < |scene.coins| ==>
        scene.coins[i].rect == Shift(old(scene.coins[i].rect), camera.dx) &&
        scene.coins[i].count == old(scene.coins[i].count) &&
        scene.coins[i].curFrame == old(scene.coins[i].curFrame)
    {
      camera.ApplyToPlayer(player);
      scene.tiles := ShiftAll(scene.tiles, camera.dx);
      scene.hazards := ShiftSprites(scene.hazards, camera.dx);
      scene.portals := ShiftAll(scene.portals, camera.dx);
      camera.ApplyToCoins(scene.coins);
    }

    /** The part of a pass before the player's step: a click makes a grounded
        player jump, the camera centres on the player and shifts every sprite,
        and the coins spin. Counters, score and coin group are untouched. */
    method Prepare(click: bool)
      requires Valid() && running
      modifies player, scene`tiles, scene`hazards, scene`portals, scene.coins, camera`dx
      ensures Valid() && running
      ensures camera.dx == Offset(old(player.rect))
      ensures player.rect == Shift(old(player.rect), camera.dx)
      ensures click && old(player.jumpP) ==>
        !player.jumpP && player.sx == JumpSpeed && player.sy == JumpImpulse && player.curJumpFrame == 0
      ensures !(click && old(player.jumpP)) ==>
        player.jumpP == old(player.jumpP) && player.sx == old(player.sx) && player.sy == old(player.sy) &&
        player.curJumpFrame == old(player.curJumpFrame)
      ensures player.curFrame == old(player.curFrame)
      ensures player.count == old(player.count) && player.coinsCount == old(player.coinsCount)
      ensures player.score == old(player.score) && scene.coins == old(scene.coins)
      ensures scene.tiles == ShiftAll(old(scene.tiles), camera.dx)
      ensures scene.hazards == ShiftSprites(old(scene.hazards), camera.dx)
      ensures scene.portals == ShiftAll(old(scene.portals), camera.dx)
      ensures forall i :: 0 <= i < |scene.coins| ==>
        scene.coins[i].rect == Shift(old(scene.coins[i].rect), camera.dx) &&
        scene.coins[i].count == old(scene.coins[i].count) + 1 &&
        scene.coins[i].curFrame == CycleStep(old(scene.coins[i].count), old(scene.coins[i].curFrame), CoinPeriod, scene.coins[i].frameCount)
    {
      if click {
        player.Jump();
      }
      camera.Update(player);
      ApplyCamera();
      scene.UpdateCoins();
    }

    /** The part of a pass from `player.go` on: the step itself, then the
        outcome's bookkeeping (the reward of a win, the end of the loop, or the
        stored score). `before` is the player's pose when the step starts. */
    method Play(ghost before: Pose, hit: MaskOracle) returns (o: Outcome)
      requires Valid() && running && before == player.CurrentPose()
      modifies this`running, player, scene`coins, store`balance
      ensures Valid()
      ensures running <==> o.Continue?
      ensures player.count == old(player.count) + 1
      ensures before.jumpP && old(player.count) % RunPeriod == 0 ==>
        player.curFrame == NextFrame(before.curFrame, player.frameCount) && player.curJumpFrame == 0
      ensures !before.jumpP ==>
        player.curFrame == before.curFrame &&
        player.curJumpFrame == CycleStep(old(player.count), before.curJumpFrame, JumpPeriod, player.jumpFrameCount)
      ensures before.jumpP && old(player.count) % RunPeriod != 0 ==>
        player.curFrame == before.curFrame && player.curJumpFrame == before.curJumpFrame
      ensures var moved := before.rect.Move(before.sx, before.sy);
        (o.Won? <==> AnyOverlap(moved, scene.portals)) &&
        (o.Won? ==> player.rect == moved && player.sx == before.sx && player.sy == before.sy &&
                    player.jumpP == before.jumpP) &&
        (!o.Won? ==> player.jumpP == AnyOverlap(moved, scene.tiles) &&
                     player.rect == (if player.jumpP then moved.Move(0, -before.sy) else moved) &&
                     player.sx == (if player.jumpP then RunSpeed else before.sx))
      ensures !o.Won? ==> (o.Lost? <==> HazardHit(player.curFrame, player.rect, scene.hazards, hit))
      ensures o.Lost? ==> player.sy == (if player.jumpP then 0 else before.sy)
      ensures !o.Continue? ==> o.score == Score(old(player.count), old(player.coinsCount))
      ensures !o.Continue? ==>
        o.coins == old(player.coinsCount) && player.coinsCount == o.coins && scene.coins == old(scene.coins)
      ensures o.Won? ==> store.balance == old(store.balance) + o.coins
      ensures !o.Won? ==> store.balance == old(store.balance)
      ensures o.Continue? ==>
        player.sy == (if player.jumpP then 0 else before.sy) + Gravity &&
        scene.coins == Uncollected(old(scene.coins), player.curFrame, player.rect, hit) &&
        player.coinsCount == old(player.coinsCount) + Collected(old(scene.coins), player.curFrame, player.rect, hit) &&
        player.coinsCount - old(player.coinsCount) == |old(scene.coins)| - |scene.coins|
    {
      o := player.Go(scene, hit);
      match o {
        case Won(_, coins) =>
          store.Reward(coins);
          running := false;
        case Lost(_, _) =>
          running := false;
        case Continue =>
          player.score := Score(player.count, player.coinsCount);
      }
    }

    /** One pass of the level loop. `click` says whether a left click arrived
        since the last tick; `hit` is the pixel-mask test; `before` is the
        player's pose once the click and the camera are handled, from which
        `go` starts. A win adds the coins collected to the balance; a loss
        leaves the balance alone; the score both report is the one stored at
        the end of the previous tick. */
    method Tick(click: bool, hit: MaskOracle) returns (o: Outcome, ghost before: Pose)
      requires Valid() && running
      modifies this`running, player, scene, scene.coins, camera`dx, store`balance
      ensures Valid()
      ensures running <==> o.Continue?
      // click and camera
      ensures camera.dx == Offset(old(player.rect))
      ensures before == Prepared(old(player.CurrentPose()), click)
      ensures scene.tiles == ShiftAll(old(scene.tiles), camera.dx)
      ensures scene.hazards == ShiftSprites(old(scene.hazards), camera.dx)
      ensures scene.portals == ShiftAll(old(scene.portals), camera.dx)
      ensures forall i :: 0 <= i < |old(scene.coins)| ==>
        var c := old(scene.coins)[i];
        c.rect == Shift(old(c.rect), camera.dx) && c.count == old(c.count) + 1 &&
        c.curFrame == CycleStep(old(c.count), old(c.curFrame), CoinPeriod, c.frameCount)
      // the player's step, from the prepared pose
      ensures player.count == old(player.count) + 1
      ensures before.jumpP && old(player.count) % RunPeriod == 0 ==>
        player.curFrame == NextFrame(before.curFrame, player.frameCount) && player.curJumpFrame == 0
      ensures !before.jumpP ==>
        player.curFrame == before.curFrame &&
        player.curJumpFrame == CycleStep(old(player.count), before.curJumpFrame, JumpPeriod, player.jumpFrameCount)
      ensures before.jumpP && old(player.count) % RunPeriod != 0 ==>
        player.curFrame == before.curFrame && player.curJumpFrame == before.curJumpFrame
      ensures var moved := before.rect.Move(before.sx, before.sy);
        (o.Won? <==> AnyOverlap(moved, scene.portals)) &&
        (o.Won? ==> player.rect == moved && player.sx == before.sx && player.sy == before.sy &&
                    player.jumpP == before.jumpP) &&
        (!o.Won? ==> player.jumpP == AnyOverlap(moved, scene.tiles) &&
                     player.rect == (if player.jumpP then moved.Move(0, -before.sy) else moved) &&
                     player.sx == (if player.jumpP then RunSpeed else before.sx))
      ensures !o.Won? ==> (o.Lost? <==> HazardHit(player.curFrame, player.rect, scene.hazards, hit))
      ensures o.Lost? ==> player.sy == (if player.jumpP then 0 else before.sy)
      // outcome, coins and balance
      ensures !o.Continue? ==> o.score == Score(old(player.count), old(player.coinsCount))
      ensures !o.Continue? ==>
        o.coins == old(player.coinsCount) && player.coinsCount == o.coins && scene.coins == old(scene.coins)
      ensures o.Won? ==> store.balance == old(store.balance) + o.coins
      ensures !o.Won? ==> store.balance == old(store.balance)
      ensures o.Continue? ==>
        player.sy == (if player.jumpP then 0 else before.sy) + Gravity &&
        scene.coins == Uncollected(old(scene.coins), player.curFrame, player.rect, hit) &&
        player.coinsCount == old(player.coinsCount) + Collected(old(scene.coins), player.curFrame, player.rect, hit) &&
        player.coinsCount - old(player.coinsCount) == |old(scene.coins)| - |scene.coins|
    {
      Prepare(click);
      before := player.CurrentPose();
      o := Play(before, hit);
    }
  }

  /** The pose `go` starts from after a pass has handled a click and applied
      the camera: a click on a grounded player is a jump, and the camera
      centres the player's old position. */
  ghost function Prepared(p: Pose, click: bool): Pose
  {
    var q := if click && p.jumpP then p.(jumpP := false, sx := JumpSpeed, sy := JumpImpulse, curJumpFrame := 0) else p;
    q.(rect := Shift(p.rect, Offset(p.rect)))
  }

  /** The sprite groups of a layout, with a fresh coin object per coin. */
  method MakeScene(placed: seq<Sprite>) returns (scene: Scene)
    ensures fresh(scene) && scene.Valid()
    ensures scene.tiles == RectsOfKind(placed, Tile)
    ensures scene.hazards == HazardsOf(placed)
    ensures scene.portals == RectsOfKind(placed, Portal)
    ensures CoinRects(scene.coins) == RectsOfKind(placed, CoinPickup)
    ensures forall i :: 0 <= i < |scene.coins| ==> fresh(scene.coins[i])
  {
    var coins := MakeCoins(RectsOfKind(placed, CoinPickup));
    scene := new Scene(RectsOfKind(placed, Tile), HazardsOf(placed), RectsOfKind(placed, Portal), coins);
  }

  /** The part of `start_level` after `generate_level`: file the entities in
      their groups, create the player on the spawn cell and a camera sized by
      `generate_level`'s last loop indices. */
  method Populate(placed: seq<Sprite>, cell: (nat, nat), size: (Option<nat>, Option<nat>),
                  store: Store, frameCount: nat, jumpFrameCount: nat)
    returns (lv: Level)
    requires store.Valid() && 0 < frameCount && 0 < jumpFrameCount
    ensures fresh(lv) && fresh(lv.player) && lv.Valid() && lv.running && lv.store == store
    ensures lv.scene.tiles == RectsOfKind(placed, Tile)
    ensures lv.scene.hazards == HazardsOf(placed)
    ensures lv.scene.portals == RectsOfKind(placed, Portal)
    ensures |lv.scene.coins| == |RectsOfKind(placed, CoinPickup)|
    ensures lv.player.rect == PlayerRect(cell.0, cell.1)
    ensures lv.player.coinsCount == 0 && !lv.player.jumpP
    ensures lv.camera.fieldSize == size
  {
    var scene := MakeScene(placed);
    var player := new Player(cell.0, cell.1, frameCount, jumpFrameCount);
    var camera := new Camera(size);
    lv := new Level(player, scene, camera, store);
  }

  /** `start_level` up to its loop: load the file, lay out the grid, and
      populate the level; an empty file or a grid without '@' is an error. */
  method StartLevel(lines: seq<string>, cheated: bool, store: Store, frameCount: nat, jumpFrameCount: nat)
    returns (r: Result<Level, StartError>)
    requires store.Valid() && 0 < frameCount && 0 < jumpFrameCount
    ensures LoadLevel(lines).Failure? ==> r == Failure(BadLevelFile(LoadLevel(lines).error))
    ensures LoadLevel(lines).Success? ==>
      var grid := LoadLevel(lines).value;
      (r.Failure? <==> Spawn(grid).None?) && (r.Failure? ==> r.error == NoSpawn) &&
      (r.Success? ==>
        var lv, placed, cell := r.value, Entities(grid, cheated), Spawn(grid).value;
        fresh(lv) && fresh(lv.player) && lv.Valid() && lv.running && lv.store == store &&
        lv.scene.tiles == RectsOfKind(placed, Tile) &&
        lv.scene.hazards == HazardsOf(placed) &&
        lv.scene.portals == RectsOfKind(placed, Portal) &&
        |lv.scene.coins| == |RectsOfKind(placed, CoinPickup)| &&
        lv.player.rect == PlayerRect(cell.0, cell.1))
  {
    var loaded := LoadLevel(lines);
    if loaded.Failure? {
      return Failure(BadLevelFile(loaded.error));
    }
    var placed, spawn, lastX, lastY := GenerateLevel(loaded.value, cheated);
    if spawn.None? {
      return Failure(NoSpawn);
    }
    var level := Populate(placed, spawn.value, (lastX, lastY), store, frameCount, jumpFrameCount);
    return Success(level);
  }
}
