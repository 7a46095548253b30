/** The per-tick character step (main.py `Player`, `Coin`, and the sprite
    groups they collide with). Pixel-mask collision is not computed here: the
    caller supplies it as a `MaskOracle`. */
module Gameplay {
  import opened Geometry
  import opened Layout
  import opened Animation

  /** `GRAVITY`: added to the vertical speed at the end of every tick. */
  const Gravity: int := 2
  /** Vertical speed given by a jump (upwards is negative). */
  const JumpImpulse: int := -29
  /** Horizontal speed given by a jump. */
  const JumpSpeed: int := 8
  /** Horizontal speed set whenever the player touches a tile. */
  const RunSpeed: int := 7
  /** The speeds a new player starts with. */
  const StartSpeedX: int := 5
  const StartSpeedY: int := 1
  /** Period, in ticks, of the run cycle (while grounded). */
  const RunPeriod: nat := 10
  /** Period, in ticks, of the jump cycle (while airborne). */
  const JumpPeriod: nat := 5
  /** Period, in ticks, of a coin's spin. */
  const CoinPeriod: nat := 5
  /** A coin sheet is cut into 8 columns and 1 row of frames. */
  const CoinFrames: nat := 8

  /** `pygame.sprite.collide_mask(player, sprite)`: does the opaque part of the
      player's frame `playerFrame` at `playerRect` touch the opaque part of
      `sprite`? It depends on image data, so it is a parameter. The player's
      mask is always that of `frames[cur_frame]`, and a coin's mask that of
      its first frame. */
  type MaskOracle = (nat, Rect, Sprite) -> bool

  /** How a tick of `go` ends: normally, by reaching a portal (`win`), or by
      touching a hazard (`game_over`). Both terminal outcomes carry the score
      and the coins the player had when they fired. */
  datatype Outcome = Continue | Won(score: nat, coins: nat) | Lost(score: nat, coins: nat)

  /** No object occurs twice. */
  ghost predicate Distinct<T>(s: seq<T>)
  {
    forall i, j :: 0 <= i < j < |s| ==> s[i] != s[j]
  }

  /** An animated coin (`Coin`). */
  class Coin {
    var rect: Rect
    /** Tick counter driving the spin. */
    var count: nat
    var curFrame: nat
    const frameCount: nat

    ghost predicate Valid()
      reads this
    {
      0 < frameCount && curFrame < frameCount
    }

    /** A coin placed at `rect` (a `CoinRect` of the layout): counter 5,
        first of the 8 frames. */
    constructor (rect: Rect)
      ensures Valid()
      ensures this.rect == rect && count == 5 && curFrame == 0 && frameCount == CoinFrames
    {
      this.rect := rect;
      count := 5;
      curFrame := 0;
      frameCount := CoinFrames;
    }

    /** `Coin.update`: one tick of the spin cycle. */
    method Update()
      requires Valid()
      modifies this`count, this`curFrame
      ensures Valid()
      ensures count == old(count) + 1
      ensures curFrame == CycleStep(old(count), old(curFrame), CoinPeriod, frameCount)
    {
      if count % CoinPeriod == 0 {
        curFrame := (curFrame + 1) % frameCount;
      }
      count := count + 1;
    }
  }

  /** The rectangles of a group of coins, in order. */
  function CoinRects(cs: seq<Coin>): (r: seq<Rect>)
    reads cs
    // spelled out so that callers need not unfold the body
    ensures |r| == |cs| && forall i :: 0 <= i < |cs| ==> r[i] == cs[i].rect
  {
    seq(|cs|, i reads cs requires 0 <= i < |cs| => cs[i].rect)
  }

  /** Does the player's mask touch coin c? */
  function CoinHit(c: Coin, frame: nat, pr: Rect, hit: MaskOracle): bool
    reads c
  {
    hit(frame, pr, Sprite(CoinPickup, c.rect))
  }

  /** The coins, in order, that the player at `pr` with frame `frame` does not touch. */
  function Uncollected(cs: seq<Coin>, frame: nat, pr: Rect, hit: MaskOracle): seq<Coin>
    reads cs
  {
    if cs == [] then []
    else Uncollected(cs[..|cs| - 1], frame, pr, hit) +
         (if CoinHit(cs[|cs| - 1], frame, pr, hit) then [] else [cs[|cs| - 1]])
  }

  /** How many of the coins the player touches. */
  function Collected(cs: seq<Coin>, frame: nat, pr: Rect, hit: MaskOracle): nat
    reads cs
  {
    if cs == [] then 0
    else Collected(cs[..|cs| - 1], frame, pr, hit) + (if CoinHit(cs[|cs| - 1], frame, pr, hit) then 1 else 0)
  }

  /** Pickup splits the coins: the ones kept are exactly the untouched ones, in
      order and without repeats, and every other coin is counted once, so the
      count goes up by exactly the number of coins removed. */
  lemma {:induction false} PickupPartition(cs: seq<Coin>, frame: nat, pr: Rect, hit: MaskOracle)
    requires Distinct(cs)
    ensures |Uncollected(cs, frame, pr, hit)| + Collected(cs, frame, pr, hit) == |cs|
    ensures Distinct(Uncollected(cs, frame, pr, hit))
    ensures forall c :: c in Uncollected(cs, frame, pr, hit) <==> c in cs && !CoinHit(c, frame, pr, hit)
  {
    if cs != [] {
      var init := cs[..|cs| - 1];
      var last := cs[|cs| - 1];
      assert Distinct(init);
      PickupPartition(init, frame, pr, hit);
      assert forall c :: c in cs <==> c in init || c == last;
      assert last !in init;
    }
  }

  /** The sprite groups a level's entities are filed in: `tiles_group`,
      `for_mask` (borders and spikes), `portals` and `coins`. */
  class Scene {
    var tiles: seq<Rect>
    var hazards: seq<Sprite>
    var portals: seq<Rect>
    var coins: seq<Coin>

    ghost predicate Valid()
      reads this, coins
    {
      Distinct(coins) && forall i :: 0 <= i < |coins| ==> coins[i].Valid()
    }

    constructor (tiles: seq<Rect>, hazards: seq<Sprite>, portals: seq<Rect>, coins: seq<Coin>)
      requires Distinct(coins) && forall i :: 0 <= i < |coins| ==> coins[i].Valid()
      ensures Valid()
      ensures this.tiles == tiles && this.hazards == hazards && this.portals == portals && this.coins == coins
    {
      this.tiles := tiles;
      this.hazards := hazards;
      this.portals := portals;
      this.coins := coins;
    }

    /** `coins.update()`: every coin takes one tick of its spin cycle. */
    method UpdateCoins()
      requires Valid()
      modifies coins
      ensures Valid()
      ensures forall i :: 0 <= i < |coins| ==>
        coins[i].count == old(coins[i].count) + 1 &&
        coins[i].curFrame == CycleStep(old(coins[i].count), old(coins[i].curFrame), CoinPeriod, coins[i].frameCount) &&
        coins[i].rect == old(coins[i].rect)
    {
      var i := 0;
      while i < |coins|
        invariant i <= |coins|
        invariant Valid()
        invariant forall k :: 0 <= k < i ==>
          coins[k].count == old(coins[k].count) + 1 &&
          coins[k].curFrame == CycleStep(old(coins[k].count), old(coins[k].curFrame), CoinPeriod, coins[k].frameCount) &&
          coins[k].rect == old(coins[k].rect)
        invariant forall k :: i <= k < |coins| ==>
          coins[k].count == old(coins[k].count) && coins[k].curFrame == old(coins[k].curFrame) &&
          coins[k].rect == old(coins[k].rect)
      {
        coins[i].Update();
        i := i + 1;
      }
    }
  }

  /** Does the player's mask touch any hazard (border or spike)? */
  predicate HazardHit(frame: nat, pr: Rect, hazards: seq<Sprite>, hit: MaskOracle)
  {
    exists i | 0 <= i < |hazards| :: hit(frame, pr, hazards[i])
  }

  /** The part of the player's state a tick of `go` reads and writes besides
      its counters: position, speed, ground flag and the two frame indices. */
  datatype Pose = Pose(rect: Rect, sx: int, sy: int, jumpP: bool, curFrame: nat, curJumpFrame: nat)

  /** The player character (`Player`). `jumpP` is the source's `jump_p`:
      true while the player stands on a tile. */
  class Player {
    var rect: Rect
    var sx: int
    var sy: int
    var jumpP: bool
    /** Ticks taken so far. */
    var count: nat
    /** Frame of the run cycle `frames`. */
    var curFrame: nat
    /** Frame of the jump cycle `frames_jump`. */
    var curJumpFrame: nat
    var coinsCount: nat
    /** The score the level loop last stored, read by `win` and `game_over`. */
    var score: nat
    /** `len(frames)` and `len(frames_jump)`. */
    const frameCount: nat
    const jumpFrameCount: nat

    /** The player's current pose. */
    ghost function CurrentPose(): Pose
      reads this
    {
      Pose(rect, sx, sy, jumpP, curFrame, curJumpFrame)
    }

    ghost predicate Valid()
      reads this
    {
      0 < frameCount && 0 < jumpFrameCount &&
      curFrame < frameCount && curJumpFrame < jumpFrameCount
    }

    /** `Player(pos_x, pos_y)`: placed at (100x + 15, 100y), airborne, moving
        with speed (5, 1), nothing collected. */
    constructor (x: int, y: int, frameCount: nat, jumpFrameCount: nat)
      requires 0 < frameCount && 0 < jumpFrameCount
      ensures Valid()
      ensures rect == PlayerRect(x, y)
      ensures sx == StartSpeedX && sy == StartSpeedY && !jumpP
      ensures count == 0 && curFrame == 0 && curJumpFrame == 0 && coinsCount == 0 && score == 0
      ensures this.frameCount == frameCount && this.jumpFrameCount == jumpFrameCount
    {
      rect := PlayerRect(x, y);
      sx, sy := StartSpeedX, StartSpeedY;
      jumpP := false;
      count, curFrame, curJumpFrame, coinsCount, score := 0, 0, 0, 0, 0;
      this.frameCount := frameCount;
      this.jumpFrameCount := jumpFrameCount;
    }

    /** `Player.jump`: only a grounded player jumps; it leaves the ground with
        speed (8, -29) and restarts the jump cycle. Otherwise nothing changes. */
    method Jump()
      requires Valid()
      modifies this`jumpP, this`sx, this`sy, this`curJumpFrame
      ensures Valid()
      ensures old(jumpP) ==> !jumpP && sy == JumpImpulse && sx == JumpSpeed && curJumpFrame == 0
      ensures !old(jumpP) ==> unchanged(this)
    {
      if jumpP {
        curJumpFrame := 0;
        jumpP := false;
        sy := JumpImpulse;
        sx := JumpSpeed;
      }
    }

    /** `Player.go`: one tick. In order: step the animation, move by (sx, sy),
        win on touching a portal, land on (or leave) the tiles, lose on
        touching a hazard, pick up the coins touched, apply gravity. */
    method Go(scene: Scene, hit: MaskOracle) returns (o: Outcome)
      requires Valid() && scene.Valid()
      modifies this, scene`coins
      ensures Valid() && scene.Valid()
      // animation: exactly one cycle may step, depending on the ground state
      ensures count == old(count) + 1
      ensures old(jumpP) && old(count) % RunPeriod == 0 ==>
        curFrame == NextFrame(old(curFrame), frameCount) && curJumpFrame == 0
      ensures !old(jumpP) ==>
        curFrame == old(curFrame) && curJumpFrame == CycleStep(old(count), old(curJumpFrame), JumpPeriod, jumpFrameCount)
      ensures old(jumpP) && old(count) % RunPeriod != 0 ==>
        curFrame == old(curFrame) && curJumpFrame == old(curJumpFrame)
      // the move happens first, by exactly the old speed
      ensures var moved := old(rect).Move(old(sx), old(sy));
        o.Won? <==> AnyOverlap(moved, scene.portals)
      ensures var moved := old(rect).Move(old(sx), old(sy));
        o.Won? ==>
          o == Won(old(score), old(coinsCount)) && rect == moved &&
          sx == old(sx) && sy == old(sy) && jumpP == old(jumpP) &&
          coinsCount == old(coinsCount) && scene.coins == old(scene.coins)
      // ground resolution
      ensures var moved := old(rect).Move(old(sx), old(sy));
        !o.Won? ==>
          jumpP == AnyOverlap(moved, scene.tiles) &&
          rect == (if jumpP then moved.Move(0, -old(sy)) else moved) &&
          sx == (if jumpP then RunSpeed else old(sx))
      // hazards, after the ground snap
      ensures !o.Won? ==> (o.Lost? <==> HazardHit(curFrame, rect, scene.hazards, hit))
      ensures o.Lost? ==>
        o == Lost(old(score), old(coinsCount)) &&
        sy == (if jumpP then 0 else old(sy)) &&
        coinsCount == old(coinsCount) && scene.coins == old(scene.coins)
      // pickups and gravity
      ensures o.Continue? ==>
        sy == (if jumpP then 0 else old(sy)) + Gravity &&
        scene.coins == Uncollected(old(scene.coins), curFrame, rect, hit) &&
        coinsCount == old(coinsCount) + Collected(old(scene.coins), curFrame, rect, hit) &&
        coinsCount - old(coinsCount) == |old(scene.coins)| - |scene.coins|
      ensures score == old(score)
    {
      StepAnimation();
      rect := rect.Move(sx, sy);
      if AnyOverlap(rect, scene.portals) {
        return Won(score, coinsCount);
      }
      o := Land(scene, hit);
    }

    /** The part of `go` after the move, when no portal is touched: land on
        (or leave) the tiles, lose on touching a hazard, otherwise pick up the
        coins touched and fall by the gravity. */
    method Land(scene: Scene, hit: MaskOracle) returns (o: Outcome)
      requires scene.Valid()
      modifies this`jumpP, this`rect, this`sy, this`sx, this`coinsCount, scene`coins
      ensures scene.Valid() && !o.Won?
      ensures jumpP == AnyOverlap(old(rect), scene.tiles)
      ensures rect == (if jumpP then old(rect).Move(0, -old(sy)) else old(rect))
      ensures sx == (if jumpP then RunSpeed else old(sx))
      ensures o.Lost? <==> HazardHit(curFrame, rect, scene.hazards, hit)
      ensures o.Lost? ==>
        o == Lost(score, old(coinsCount)) &&
        sy == (if jumpP then 0 else old(sy)) &&
        coinsCount == old(coinsCount) && scene.coins == old(scene.coins)
      ensures o.Continue? ==>
        sy == (if jumpP then 0 else old(sy)) + Gravity &&
        scene.coins == Uncollected(old(scene.coins), curFrame, rect, hit) &&
        coinsCount == old(coinsCount) + Collected(old(scene.coins), curFrame, rect, hit) &&
        coinsCount - old(coinsCount) == |old(scene.coins)| - |scene.coins|
    {
      ResolveGround(scene.tiles);
      var lost := TouchesHazard(scene.hazards, hit);
      if lost {
        return Lost(score, coinsCount);
      }
      CollectCoins(scene, hit);
      sy := sy + Gravity;
      return Continue;
    }

    /** The animation part of `go`: a grounded player steps the run cycle every
        10 ticks (restarting the jump cycle), an airborne one steps the jump
        cycle every 5 ticks; then the tick counter goes up. */
    method StepAnimation()
      requires Valid()
      modifies this`count, this`curFrame, this`curJumpFrame
      ensures Valid()
      ensures count == old(count) + 1
      ensures jumpP && old(count) % RunPeriod == 0 ==>
        curFrame == NextFrame(old(curFrame), frameCount) && curJumpFrame == 0
      ensures !jumpP ==>
        curFrame == old(curFrame) && curJumpFrame == CycleStep(old(count), old(curJumpFrame), JumpPeriod, jumpFrameCount)
      ensures jumpP && old(count) % RunPeriod != 0 ==>
        curFrame == old(curFrame) && curJumpFrame == old(curJumpFrame)
    {
      if count % 10 == 0 && jumpP {
        curFrame := (curFrame + 1) % frameCount;
        curJumpFrame := 0;
      } else if !jumpP {
        if count % 5 == 0 {
          curJumpFrame := (curJumpFrame + 1) % jumpFrameCount;
        }
      }
      count := count + 1;
    }

    /** The tile test of `go`: touching a tile snaps the player back up by the
        vertical move just made, stops its fall and sets the run speed;
        touching none makes it airborne. */
    method ResolveGround(tiles: seq<Rect>)
      modifies this`jumpP, this`rect, this`sy, this`sx
      ensures jumpP == AnyOverlap(old(rect), tiles)
      ensures rect == if jumpP then old(rect).Move(0, -old(sy)) else old(rect)
      ensures sy == if jumpP then 0 else old(sy)
      ensures sx == if jumpP then RunSpeed else old(sx)
    {
      if AnyOverlap(rect, tiles) {
        jumpP := true;
        rect := rect.Move(0, -sy);
        sy := 0;
        sx := RunSpeed;
      } else {
        jumpP := false;
      }
    }

    /** The `for sprite in for_mask` loop of `go`: is any border or spike
        touched by the player's mask? */
    method TouchesHazard(hazards: seq<Sprite>, hit: MaskOracle) returns (touched: bool)
      ensures touched <==> HazardHit(curFrame, rect, hazards, hit)
    {
      var i := 0;
      while i < |hazards|
        invariant i <= |hazards|
        invariant forall k :: 0 <= k < i ==> !hit(curFrame, rect, hazards[k])
      {
        if hit(curFrame, rect, hazards[i]) {
          return true;
        }
        i := i + 1;
      }
      return false;
    }

    /** The `for sprite in coins` loop of `go`: every coin the player's mask
        touches adds 1 to `coins_count` and is killed. */
    method CollectCoins(scene: Scene, hit: MaskOracle)
      requires scene.Valid()
      modifies this`coinsCount, scene`coins
      ensures scene.Valid()
      ensures scene.coins == Uncollected(old(scene.coins), curFrame, rect, hit)
      ensures coinsCount == old(coinsCount) + Collected(old(scene.coins), curFrame, rect, hit)
      ensures coinsCount - old(coinsCount) == |old(scene.coins)| - |scene.coins|
    {
      var group := scene.coins;
      var kept: seq<Coin> := [];
      var picked: nat := 0;
      var i := 0;
      while i < |group|
        invariant i <= |group|
        invariant kept == Uncollected(group[..i], curFrame, rect, hit)
        invariant picked == Collected(group[..i], curFrame, rect, hit)
        modifies {}
      {
        assert group[..i + 1][..i] == group[..i];
        if hit(curFrame, rect, Sprite(CoinPickup, group[i].rect)) {
          picked := picked + 1;
        } else {
          kept := kept + [group[i]];
        }
        i := i + 1;
      }
      assert group[..i] == group;
      PickupPartition(group, curFrame, rect, hit);
      assert forall k :: 0 <= k < |kept| ==> kept[k] in group;
      coinsCount := coinsCount + picked;
      scene.coins := kept;
    }
  }
}
