/** The scrolling camera (main.py `Camera`): every tick it computes a
    horizontal offset that centres the player and adds it, in place, to the
    x of every sprite. */
module Viewport {
  import opened Wrappers
  import opened Geometry
  import opened Gameplay

  /** `WIDTH`, the window width. */
  const Width: int := 800

  /** `Camera.update`'s offset: applying it to the target puts the target's
      horizontal centre (x + w // 2) in the middle of the window. */
  function Offset(target: Rect): (dx: int)
    ensures target.x + dx + target.w / 2 == Width / 2
  {
    -(target.x + target.w / 2 - Width / 2)
  }

  /** `Camera.apply` on one rectangle: only x changes, by exactly dx. */
  function Shift(r: Rect, dx: int): (s: Rect)
    // spelled out so that callers need not unfold the body
    ensures s.x - r.x == dx && s.y == r.y && s.w == r.w && s.h == r.h
  {
    r.(x := r.x + dx)
  }

  /** `Camera.apply` on every rectangle of a group. */
  function ShiftAll(rs: seq<Rect>, dx: int): (r: seq<Rect>)
    // spelled out so that callers need not unfold the body
    ensures |r| == |rs| && forall i :: 0 <= i < |rs| ==> r[i] == Shift(rs[i], dx)
  {
    seq(|rs|, i requires 0 <= i < |rs| => Shift(rs[i], dx))
  }

  /** `Camera.apply` on every sprite of a group. */
  function ShiftSprites(ss: seq<Layout.Sprite>, dx: int): (r: seq<Layout.Sprite>)
    // spelled out so that callers need not unfold the body
    ensures |r| == |ss|
    ensures forall i :: 0 <= i < |ss| ==> r[i].kind == ss[i].kind && r[i].rect == Shift(ss[i].rect, dx)
  {
    seq(|ss|, i requires 0 <= i < |ss| => ss[i].(rect := Shift(ss[i].rect, dx)))
  }

  /** The camera's in-place shifts accumulate: applying it on two ticks moves a
      sprite by the sum of the two offsets, a zero offset changes nothing, and
      a shift is a horizontal `Rect.move`. */
  lemma ShiftCompose(r: Rect, a: int, b: int)
    ensures Shift(Shift(r, a), b) == Shift(r, a + b)
    ensures Shift(r, 0) == r
    ensures Shift(r, a) == r.Move(a, 0)
  {
  }

  /** Applying the camera to the player and to a whole group never changes
      whether the player's box touches the group: scrolling is invisible to
      the box tests of `go` (tiles and portals). The mask tests (hazards and
      coins) go through the `MaskOracle` parameter, which is not assumed to
      depend only on the offset between the two rectangles. */
  lemma AnyOverlapShift(r: Rect, group: seq<Rect>, dx: int)
    ensures AnyOverlap(Shift(r, dx), ShiftAll(group, dx)) <==> AnyOverlap(r, group)
  {
    var shifted := ShiftAll(group, dx);
    if AnyOverlap(r, group) {
      var i :| 0 <= i < |group| && Overlaps(r, group[i]);
      assert Overlaps(Shift(r, dx), shifted[i]);
    }
    if AnyOverlap(Shift(r, dx), shifted) {
      var i :| 0 <= i < |shifted| && Overlaps(Shift(r, dx), shifted[i]);
      assert Overlaps(r, group[i]);
    }
  }

  class Camera {
    var dx: int
    /** The level size handed over by `generate_level`; the camera keeps it but never uses it. */
    const fieldSize: (Option<nat>, Option<nat>)

    constructor (fieldSize: (Option<nat>, Option<nat>))
      ensures dx == 0 && this.fieldSize == fieldSize
    {
      dx := 0;
      this.fieldSize := fieldSize;
    }

    /** `Camera.update(target)`. */
    method Update(target: Player)
      modifies this`dx
      ensures dx == Offset(target.rect)
      ensures Shift(target.rect, dx).x + target.rect.w / 2 == Width / 2
    {
      dx := -(target.rect.x + target.rect.w / 2 - Width / 2);
    }

    /** `Camera.apply(player)`: moves the player's rect right by dx and changes
        nothing else. */
    method ApplyToPlayer(p: Player)
      modifies p`rect
      ensures p.rect == Shift(old(p.rect), dx)
    {
      p.rect := p.rect.(x := p.rect.x + dx);
    }

    /** `Camera.apply(coin)`: moves the coin's rect right by dx and changes
        nothing else. */
    method ApplyToCoin(c: Coin)
      modifies c`rect
      ensures c.rect == Shift(old(c.rect), dx)
    {
      c.rect := c.rect.(x := c.rect.x + dx);
    }

    /** `Camera.apply` on every coin of the `coins` group. */
    method ApplyToCoins(coins: seq<Coin>)
      requires Distinct(coins)
      modifies coins
      ensures forall i :: 0 <= i < |coins| ==>
        coins[i].rect == Shift(old(coins[i].rect), dx) &&
        coins[i].count == old(coins[i].count) && coins[i].curFrame == old(coins[i].curFrame)
    {
      var i := 0;
      while i < |coins|
        invariant i <= |coins|
        invariant forall k :: 0 <= k < i ==> coins[k].rect == Shift(old(coins[k].rect), dx)
        invariant forall k :: i <= k < |coins| ==> coins[k].rect == old(coins[k].rect)
        invariant forall k :: 0 <= k < |coins| ==>
          coins[k].count == old(coins[k].count) && coins[k].curFrame == old(coins[k].curFrame)
      {
        ApplyToCoin(coins[i]);
        i := i + 1;
      }
    }
  }
}
