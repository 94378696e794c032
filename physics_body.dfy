/**
 * The Physics component of src/physics.hpp: a body's fields and their
 * defaults, its edges, and the pairwise overlap test. Velocities are float
 * in the source and real here; positions are int.
 */
module PhysicsBody {
  import opened Component
  import opened Masks

  datatype Vec = Vec(x: real, y: real)

  datatype Body = Body(
    entity: Entity,
    xPrevious: int, yPrevious: int, x: int, y: int,
    v: Vec, vPrevious: Vec, vRem: Vec, gravity: real,
    collidable: bool, solid: bool, movable: bool, oneway: bool, doUpdate: bool,
    mask: Mask)
  {
    function Bottom(): int { mask.Bottom(y) }
    function Top(): int { mask.Top(y) }
    function Left(): int { mask.Left(x) }
    function Right(): int { mask.Right(x) }
  }

  /** A Physics component as declared: collidable, movable and updated, not solid or one-way, at rest at the origin. */
  function DefaultBody(entity: Entity): (b: Body)
    ensures b.entity == entity
    ensures b.collidable && !b.solid && b.movable && !b.oneway && b.doUpdate
    ensures b.x == 0 && b.y == 0 && b.xPrevious == 0 && b.yPrevious == 0
    ensures b.v == Vec(0.0, 0.0) && b.vPrevious == Vec(0.0, 0.0) && b.vRem == Vec(0.0, 0.0) && b.gravity == 0.0
    ensures b.mask == Mask(0, 0, 0, 0)
  {
    Body(entity, 0, 0, 0, 0, Vec(0.0, 0.0), Vec(0.0, 0.0), Vec(0.0, 0.0), 0.0,
         true, false, true, false, true, Mask(0, 0, 0, 0))
  }

  /**
   * is_colliding: this body's mask, shifted by the probe offset, overlaps the
   * other body's mask at its own position; a mask with zero width or height
   * on this side never collides.
   */
  predicate IsColliding(me: Body, other: Body, offsetX: int, offsetY: int)
  {
    me.mask.width != 0 && me.mask.height != 0 &&
    Overlap(me.mask.RectAt(me.x + offsetX, me.y + offsetY), other.mask.RectAt(other.x, other.y))
  }

  /** The zero-size rule, whatever the other body and the offset. */
  lemma EmptyMaskNeverCollides(me: Body, other: Body, offsetX: int, offsetY: int)
    requires me.mask.width == 0 || me.mask.height == 0
    ensures !IsColliding(me, other, offsetX, offsetY)
  {
  }

  /** The probe offset moves only this body: probing at an offset is testing the body moved by it. */
  lemma OffsetMovesOnlySelf(me: Body, other: Body, offsetX: int, offsetY: int)
    ensures IsColliding(me, other, offsetX, offsetY) <==> IsColliding(me.(x := me.x + offsetX, y := me.y + offsetY), other, 0, 0)
  {
  }

  /** The edges are the mask's edges at the current position, and span the mask's size. */
  lemma EdgesSpanMask(b: Body)
    ensures b.Right() - b.Left() == b.mask.width && b.Bottom() - b.Top() == b.mask.height
    ensures b.Left() == b.x - b.mask.originX && b.Top() == b.y - b.mask.originY
  {
  }

  /** The fields update, update_previous, check_collisions and move_xy never change. */
  predicate SameExceptMotion(a: Body, b: Body)
  {
    && a.entity == b.entity && a.xPrevious == b.xPrevious && a.yPrevious == b.yPrevious
    && a.vPrevious == b.vPrevious && a.gravity == b.gravity
    && a.collidable == b.collidable && a.solid == b.solid && a.movable == b.movable
    && a.oneway == b.oneway && a.doUpdate == b.doUpdate && a.mask == b.mask
  }

  /** Two worlds of bodies that differ only in positions and velocities. */
  predicate MotionOnly(a: seq<Body>, b: seq<Body>)
  {
    |a| == |b| && forall j :: 0 <= j < |a| ==> SameExceptMotion(a[j], b[j])
  }

  /** Motion-only changes compose. */
  lemma MotionOnlyTransitive(a: seq<Body>, b: seq<Body>, c: seq<Body>)
    requires MotionOnly(a, b) && MotionOnly(b, c)
    ensures MotionOnly(a, c)
  {
  }
}
