/**
 * The Physics update of src/physics.cpp over every Physics component in
 * store order. The world of bodies is `bodies`, indexed by store slot:
 * "the other body is this one" is `j == i`, and a std::set of component
 * pointers, iterated in address order, is iterated here in slot order.
 * Collision callbacks are recorded in `collisions`; each entry stands for
 * one Manager broadcast of (entity, other entity) to the collision hooks.
 */
module Physics {
  import opened Component
  import opened Masks
  import opened PhysicsBody

  /** roundf: to the nearest integer, halfway cases away from zero. */
  function RoundHalfAway(r: real): (n: int)
    ensures r >= 0.0 ==> r - 0.5 < n as real <= r + 0.5
    ensures r < 0.0 ==> r - 0.5 <= n as real < r + 0.5
  {
    if r >= 0.0 then (r + 0.5).Floor else -((-r + 0.5).Floor)
  }

  lemma RoundHalfAwayOdd(r: real)
    ensures RoundHalfAway(-r) == -RoundHalfAway(r) || r == 0.0
  {
  }

  /** std::clamp on ints. */
  function Clamp(n: int, lo: int, hi: int): (c: int)
    requires lo <= hi
    ensures lo <= c <= hi
    ensures lo <= n <= hi ==> c == n
    ensures n < lo ==> c == lo
    ensures n > hi ==> c == hi
  {
    if n < lo then lo else if n > hi then hi else n
  }

  /** std::clamp on floats. */
  function ClampReal(r: real, lo: real, hi: real): (c: real)
    requires lo <= hi
    ensures lo <= c <= hi
    ensures lo <= r <= hi ==> c == r
    ensures r < lo ==> c == lo
    ensures r > hi ==> c == hi
  {
    if r < lo then lo else if r > hi then hi else r
  }

  const X_MOVE_LIMIT: int := 16
  const Y_MOVE_LIMIT: int := 24
  const MAX_FALL_SPEED: real := 32.0

  // ---------------------------------------------------------------------
  // Queries

  /** The body filters of the colliding queries, before the overlap test. */
  datatype Filter =
    | AnyBody          // is_colliding_with_any, get_colliding_any
    | SolidBody        // is_colliding_with_solid, get_colliding_solid
    | NonsolidBody     // is_colliding_with_nonsolid
    | NonsolidNotBelow // get_colliding_nonsolid

  /**
   * A one-way body is skipped when this body's bottom, at its current
   * position and not at the probe, is already below the one-way body's top.
   */
  predicate Considers(f: Filter, me: Body, other: Body)
  {
    other.collidable &&
    match f
    case AnyBody => true
    case SolidBody => other.solid && !(other.oneway && me.Bottom() > other.Top())
    case NonsolidBody => !other.solid
    case NonsolidNotBelow => !other.solid && !(other.oneway && me.Bottom() > other.Top())
  }

  predicate Hit(bs: seq<Body>, i: nat, f: Filter, offsetX: int, offsetY: int, j: nat)
    requires i < |bs| && j < |bs|
  {
    j != i && Considers(f, bs[i], bs[j]) && IsColliding(bs[i], bs[j], offsetX, offsetY)
  }

  /** The `found` flag of an is_colliding_with_* query after visiting the first n bodies. */
  function Scan(bs: seq<Body>, i: nat, f: Filter, offsetX: int, offsetY: int, n: nat): bool
    requires i < |bs| && n <= |bs|
  {
    if n == 0 then false
    else Scan(bs, i, f, offsetX, offsetY, n - 1) || Hit(bs, i, f, offsetX, offsetY, n - 1)
  }

  /** The scan finds a body exactly when one of the bodies it visited passes the filter and overlaps. */
  lemma {:induction false} ScanFinds(bs: seq<Body>, i: nat, f: Filter, offsetX: int, offsetY: int, n: nat)
    requires i < |bs| && n <= |bs|
    ensures Scan(bs, i, f, offsetX, offsetY, n) <==> exists j: nat :: j < n && Hit(bs, i, f, offsetX, offsetY, j)
  {
    if n > 0 {
      ScanFinds(bs, i, f, offsetX, offsetY, n - 1);
    }
  }

  function IsCollidingWithAny(bs: seq<Body>, i: nat, offsetX: int, offsetY: int): bool
    requires i < |bs|
  {
    Scan(bs, i, AnyBody, offsetX, offsetY, |bs|)
  }

  function IsCollidingWithSolid(bs: seq<Body>, i: nat, offsetX: int, offsetY: int): bool
    requires i < |bs|
  {
    Scan(bs, i, SolidBody, offsetX, offsetY, |bs|)
  }

  function IsCollidingWithNonsolid(bs: seq<Body>, i: nat, offsetX: int, offsetY: int): bool
    requires i < |bs|
  {
    Scan(bs, i, NonsolidBody, offsetX, offsetY, |bs|)
  }

  /** Each is_colliding_with_* query holds exactly when some other body passes its filter and overlaps. */
  lemma CollidingQueriesFind(bs: seq<Body>, i: nat, offsetX: int, offsetY: int)
    requires i < |bs|
    ensures IsCollidingWithAny(bs, i, offsetX, offsetY) <==> exists j: nat :: j < |bs| && Hit(bs, i, AnyBody, offsetX, offsetY, j)
    ensures IsCollidingWithSolid(bs, i, offsetX, offsetY) <==> exists j: nat :: j < |bs| && Hit(bs, i, SolidBody, offsetX, offsetY, j)
    ensures IsCollidingWithNonsolid(bs, i, offsetX, offsetY) <==> exists j: nat :: j < |bs| && Hit(bs, i, NonsolidBody, offsetX, offsetY, j)
  {
    ScanFinds(bs, i, AnyBody, offsetX, offsetY, |bs|);
    ScanFinds(bs, i, SolidBody, offsetX, offsetY, |bs|);
    ScanFinds(bs, i, NonsolidBody, offsetX, offsetY, |bs|);
  }

  /** The entities of every body a get_colliding_* query collects. */
  function Colliding(bs: seq<Body>, i: nat, f: Filter, offsetX: int, offsetY: int): (es: set<Entity>)
    requires i < |bs|
    ensures forall e :: e in es <==> exists j: nat :: j < |bs| && Hit(bs, i, f, offsetX, offsetY, j) && bs[j].entity == e
  {
    set j: nat | j < |bs| && Hit(bs, i, f, offsetX, offsetY, j) :: bs[j].entity
  }

  function GetCollidingSolid(bs: seq<Body>, i: nat, offsetX: int, offsetY: int): (es: set<Entity>)
    requires i < |bs|
    ensures es == Colliding(bs, i, SolidBody, offsetX, offsetY)
  {
    Colliding(bs, i, SolidBody, offsetX, offsetY)
  }

  function GetCollidingNonsolid(bs: seq<Body>, i: nat, offsetX: int, offsetY: int): (es: set<Entity>)
    requires i < |bs|
    ensures es == Colliding(bs, i, NonsolidNotBelow, offsetX, offsetY)
  {
    Colliding(bs, i, NonsolidNotBelow, offsetX, offsetY)
  }

  function GetCollidingAny(bs: seq<Body>, i: nat, offsetX: int, offsetY: int): (es: set<Entity>)
    requires i < |bs|
    ensures es == Colliding(bs, i, AnyBody, offsetX, offsetY)
  {
    Colliding(bs, i, AnyBody, offsetX, offsetY)
  }

  /** The boolean and the collecting queries agree for solid and for any bodies. */
  lemma SolidAndAnyQueriesAgree(bs: seq<Body>, i: nat, offsetX: int, offsetY: int)
    requires i < |bs|
    ensures IsCollidingWithSolid(bs, i, offsetX, offsetY) <==> GetCollidingSolid(bs, i, offsetX, offsetY) != {}
    ensures IsCollidingWithAny(bs, i, offsetX, offsetY) <==> GetCollidingAny(bs, i, offsetX, offsetY) != {}
  {
    CollidingQueriesFind(bs, i, offsetX, offsetY);
    if IsCollidingWithSolid(bs, i, offsetX, offsetY) {
      var j: nat :| j < |bs| && Hit(bs, i, SolidBody, offsetX, offsetY, j);
      assert bs[j].entity in GetCollidingSolid(bs, i, offsetX, offsetY);
    }
    if IsCollidingWithAny(bs, i, offsetX, offsetY) {
      var j: nat :| j < |bs| && Hit(bs, i, AnyBody, offsetX, offsetY, j);
      assert bs[j].entity in GetCollidingAny(bs, i, offsetX, offsetY);
    }
  }

  /** For non-solid bodies the collecting query implies the boolean one ... */
  lemma NonsolidCollectedImpliesColliding(bs: seq<Body>, i: nat, offsetX: int, offsetY: int)
    requires i < |bs|
    ensures GetCollidingNonsolid(bs, i, offsetX, offsetY) != {} ==> IsCollidingWithNonsolid(bs, i, offsetX, offsetY)
  {
    var es := GetCollidingNonsolid(bs, i, offsetX, offsetY);
    if es != {} {
      var e :| e in es;
      var j: nat :| j < |bs| && Hit(bs, i, NonsolidNotBelow, offsetX, offsetY, j) && bs[j].entity == e;
      assert Hit(bs, i, NonsolidBody, offsetX, offsetY, j);
    }
    CollidingQueriesFind(bs, i, offsetX, offsetY);
  }

  /**
   * ... but not the other way round: is_colliding_with_nonsolid has no
   * one-way test, so a one-way non-solid body this body is already below
   * counts for it and is left out by get_colliding_nonsolid.
   */
  lemma NonsolidQueriesDisagree(me: Body, platform: Body)
    requires platform.collidable && !platform.solid && platform.oneway
    requires IsColliding(me, platform, 0, 0) && me.Bottom() > platform.Top()
    ensures IsCollidingWithNonsolid([me, platform], 0, 0, 0)
    ensures GetCollidingNonsolid([me, platform], 0, 0, 0) == {}
  {
    var bs := [me, platform];
    assert Hit(bs, 0, NonsolidBody, 0, 0, 1);
    CollidingQueriesFind(bs, 0, 0, 0);
  }

  /** Such a pair exists: a 10×10 body halfway down a 10×10 one-way platform. */
  lemma NonsolidQueriesDisagreeExample()
    ensures var me := DefaultBody(1).(y := 5, mask := Mask(0, 0, 10, 10));
            var platform := DefaultBody(2).(oneway := true, mask := Mask(0, 0, 10, 10));
            IsColliding(me, platform, 0, 0) && me.Bottom() > platform.Top()
  {
  }

  /** A one-way solid this body is already below is ignored whatever the probe offset. */
  lemma OnewayBelowIgnoredAtEveryOffset(bs: seq<Body>, i: nat, j: nat)
    requires i < |bs| && j < |bs|
    requires bs[j].oneway && bs[i].Bottom() > bs[j].Top()
    ensures forall offsetX: int, offsetY: int :: !Hit(bs, i, SolidBody, offsetX, offsetY, j)
  {
  }

  /** is_standing: not moving up and resting on a solid one pixel below. */
  function IsStanding(bs: seq<Body>, i: nat): (standing: bool)
    requires i < |bs|
    ensures standing <==> bs[i].v.y + bs[i].vRem.y >= 0.0 && exists j: nat :: j < |bs| && Hit(bs, i, SolidBody, 0, 1, j)
  {
    CollidingQueriesFind(bs, i, 0, 1);
    bs[i].v.y + bs[i].vRem.y >= 0.0 && IsCollidingWithSolid(bs, i, 0, 1)
  }

  /**
   * mask_free: with `mask` in place of the body's own, a non-solid body is
   * free of solids and a solid body is free of non-solids. The swap is
   * undone before returning, so the world is unchanged.
   */
  function MaskFree(bs: seq<Body>, i: nat, mask: Mask, offsetX: int, offsetY: int): (free: bool)
    requires i < |bs|
    ensures var w := bs[i := bs[i].(mask := mask)];
            var f := if bs[i].solid then NonsolidBody else SolidBody;
            free <==> forall j: nat :: j < |bs| ==> !Hit(w, i, f, offsetX, offsetY, j)
  {
    var w := bs[i := bs[i].(mask := mask)];
    CollidingQueriesFind(w, i, offsetX, offsetY);
    (!bs[i].solid && !IsCollidingWithSolid(w, i, offsetX, offsetY)) ||
    (bs[i].solid && !IsCollidingWithNonsolid(w, i, offsetX, offsetY))
  }

  /** With the body's own mask, mask_free is the plain query. */
  lemma MaskFreeOwnMask(bs: seq<Body>, i: nat, offsetX: int, offsetY: int)
    requires i < |bs|
    ensures MaskFree(bs, i, bs[i].mask, offsetX, offsetY) <==>
            if bs[i].solid then !IsCollidingWithNonsolid(bs, i, offsetX, offsetY)
            else !IsCollidingWithSolid(bs, i, offsetX, offsetY)
  {
    assert bs[i := bs[i].(mask := bs[i].mask)] == bs;
  }

  predicate Rides(bs: seq<Body>, i: nat, j: nat)
    requires i < |bs| && j < |bs|
  {
    var me := bs[i];
    var other := bs[j];
    j != i && other.movable && other.collidable && !(me.Top() < other.Bottom())
    && other.v.y >= 0.0 && IsColliding(me, other, 0, -1)
  }

  /** get_riding: the movable bodies resting on this one and not moving up. */
  function GetRiding(bs: seq<Body>, i: nat): (riders: set<nat>)
    requires i < |bs|
    ensures forall j: nat :: j in riders <==> j < |bs| && Rides(bs, i, j)
  {
    set j: nat | j < |bs| && Rides(bs, i, j)
  }

  /** A rider's bottom edge is exactly this body's top edge, and their masks overlap horizontally. */
  lemma RiderSitsOnTop(bs: seq<Body>, i: nat, j: nat)
    requires i < |bs| && j in GetRiding(bs, i)
    ensures bs[j].Bottom() == bs[i].Top()
    ensures bs[i].Left() < bs[j].Right() && bs[j].Left() < bs[i].Right()
    ensures bs[j].v.y >= 0.0 && bs[j].movable && j != i
  {
  }

  predicate Pushes(bs: seq<Body>, i: nat, j: nat)
    requires i < |bs| && j < |bs|
  {
    var me := bs[i];
    var other := bs[j];
    j != i && !other.solid && other.movable && other.collidable
    && !(me.oneway && me.Bottom() > other.Top()) && IsColliding(me, other, 0, 0)
  }

  /** get_pushable: the movable non-solid bodies overlapping this one now. */
  function GetPushable(bs: seq<Body>, i: nat): (pushed: set<nat>)
    requires i < |bs|
    ensures forall j: nat :: j in pushed <==> j < |bs| && Pushes(bs, i, j)
  {
    set j: nat | j < |bs| && Pushes(bs, i, j)
  }

  /**
   * get_pushable tests this body's one-way flag, not the other's: changing
   * another body's one-way flag never changes the pushable set.
   */
  lemma PushableIgnoresOthersOneway(bs: seq<Body>, i: nat, j: nat, oneway: bool)
    requires i < |bs| && j < |bs| && j != i
    ensures GetPushable(bs[j := bs[j].(oneway := oneway)], i) == GetPushable(bs, i)
  {
    var cs := bs[j := bs[j].(oneway := oneway)];
    forall k: nat | k < |bs|
      ensures Pushes(cs, i, k) == Pushes(bs, i, k)
    {
    }
  }

  // ---------------------------------------------------------------------
  // Movement of a body that is not solid

  datatype Axis = Horizontal | Vertical

  function Pos(b: Body, a: Axis): int { if a.Horizontal? then b.x else b.y }
  function Vel(b: Body, a: Axis): real { if a.Horizontal? then b.v.x else b.v.y }
  function Rem(b: Body, a: Axis): real { if a.Horizontal? then b.vRem.x else b.vRem.y }
  function Across(a: Axis): Axis { if a.Horizontal? then Vertical else Horizontal }

  /** The body with its position along one axis replaced. */
  function WithPos(b: Body, a: Axis, p: int): (c: Body)
    ensures Pos(c, a) == p && Pos(c, Across(a)) == Pos(b, Across(a))
    ensures c.v == b.v && c.vRem == b.vRem && SameExceptMotion(b, c)
  {
    if a.Horizontal? then b.(x := p) else b.(y := p)
  }

  /** The body with its remainder along one axis replaced. */
  function WithRem(b: Body, a: Axis, r: real): (c: Body)
    ensures Rem(c, a) == r && Rem(c, Across(a)) == Rem(b, Across(a))
    ensures c.x == b.x && c.y == b.y && c.v == b.v && SameExceptMotion(b, c)
  {
    if a.Horizontal? then b.(vRem := b.vRem.(x := r)) else b.(vRem := b.vRem.(y := r))
  }

  /** A stop along one axis: that axis's velocity and remainder become zero. */
  function Stopped(b: Body, a: Axis): (c: Body)
    ensures Vel(c, a) == 0.0 && Rem(c, a) == 0.0
    ensures Vel(c, Across(a)) == Vel(b, Across(a)) && Rem(c, Across(a)) == Rem(b, Across(a))
    ensures c.x == b.x && c.y == b.y && SameExceptMotion(b, c)
  {
    if a.Horizontal? then b.(v := b.v.(x := 0.0), vRem := b.vRem.(x := 0.0))
    else b.(v := b.v.(y := 0.0), vRem := b.vRem.(y := 0.0))
  }

  /** The probe offset of one step of `sign` along an axis. */
  function OffsetX(a: Axis, sign: int): int { if a.Horizontal? then sign else 0 }
  function OffsetY(a: Axis, sign: int): int { if a.Horizontal? then 0 else sign }

  function Sign(n: int): (s: int)
    ensures s == 1 || s == -1
    ensures n > 0 <==> s == 1
  {
    if n > 0 then 1 else -1
  }

  function Abs(n: int): (m: nat)
    ensures n >= 0 ==> m == n
    ensures n < 0 ==> m == -n
  {
    if n >= 0 then n else -n
  }

  /** The position p moved n pixels toward `sign`. */
  function Shift(p: int, sign: int, n: nat): int
  {
    if sign == 1 then p + n else p - n
  }

  /** Only body i changes, and only in position, velocity and remainder. */
  predicate OnlySelfMoves(bs: seq<Body>, r: seq<Body>, i: nat)
  {
    MotionOnly(bs, r) && forall j :: 0 <= j < |bs| && j != i ==> r[j] == bs[j]
  }

  /**
   * The stepping loop of move_xy along one axis for a body that is not
   * solid: `n` pixel steps of `sign`, each taking one pixel out of the
   * remainder, stopping with that axis's velocity and remainder zeroed when
   * the next pixel holds a solid.
   */
  function Steps(bs: seq<Body>, i: nat, a: Axis, sign: int, n: nat): (r: seq<Body>)
    requires i < |bs|
    ensures OnlySelfMoves(bs, r, i)
    decreases n
  {
    if n == 0 then bs
    else
      var b := WithRem(bs[i], a, Rem(bs[i], a) - sign as real);
      var w := bs[i := b];
      if IsCollidingWithSolid(w, i, OffsetX(a, sign), OffsetY(a, sign)) then w[i := Stopped(b, a)]
      else Steps(w[i := WithPos(b, a, Pos(b, a) + sign)], i, a, sign, n - 1)
  }

  /** The position, mask and flags, which are all the queries read. */
  predicate SameGeometry(a: Body, b: Body)
  {
    a.x == b.x && a.y == b.y && a.mask == b.mask
    && a.collidable == b.collidable && a.solid == b.solid && a.oneway == b.oneway
  }

  lemma SolidQueryReadsGeometry(bs: seq<Body>, cs: seq<Body>, i: nat, offsetX: int, offsetY: int)
    requires |bs| == |cs| && i < |bs|
    requires forall j :: 0 <= j < |bs| ==> SameGeometry(bs[j], cs[j])
    ensures IsCollidingWithSolid(bs, i, offsetX, offsetY) == IsCollidingWithSolid(cs, i, offsetX, offsetY)
  {
    forall j: nat | j < |bs|
      ensures Hit(bs, i, SolidBody, offsetX, offsetY, j) == Hit(cs, i, SolidBody, offsetX, offsetY, j)
    {
      assert SameGeometry(bs[j], cs[j]);
      assert SameGeometry(bs[i], cs[i]);
    }
    CollidingQueriesFind(bs, i, offsetX, offsetY);
    CollidingQueriesFind(cs, i, offsetX, offsetY);
  }

  /** Stepping along an axis leaves the other axis's position, velocity and remainder alone. */
  lemma {:induction false} StepsAcross(bs: seq<Body>, i: nat, a: Axis, sign: int, n: nat)
    requires i < |bs|
    ensures var r := Steps(bs, i, a, sign, n);
            && Pos(r[i], Across(a)) == Pos(bs[i], Across(a))
            && Vel(r[i], Across(a)) == Vel(bs[i], Across(a))
            && Rem(r[i], Across(a)) == Rem(bs[i], Across(a))
    decreases n
  {
    if n > 0 {
      var b := WithRem(bs[i], a, Rem(bs[i], a) - sign as real);
      var w := bs[i := b];
      if !IsCollidingWithSolid(w, i, OffsetX(a, sign), OffsetY(a, sign)) {
        StepsAcross(w[i := WithPos(b, a, Pos(b, a) + sign)], i, a, sign, n - 1);
      }
    }
  }

  /** The travelled distance along the axis lies between 0 and n steps of `sign`. */
  predicate Travelled(p0: int, p1: int, sign: int, n: nat)
  {
    if sign == 1 then p0 <= p1 <= p0 + n else p0 - n <= p1 <= p0
  }

  /**
   * Stepping moves by at most n pixels toward `sign`. A body that takes
   * every step keeps position plus remainder and its velocity; one that
   * stops short has that axis's velocity and remainder zeroed and a solid
   * one pixel further on.
   */
  lemma {:induction false} StepsAlong(bs: seq<Body>, i: nat, a: Axis, sign: int, n: nat)
    requires i < |bs| && (sign == 1 || sign == -1)
    ensures var r := Steps(bs, i, a, sign, n);
            && Travelled(Pos(bs[i], a), Pos(r[i], a), sign, n)
            && (Pos(r[i], a) == Shift(Pos(bs[i], a), sign, n) ==>
                  Pos(r[i], a) as real + Rem(r[i], a) == Pos(bs[i], a) as real + Rem(bs[i], a)
                  && Vel(r[i], a) == Vel(bs[i], a))
            && (Pos(r[i], a) != Shift(Pos(bs[i], a), sign, n) ==>
                  Vel(r[i], a) == 0.0 && Rem(r[i], a) == 0.0
                  && IsCollidingWithSolid(r, i, OffsetX(a, sign), OffsetY(a, sign)))
    decreases n
  {
    if n > 0 {
      var b := WithRem(bs[i], a, Rem(bs[i], a) - sign as real);
      var w := bs[i := b];
      if IsCollidingWithSolid(w, i, OffsetX(a, sign), OffsetY(a, sign)) {
        var r := w[i := Stopped(b, a)];
        assert Steps(bs, i, a, sign, n) == r;
        SolidQueryReadsGeometry(w, r, i, OffsetX(a, sign), OffsetY(a, sign));
      } else {
        var w' := w[i := WithPos(b, a, Pos(b, a) + sign)];
        StepsAlong(w', i, a, sign, n - 1);
        assert Steps(bs, i, a, sign, n) == Steps(w', i, a, sign, n - 1);
      }
    }
  }

  /** The pixels move_xy asks for along each axis, from the remainder after adding the request. */
  function MoveX(b: Body): (m: int)
    ensures -X_MOVE_LIMIT <= m <= X_MOVE_LIMIT
  {
    Clamp(RoundHalfAway(b.vRem.x), -X_MOVE_LIMIT, X_MOVE_LIMIT)
  }

  function MoveY(b: Body): (m: int)
    ensures -Y_MOVE_LIMIT <= m <= Y_MOVE_LIMIT
  {
    Clamp(RoundHalfAway(b.vRem.y), -Y_MOVE_LIMIT, Y_MOVE_LIMIT)
  }

  /** move_xy of a body that is not solid: no riders and no pushing. */
  function MoveFree(bs: seq<Body>, i: nat, vecX: real, vecY: real): (r: seq<Body>)
    requires i < |bs|
    ensures OnlySelfMoves(bs, r, i)
  {
    var b := bs[i].(vRem := Vec(bs[i].vRem.x + vecX, bs[i].vRem.y + vecY));
    var w := bs[i := b];
    var mx := MoveX(b);
    var my := MoveY(b);
    if mx == 0 && my == 0 then w
    else Steps(Steps(w, i, Horizontal, Sign(mx), Abs(mx)), i, Vertical, Sign(my), Abs(my))
  }

  /**
   * A free move shifts this body by at most 16 pixels across and 24 down or
   * up. The request goes into the remainder, and the remainder drops by
   * every pixel moved unless a solid stops that axis, which zeroes its
   * velocity and remainder.
   */
  lemma MoveFreeOutcome(bs: seq<Body>, i: nat, vecX: real, vecY: real)
    requires i < |bs|
    ensures var r := MoveFree(bs, i, vecX, vecY);
            && -X_MOVE_LIMIT <= r[i].x - bs[i].x <= X_MOVE_LIMIT
            && -Y_MOVE_LIMIT <= r[i].y - bs[i].y <= Y_MOVE_LIMIT
            && ((r[i].v.x == 0.0 && r[i].vRem.x == 0.0) ||
                (r[i].v.x == bs[i].v.x && r[i].x as real + r[i].vRem.x == bs[i].x as real + bs[i].vRem.x + vecX))
            && ((r[i].v.y == 0.0 && r[i].vRem.y == 0.0) ||
                (r[i].v.y == bs[i].v.y && r[i].y as real + r[i].vRem.y == bs[i].y as real + bs[i].vRem.y + vecY))
  {
    var b := bs[i].(vRem := Vec(bs[i].vRem.x + vecX, bs[i].vRem.y + vecY));
    var w := bs[i := b];
    var mx := MoveX(b);
    var my := MoveY(b);
    if !(mx == 0 && my == 0) {
      var w1 := Steps(w, i, Horizontal, Sign(mx), Abs(mx));
      StepsAlong(w, i, Horizontal, Sign(mx), Abs(mx));
      StepsAcross(w, i, Horizontal, Sign(mx), Abs(mx));
      StepsAlong(w1, i, Vertical, Sign(my), Abs(my));
      StepsAcross(w1, i, Vertical, Sign(my), Abs(my));
    }
  }

  /** One push of a solid's pixel step: a free move of one pixel, then velocity and remainder restored. */
  function PushOne(bs: seq<Body>, j: nat, a: Axis, sign: int): (r: seq<Body>)
    requires j < |bs|
    ensures OnlySelfMoves(bs, r, j)
    ensures r[j].v == bs[j].v && r[j].vRem == bs[j].vRem
  {
    var m := MoveFree(bs, j, OffsetX(a, sign) as real, OffsetY(a, sign) as real);
    m[j := m[j].(v := bs[j].v, vRem := bs[j].vRem)]
  }

  /** The pushing loop over the first n bodies: each pushable body that is not a rider, in store order. */
  function Pushed(bs: seq<Body>, pushable: set<nat>, riding: set<nat>, a: Axis, sign: int, n: nat): (r: seq<Body>)
    requires n <= |bs|
    ensures MotionOnly(bs, r)
  {
    if n == 0 then bs
    else
      var w := Pushed(bs, pushable, riding, a, sign, n - 1);
      if n - 1 in pushable && n - 1 !in riding then PushOne(w, n - 1, a, sign) else w
  }

  /** The carrying loop over the first n bodies: each rider moves one pixel, in store order. */
  function Carried(bs: seq<Body>, riding: set<nat>, a: Axis, sign: int, n: nat): (r: seq<Body>)
    requires n <= |bs|
    ensures MotionOnly(bs, r)
  {
    if n == 0 then bs
    else
      var w := Carried(bs, riding, a, sign, n - 1);
      if n - 1 in riding then MoveFree(w, n - 1, OffsetX(a, sign) as real, OffsetY(a, sign) as real) else w
  }

  /**
   * The transport of one pixel step of solid body i whose riders are not
   * solid: the bodies it overlaps are pushed, then its riders are carried.
   */
  function TransportSpec(bs: seq<Body>, i: nat, a: Axis, sign: int, riding: set<nat>): (r: seq<Body>)
    requires i < |bs|
    ensures MotionOnly(bs, r)
  {
    var p := Pushed(bs, GetPushable(bs, i), riding, a, sign, |bs|);
    Carried(p, riding, a, sign, |p|)
  }

  lemma {:induction false} PushedFrame(bs: seq<Body>, pushable: set<nat>, riding: set<nat>, a: Axis, sign: int, n: nat)
    requires n <= |bs|
    ensures var r := Pushed(bs, pushable, riding, a, sign, n);
            && (forall j :: 0 <= j < |bs| && !(j < n && j in pushable && j !in riding) ==> r[j] == bs[j])
            && (forall j :: 0 <= j < |bs| ==> r[j].v == bs[j].v && r[j].vRem == bs[j].vRem)
    decreases n
  {
    if n > 0 {
      PushedFrame(bs, pushable, riding, a, sign, n - 1);
      var w := Pushed(bs, pushable, riding, a, sign, n - 1);
      if n - 1 in pushable && n - 1 !in riding {
        var r := PushOne(w, n - 1, a, sign);
        assert OnlySelfMoves(w, r, n - 1) && r[n - 1].v == w[n - 1].v && r[n - 1].vRem == w[n - 1].vRem;
      }
    }
  }

  lemma {:induction false} CarriedFrame(bs: seq<Body>, riding: set<nat>, a: Axis, sign: int, n: nat)
    requires n <= |bs|
    ensures var r := Carried(bs, riding, a, sign, n);
            forall j :: 0 <= j < |bs| && !(j < n && j in riding) ==> r[j] == bs[j]
    decreases n
  {
    if n > 0 {
      CarriedFrame(bs, riding, a, sign, n - 1);
    }
  }

  /**
   * The transport touches only the pushed bodies and the riders. A pushed
   * body that is not a rider keeps its velocity and remainder; a rider's
   * are whatever its own move leaves.
   */
  lemma TransportFrame(bs: seq<Body>, i: nat, a: Axis, sign: int, riding: set<nat>)
    requires i < |bs|
    ensures var r := TransportSpec(bs, i, a, sign, riding);
            && (i !in riding ==> r[i] == bs[i])
            && (forall j :: 0 <= j < |bs| && j !in GetPushable(bs, i) && j !in riding ==> r[j] == bs[j])
            && (forall j :: 0 <= j < |bs| && j in GetPushable(bs, i) && j !in riding ==>
                  r[j].v == bs[j].v && r[j].vRem == bs[j].vRem)
  {
    var p := Pushed(bs, GetPushable(bs, i), riding, a, sign, |bs|);
    PushedFrame(bs, GetPushable(bs, i), riding, a, sign, |bs|);
    CarriedFrame(p, riding, a, sign, |p|);
  }

  /**
   * The blocking part of check_collisions: probe the floored velocity on
   * each axis (the vertical probe after the horizontal move) and, on a
   * solid, move up to it and stop that axis.
   */
  function Blocking(bs: seq<Body>, i: nat): (r: seq<Body>)
    requires i < |bs|
    ensures OnlySelfMoves(bs, r, i)
  {
    var vx := bs[i].v.x.Floor;
    var vy := bs[i].v.y.Floor;
    if vx == 0 && vy == 0 then bs
    else
      var h := IsCollidingWithSolid(bs, i, vx, 0);
      var w1 := if h then MoveFree(bs, i, vx as real, 0.0) else bs;
      var vc := IsCollidingWithSolid(w1, i, 0, vy);
      var w2 := if vc then MoveFree(w1, i, 0.0, vy as real) else w1;
      var w3 := if h then w2[i := Stopped(w2[i], Horizontal)] else w2;
      if vc then w3[i := Stopped(w3[i], Vertical)] else w3
  }

  /**
   * A solid in the way of the floored velocity on an axis zeroes that
   * axis's velocity and remainder; with no solid in the way on either axis
   * nothing changes.
   */
  lemma BlockingStops(bs: seq<Body>, i: nat)
    requires i < |bs|
    ensures var r := Blocking(bs, i);
            var vx := bs[i].v.x.Floor;
            var vy := bs[i].v.y.Floor;
            && ((vx != 0 || vy != 0) && IsCollidingWithSolid(bs, i, vx, 0) ==> r[i].v.x == 0.0 && r[i].vRem.x == 0.0)
            && ((vx != 0 || vy != 0) && !IsCollidingWithSolid(bs, i, vx, 0) && IsCollidingWithSolid(bs, i, 0, vy) ==>
                  r[i].v.y == 0.0 && r[i].vRem.y == 0.0)
            && (!IsCollidingWithSolid(bs, i, vx, 0) && !IsCollidingWithSolid(bs, i, 0, vy) ==> r == bs)
  {
  }

  /** update_previous. */
  function Previous(b: Body): (c: Body)
    ensures c.xPrevious == b.x && c.yPrevious == b.y && c.vPrevious == b.v
    ensures c.x == b.x && c.y == b.y && c.v == b.v && c.vRem == b.vRem && c.mask == b.mask
  {
    b.(xPrevious := b.x, yPrevious := b.y, vPrevious := b.v)
  }

  /** update_physics: gravity, then the fall-speed clamp. */
  function Gravity(b: Body): (c: Body)
    ensures -MAX_FALL_SPEED <= c.v.y <= MAX_FALL_SPEED
    ensures -MAX_FALL_SPEED <= b.v.y + b.gravity <= MAX_FALL_SPEED ==> c.v.y == b.v.y + b.gravity
    ensures SameExceptMotion(b, c) && c.x == b.x && c.y == b.y && c.v.x == b.v.x && c.vRem == b.vRem
  {
    b.(v := b.v.(y := ClampReal(b.v.y + b.gravity, -MAX_FALL_SPEED, MAX_FALL_SPEED)))
  }

  /** Physics::update of a body that is not solid, as a function of the world before it. */
  function UpdateFree(bs: seq<Body>, i: nat): (r: seq<Body>)
    requires i < |bs|
    ensures |r| == |bs|
  {
    var b := bs[i];
    if b.solid && !b.collidable && !b.movable then bs
    else
      var w0 := bs[i := Previous(b)];
      if !b.doUpdate then w0
      else
        var w1 := if !b.movable && !b.collidable then w0 else Blocking(w0, i);
        var w2 := MoveFree(w1, i, w1[i].v.x, w1[i].v.y);
        w2[i := Gravity(w2[i])]
  }

  /**
   * Updating a body that is not solid moves no other body, records where it
   * was, and leaves its vertical speed within the fall-speed clamp.
   */
  lemma UpdateFreeOutcome(bs: seq<Body>, i: nat)
    requires i < |bs| && !bs[i].solid
    ensures var r := UpdateFree(bs, i);
            && (forall j :: 0 <= j < |bs| && j != i ==> r[j] == bs[j])
            && r[i].entity == bs[i].entity && r[i].mask == bs[i].mask
            && (bs[i].doUpdate ==> -MAX_FALL_SPEED <= r[i].v.y <= MAX_FALL_SPEED)
            && r[i].xPrevious == bs[i].x && r[i].yPrevious == bs[i].y && r[i].vPrevious == bs[i].v
  {
  }

  // ---------------------------------------------------------------------
  // Collision callbacks

  /** The filter of the callback loop of check_collisions, probing the rounded velocity plus remainder. */
  predicate Touches(bs: seq<Body>, i: nat, j: nat)
    requires i < |bs| && j < |bs|
  {
    var me := bs[i];
    var other := bs[j];
    j != i && !(other.solid && me.solid) && !(!other.movable && !me.movable) && other.collidable
    && IsColliding(me, other, RoundHalfAway(me.v.x + me.vRem.x), RoundHalfAway(me.v.y + me.vRem.y))
  }

  /** The callbacks after the loop has visited the first n bodies, in slot order. */
  function Events(bs: seq<Body>, i: nat, n: nat): (ev: seq<(Entity, Entity)>)
    requires i < |bs| && n <= |bs|
    ensures |ev| <= n
    ensures forall k :: 0 <= k < |ev| ==> ev[k].0 == bs[i].entity
    ensures forall e :: e in ev <==> exists j: nat :: j < n && Touches(bs, i, j) && e == (bs[i].entity, bs[j].entity)
  {
    if n == 0 then []
    else Events(bs, i, n - 1) + (if Touches(bs, i, n - 1) then [(bs[i].entity, bs[n - 1].entity)] else [])
  }

  /** Every callback check_collisions makes, none when the body is neither movable nor collidable. */
  function CollisionEvents(bs: seq<Body>, i: nat): (ev: seq<(Entity, Entity)>)
    requires i < |bs|
    ensures !bs[i].movable && !bs[i].collidable ==> ev == []
    ensures forall k :: 0 <= k < |ev| ==> ev[k].0 == bs[i].entity
  {
    if !bs[i].movable && !bs[i].collidable then [] else Events(bs, i, |bs|)
  }

  /** Two solid bodies, or two immovable ones, never report a collision with each other. */
  lemma NoEventsBetweenSolidsOrImmovables(bs: seq<Body>, i: nat, j: nat)
    requires i < |bs| && j < |bs|
    requires (bs[i].solid && bs[j].solid) || (!bs[i].movable && !bs[j].movable) || !bs[j].collidable || j == i
    ensures !Touches(bs, i, j)
  {
  }

  // ---------------------------------------------------------------------
  // The world

  class PhysicsWorld {
    var bodies: seq<Body>
    var collisions: seq<(Entity, Entity)>

    constructor (bodies: seq<Body>)
      ensures this.bodies == bodies && collisions == []
    {
      this.bodies := bodies;
      collisions := [];
    }

    /**
     * move_xy. A solid body carries its riders and pushes the pushable
     * bodies it overlaps on every pixel; that transport reaches `fuel`
     * levels deep. For a body that is not solid the result is MoveFree.
     */
    method MoveXY(i: nat, vecX: real, vecY: real, fuel: nat)
      requires i < |bodies|
      modifies this
      ensures MotionOnly(old(bodies), bodies) && collisions == old(collisions)
      ensures !old(bodies[i].solid) ==> bodies == MoveFree(old(bodies), i, vecX, vecY)
      decreases fuel, 1
    {
      var b := bodies[i].(vRem := Vec(bodies[i].vRem.x + vecX, bodies[i].vRem.y + vecY));
      bodies := bodies[i := b];
      var moveX := Clamp(RoundHalfAway(b.vRem.x), -X_MOVE_LIMIT, X_MOVE_LIMIT);
      var moveY := Clamp(RoundHalfAway(b.vRem.y), -Y_MOVE_LIMIT, Y_MOVE_LIMIT);
      if moveX == 0 && moveY == 0 {
        return;
      }
      var riding: set<nat> := {};
      if b.solid {
        riding := GetRiding(bodies, i);
      }
      if moveX != 0 {
        MoveAlong(i, Horizontal, moveX, riding, fuel);
      }
      if moveY != 0 {
        MoveAlong(i, Vertical, moveY, riding, fuel);
      }
    }

    /** One axis of move_xy: `move` pixel steps toward its sign, until a solid stops a non-solid body. */
    method MoveAlong(i: nat, a: Axis, move: int, riding: set<nat>, fuel: nat)
      requires i < |bodies| && move != 0
      modifies this
      ensures MotionOnly(old(bodies), bodies) && collisions == old(collisions)
      ensures !old(bodies[i].solid) ==> bodies == Steps(old(bodies), i, a, Sign(move), Abs(move))
      decreases fuel, 0
    {
      var sign := if move > 0 then 1 else -1;
      var left: nat := Abs(move);
      while left != 0
        invariant MotionOnly(old(bodies), bodies) && collisions == old(collisions)
        invariant !old(bodies[i].solid) ==>
                    Steps(old(bodies), i, a, sign, Abs(move)) == Steps(bodies, i, a, sign, left)
        decreases left
      {
        ghost var w := bodies;
        var stopped := StepOnce(i, a, sign, left);
        if stopped {
          left := 0;
        } else {
          left := left - 1;
          if bodies[i].solid && fuel > 0 {
            ghost var u := bodies;
            Transport(i, a, sign, riding, fuel - 1);
            MotionOnlyTransitive(w, u, bodies);
          }
        }
        MotionOnlyTransitive(old(bodies), w, bodies);
      }
    }

    /** One pixel step: take the pixel out of the remainder, then stop before a solid or move. */
    method StepOnce(i: nat, a: Axis, sign: int, ghost left: nat) returns (stopped: bool)
      requires i < |bodies| && left > 0
      modifies this
      ensures collisions == old(collisions) && OnlySelfMoves(old(bodies), bodies, i)
      ensures stopped ==> !old(bodies[i].solid)
      ensures !old(bodies[i].solid) ==>
                Steps(old(bodies), i, a, sign, left) == if stopped then bodies else Steps(bodies, i, a, sign, left - 1)
      ensures var b := WithRem(old(bodies[i]), a, Rem(old(bodies[i]), a) - sign as real);
              var w := old(bodies)[i := b];
              && (stopped <==> !b.solid && IsCollidingWithSolid(w, i, OffsetX(a, sign), OffsetY(a, sign)))
              && bodies == if stopped then w[i := Stopped(b, a)] else w[i := WithPos(b, a, Pos(b, a) + sign)]
    {
      var b := bodies[i];
      b := WithRem(b, a, Rem(b, a) - sign as real);
      bodies := bodies[i := b];
      stopped := !b.solid && IsCollidingWithSolid(bodies, i, OffsetX(a, sign), OffsetY(a, sign));
      if stopped {
        bodies := bodies[i := Stopped(b, a)];
      } else {
        bodies := bodies[i := WithPos(b, a, Pos(b, a) + sign)];
      }
    }

    /**
     * The pushing and carrying of one pixel step of a solid body: every
     * pushable body that is not a rider moves one pixel with its velocity
     * and remainder restored afterwards, then every rider moves one pixel.
     */
    method Transport(i: nat, a: Axis, sign: int, riding: set<nat>, fuel: nat)
      requires i < |bodies|
      modifies this
      ensures MotionOnly(old(bodies), bodies) && collisions == old(collisions)
      ensures (forall j :: 0 <= j < |old(bodies)| && j in riding ==> !old(bodies)[j].solid) ==>
                bodies == TransportSpec(old(bodies), i, a, sign, riding)
      decreases fuel, 4
    {
      PushAll(GetPushable(bodies, i), a, sign, riding, fuel);
      CarryAll(a, sign, riding, fuel);
    }

    /** The pushing loop of a pixel step: every pushable body that is not a rider, in store order. */
    method PushAll(pushable: set<nat>, a: Axis, sign: int, riding: set<nat>, fuel: nat)
      modifies this
      ensures MotionOnly(old(bodies), bodies) && collisions == old(collisions)
      ensures (forall j :: 0 <= j < |old(bodies)| && j in pushable ==> !old(bodies)[j].solid) ==>
                bodies == Pushed(old(bodies), pushable, riding, a, sign, |old(bodies)|)
      decreases fuel, 3
    {
      ghost var free := forall j :: 0 <= j < |bodies| && j in pushable ==> !bodies[j].solid;
      for j := 0 to |bodies|
        invariant MotionOnly(old(bodies), bodies) && collisions == old(collisions)
        invariant free ==> bodies == Pushed(old(bodies), pushable, riding, a, sign, j)
      {
        if j in pushable && j !in riding {
          ghost var w := bodies;
          Push(j, a, sign, fuel);
          MotionOnlyTransitive(old(bodies), w, bodies);
        }
      }
    }

    /** The carrying loop of a pixel step: every rider, in store order. */
    method CarryAll(a: Axis, sign: int, riding: set<nat>, fuel: nat)
      modifies this
      ensures MotionOnly(old(bodies), bodies) && collisions == old(collisions)
      ensures (forall j :: 0 <= j < |old(bodies)| && j in riding ==> !old(bodies)[j].solid) ==>
                bodies == Carried(old(bodies), riding, a, sign, |old(bodies)|)
      decreases fuel, 3
    {
      ghost var free := forall j :: 0 <= j < |bodies| && j in riding ==> !bodies[j].solid;
      for j := 0 to |bodies|
        invariant MotionOnly(old(bodies), bodies) && collisions == old(collisions)
        invariant free ==> bodies == Carried(old(bodies), riding, a, sign, j)
      {
        if j in riding {
          ghost var w := bodies;
          MoveXY(j, OffsetX(a, sign) as real, OffsetY(a, sign) as real, fuel);
          MotionOnlyTransitive(old(bodies), w, bodies);
        }
      }
    }

    /** One pushed body: moved one pixel by move_xy, then its velocity and remainder put back. */
    method Push(j: nat, a: Axis, sign: int, fuel: nat)
      requires j < |bodies|
      modifies this
      ensures MotionOnly(old(bodies), bodies) && collisions == old(collisions)
      ensures !old(bodies[j].solid) ==> bodies == PushOne(old(bodies), j, a, sign)
      decreases fuel, 2
    {
      var previousV := bodies[j].v;
      var previousRem := bodies[j].vRem;
      MoveXY(j, OffsetX(a, sign) as real, OffsetY(a, sign) as real, fuel);
      bodies := bodies[j := bodies[j].(v := previousV, vRem := previousRem)];
    }

    /** The callback loop of check_collisions. */
    method Broadcast(i: nat)
      requires i < |bodies|
      modifies this
      ensures bodies == old(bodies)
      ensures collisions == old(collisions) + Events(old(bodies), i, |old(bodies)|)
    {
      var me := bodies[i];
      var probeX := RoundHalfAway(me.v.x + me.vRem.x);
      var probeY := RoundHalfAway(me.v.y + me.vRem.y);
      for j := 0 to |bodies|
        invariant bodies == old(bodies)
        invariant collisions == old(collisions) + Events(old(bodies), i, j)
      {
        var other := bodies[j];
        if j != i && !(other.solid && me.solid) && !(!other.movable && !me.movable) && other.collidable
           && IsColliding(me, other, probeX, probeY)
        {
          collisions := collisions + [(me.entity, other.entity)];
        }
      }
    }

    /** The blocking part of check_collisions. */
    method Block(i: nat, fuel: nat)
      requires i < |bodies|
      modifies this
      ensures MotionOnly(old(bodies), bodies) && collisions == old(collisions)
      ensures !old(bodies[i].solid) ==> bodies == Blocking(old(bodies), i)
    {
      var vx := bodies[i].v.x.Floor;
      var vy := bodies[i].v.y.Floor;
      if vx == 0 && vy == 0 {
        return;
      }
      var hColliding := IsCollidingWithSolid(bodies, i, vx, 0);
      if hColliding {
        MoveXY(i, vx as real, 0.0, fuel);
      }
      var vColliding := IsCollidingWithSolid(bodies, i, 0, vy);
      if vColliding {
        MoveXY(i, 0.0, vy as real, fuel);
      }
      if hColliding {
        bodies := bodies[i := Stopped(bodies[i], Horizontal)];
      }
      if vColliding {
        bodies := bodies[i := Stopped(bodies[i], Vertical)];
      }
    }

    /** check_collisions: nothing for a body neither movable nor collidable, else callbacks then blocking. */
    method CheckCollisions(i: nat, fuel: nat)
      requires i < |bodies|
      modifies this
      ensures MotionOnly(old(bodies), bodies)
      ensures collisions == old(collisions) + CollisionEvents(old(bodies), i)
      ensures !old(bodies[i].movable) && !old(bodies[i].collidable) ==> bodies == old(bodies)
      ensures !old(bodies[i].solid) && (old(bodies[i].movable) || old(bodies[i].collidable)) ==>
                bodies == Blocking(old(bodies), i)
    {
      if !bodies[i].movable && !bodies[i].collidable {
        return;
      }
      Broadcast(i);
      Block(i, fuel);
    }

    method UpdatePrevious(i: nat)
      requires i < |bodies|
      modifies this
      ensures bodies == old(bodies)[i := Previous(old(bodies[i]))] && collisions == old(collisions)
    {
      var b := bodies[i];
      b := b.(xPrevious := b.x, yPrevious := b.y, vPrevious := b.v);
      bodies := bodies[i := b];
    }

    /**
     * Physics::update: nothing for a solid body that is neither collidable
     * nor movable; otherwise record the previous state and, when enabled,
     * check collisions, move by the velocity and apply gravity.
     */
    method Update(i: nat, fuel: nat)
      requires i < |bodies|
      modifies this
      ensures |bodies| == |old(bodies)|
      ensures !old(bodies[i].solid) ==> bodies == UpdateFree(old(bodies), i)
      ensures var b := old(bodies[i]);
              b.solid && !b.collidable && !b.movable ==> bodies == old(bodies) && collisions == old(collisions)
      ensures var b := old(bodies[i]);
              !(b.solid && !b.collidable && !b.movable) ==>
                bodies[i].xPrevious == b.x && bodies[i].yPrevious == b.y && bodies[i].vPrevious == b.v
      ensures var b := old(bodies[i]);
              !(b.solid && !b.collidable && !b.movable) && b.doUpdate ==>
                -MAX_FALL_SPEED <= bodies[i].v.y <= MAX_FALL_SPEED
                && collisions == old(collisions) + CollisionEvents(old(bodies)[i := Previous(b)], i)
      ensures !old(bodies[i].doUpdate) ==> collisions == old(collisions)
    {
      var b := bodies[i];
      if b.solid && !b.collidable && !b.movable {
        return;
      }
      UpdatePrevious(i);
      if b.doUpdate {
        CheckCollisions(i, fuel);
        MoveXY(i, bodies[i].v.x, bodies[i].v.y, fuel);
        var c := bodies[i];
        c := c.(v := c.v.(y := ClampReal(c.v.y + c.gravity, -MAX_FALL_SPEED, MAX_FALL_SPEED)));
        bodies := bodies[i := c];
      }
    }

    /** The Physics update hook over every component in store order. */
    method UpdateAll(fuel: nat)
      modifies this
      ensures |bodies| == |old(bodies)|
      ensures |collisions| >= |old(collisions)| && collisions[..|old(collisions)|] == old(collisions)
    {
      for i := 0 to |bodies|
        invariant |bodies| == |old(bodies)|
        invariant |collisions| >= |old(collisions)| && collisions[..|old(collisions)|] == old(collisions)
      {
        Update(i, fuel);
      }
    }
  }
}
