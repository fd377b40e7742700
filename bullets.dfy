/** The value side of a bullet: what it is made of when a gun spawns it, and
    what one `move()` does to it. The `Bullet` class in module `Objects`
    holds these values in fields and updates them in place. */
module Bullets {
  import opened GunLogic

  /** `Math.abs` on the integers used here. */
  function Abs(x: int): nat
  {
    if x < 0 then -x else x
  }

  /** An axis-aligned bounding box (a map object's x, y, w and h). */
  datatype Box = Box(x: real, y: real, w: real, h: real)

  /** What a gun contributes to the bullets it fires: its box and its facing. */
  datatype GunBox = GunBox(box: Box, facingRight: bool)

  /** Every field of a bullet. Coordinates are reals (the source's floats,
      idealised); velocities and the distance travelled are integers. */
  datatype BulletState = BulletState(
    x: real,
    y: real,
    xVel: int,
    yVel: int,
    facingRight: bool,
    distanceTraveled: int,
    range: int,
    damage: int,
    player1or2: bool,
    bulletType: int)

  /** The bullet a gun of tier `tier`, placed at `g` and owned by `owner`,
      creates: at the muzzle, vertically centred on the gun, with its
      velocity, range, damage and kind looked up for that tier. */
  function Spawn(c: Catalog, tier: nat, g: GunBox, owner: bool): BulletState
  {
    BulletState(
      if g.facingRight then g.box.x + g.box.w else g.box.x, g.box.y + g.box.h / 2.0,
      c.xVel(tier, g.facingRight), c.yVel(tier, g.facingRight), g.facingRight,
      0, c.range(tier), c.damagePerHit(tier), owner, c.bulletType(tier))
  }

  /** `px` lies between the left and right edges of `b`. */
  predicate WithinWidth(b: Box, px: real)
  {
    b.x <= px <= b.x + b.w
  }

  /** A bullet leaves from the muzzle: the edge of the gun's box that the gun
      faces (no point of the box lies farther forward), halfway down the box,
      flying the way the gun faces, and having travelled nothing yet. */
  lemma SpawnAtMuzzle(c: Catalog, tier: nat, g: GunBox, owner: bool)
    requires g.box.w >= 0.0
    ensures var s := Spawn(c, tier, g, owner);
            (s.x == g.box.x || s.x == g.box.x + g.box.w) &&
            (forall px: real :: WithinWidth(g.box, px) ==>
               (g.facingRight ==> px <= s.x) && (!g.facingRight ==> s.x <= px)) &&
            s.y - g.box.y == g.box.y + g.box.h - s.y &&
            s.facingRight == g.facingRight && s.distanceTraveled == 0
  {
  }

  /** One `move()`: the position advances by the velocity and the signed
      x-velocity is added to the distance travelled. */
  function Moved(s: BulletState): BulletState
  {
    s.(x := s.x + s.xVel as real, y := s.y + s.yVel as real,
       distanceTraveled := s.distanceTraveled + s.xVel)
  }

  /** `n` successive moves. */
  function MovedN(s: BulletState, n: nat): BulletState
  {
    if n == 0 then s else Moved(MovedN(s, n - 1))
  }

  /** What a bullet carries from its spawn: everything but position and
      distance travelled. */
  predicate SameSnapshot(s: BulletState, t: BulletState)
  {
    s.xVel == t.xVel && s.yVel == t.yVel && s.facingRight == t.facingRight &&
    s.range == t.range && s.damage == t.damage &&
    s.player1or2 == t.player1or2 && s.bulletType == t.bulletType
  }

  /** After `n` moves at a constant x-velocity the distance travelled has
      grown by exactly `n` times that velocity, and moving never changes
      what the bullet took from its gun. */
  lemma {:induction false} MovedNAccumulates(s: BulletState, n: nat)
    ensures MovedN(s, n).distanceTraveled == s.distanceTraveled + n * s.xVel
    ensures SameSnapshot(MovedN(s, n), s)
  {
    if n > 0 {
      MovedNAccumulates(s, n - 1);
    }
  }

  /** A freshly spawned bullet that has moved `n` times has travelled
      `n * xVel`: a distance whose magnitude is `n * |xVel|`, negative when
      it flies left. */
  lemma SpawnedDistance(c: Catalog, tier: nat, g: GunBox, owner: bool, n: nat)
    ensures var s := MovedN(Spawn(c, tier, g, owner), n);
            var v := c.xVel(tier, g.facingRight);
            s.distanceTraveled == n * v &&
            Abs(s.distanceTraveled) == n * Abs(v) &&
            (v < 0 ==> s.distanceTraveled <= 0)
  {
    var v := c.xVel(tier, g.facingRight);
    MovedNAccumulates(Spawn(c, tier, g, owner), n);
    if v < 0 {
      assert n * v == -(n * (-v));
    }
  }
}
