/** The game objects of the weapon subsystem: a `Gun` that updates its own
    fields and its list of live bullets in place, and the `Bullet`s it owns.
    Each method is proved against the functions of modules `Bullets`,
    `Firing` and `Combat`. */
module Objects {
  import opened GunLogic
  import opened Bullets
  import opened Firing
  import opened Combat

  /** `s[i]`, under a name of its own so that the quantifier of `Distinct`
      is instantiated only where a proof mentions `At`. */
  function At<T>(s: seq<T>, i: int): T
    requires 0 <= i < |s|
  {
    s[i]
  }

  /** No element occurs twice. */
  predicate Distinct<T(==)>(s: seq<T>)
  {
    forall i, j :: 0 <= i < j < |s| ==> At(s, i) != At(s, j)
  }

  lemma AppendDistinct<T>(s: seq<T>, x: T)
    requires Distinct(s) && x !in s
    ensures Distinct(s + [x])
  {
    var r := s + [x];
    forall a, b | 0 <= a < b < |r|
      ensures At(r, a) != At(r, b)
    {
      if b < |s| {
        assert At(r, a) == At(s, a) && At(r, b) == At(s, b);
      } else {
        assert At(r, a) == s[a];
      }
    }
  }

  lemma RemoveAtDistinct<T>(s: seq<T>, i: nat)
    requires Distinct(s) && i < |s|
    ensures Distinct(s[..i] + s[i + 1..])
  {
    var r := s[..i] + s[i + 1..];
    forall a, b | 0 <= a < b < |r|
      ensures At(r, a) != At(r, b)
    {
      var a' := if a < i then a else a + 1;
      var b' := if b < i then b else b + 1;
      assert At(r, a) == At(s, a') && At(r, b) == At(s, b');
    }
  }

  /** The list being walked is the part already kept (`i` elements)
      followed by the part not yet visited; visiting element `j` of the
      original either keeps it in place or drops it. */
  lemma SelectAdvance<T>(cur: seq<T>, orig: seq<T>, keep: seq<bool>, j: nat, i: nat)
    requires |orig| == |keep| && j < |orig|
    requires cur == Select(orig[..j], keep[..j]) + orig[j..] && i == |Select(orig[..j], keep[..j])|
    ensures i < |cur| && cur[i] == orig[j]
    ensures var next := if keep[j] then cur else cur[..i] + cur[i + 1..];
            next == Select(orig[..j + 1], keep[..j + 1]) + orig[j + 1..] &&
            (if keep[j] then i + 1 else i) == |Select(orig[..j + 1], keep[..j + 1])|
  {
    var kept := Select(orig[..j], keep[..j]);
    assert orig[j..] == [orig[j]] + orig[j + 1..];
    SelectSnoc(orig, keep, j);
    if keep[j] {
      assert cur == (kept + [orig[j]]) + orig[j + 1..];
    } else {
      assert cur[..i] == kept;
      assert cur[i + 1..] == orig[j + 1..];
    }
  }

  /** The states of a list of bullets. */
  ghost function States(bs: seq<Bullet>): seq<BulletState>
    reads bs
  {
    seq(|bs|, k reads bs requires 0 <= k < |bs| => bs[k].State())
  }

  /** The bullets `bs` are in the states `ss`. */
  ghost predicate StatesAre(bs: seq<Bullet>, ss: seq<BulletState>)
    reads bs
  {
    |bs| == |ss| && forall k :: 0 <= k < |bs| ==> bs[k].State() == ss[k]
  }

  class Bullet {
    var x: real
    var y: real
    var xVel: int
    var yVel: int
    var facingRight: bool
    var distanceTraveled: int
    /** Taken from the gun's tier and owner at construction; nothing
        changes them afterwards. */
    const range: int
    const damage: int
    const player1or2: bool
    const bulletType: int

    function State(): BulletState
      reads this
    {
      BulletState(x, y, xVel, yVel, facingRight, distanceTraveled, range, damage, player1or2, bulletType)
    }

    /** A bullet fired by `gun`: placed at the muzzle, with velocity, range,
        damage and kind looked up for the gun's current tier. */
    constructor (gun: Gun)
      ensures State() == Spawn(gun.catalog, gun.tier, gun.Placement(), gun.player1or2)
      ensures distanceTraveled == 0
    {
      x := if gun.facingRight then gun.x + gun.w else gun.x;
      y := gun.y + gun.h / 2.0;
      facingRight := gun.facingRight;
      xVel := gun.catalog.xVel(gun.tier, gun.facingRight);
      yVel := gun.catalog.yVel(gun.tier, gun.facingRight);
      distanceTraveled := 0;
      range := gun.catalog.range(gun.tier);
      damage := gun.catalog.damagePerHit(gun.tier);
      player1or2 := gun.player1or2;
      bulletType := gun.catalog.bulletType(gun.tier);
    }

    method SetYVel(v: int)
      modifies this
      ensures State() == old(State()).(yVel := v)
    {
      yVel := v;
    }

    /** `move()`: advance by the velocity and add the x-velocity to the
        distance travelled. */
    method Move()
      modifies this
      ensures State() == Moved(old(State()))
      ensures distanceTraveled == old(distanceTraveled) + xVel
    {
      x := x + xVel as real;
      y := y + yVel as real;
      distanceTraveled := distanceTraveled + xVel;
    }
  }

  class Gun {
    const catalog: Catalog
    /** The owner: player 1 (`true`) or player 2. */
    const player1or2: bool
    var tier: nat
    var fireMode: FireMode
    var ammoRemaining: int
    var delayBetweenShots: int
    var timeAtLastShot: int
    var timeAtLastPress: int
    var firing: bool
    var numSuccessiveRoundsFired: nat
    var x: real
    var y: real
    var w: real
    var h: real
    var facingRight: bool
    var bullets: seq<Bullet>

    ghost predicate Valid()
      reads this
    {
      Derived(catalog, State()) && Distinct(bullets)
    }

    function State(): GunState
      reads this
    {
      GunState(tier, fireMode, ammoRemaining, delayBetweenShots, firing,
               numSuccessiveRoundsFired, timeAtLastShot, timeAtLastPress)
    }

    /** The gun's box and facing, which decide where its bullets spawn. */
    function Placement(): GunBox
      reads this
    {
      GunBox(Box(x, y, w, h), facingRight)
    }

    /** A tier-0 gun held by a player with bounding box `player`: 5 units in
        from the edge the player faces and a third of the way down. */
    constructor (c: Catalog, player: Box, playerFacingRight: bool, owner: bool, gunW: real, gunH: real)
      ensures Valid()
      ensures State() == WithGunProperties(c, GunState(0, Semi, 0, 0, false, 0, 0, 0))
      ensures catalog == c && player1or2 == owner && bullets == []
      ensures Placement() == GunBox(Box(if playerFacingRight then player.x + player.w - 5.0 else player.x + 5.0,
                                          player.y + player.h / 3.0, gunW, gunH),
                              playerFacingRight)
    {
      catalog := c;
      player1or2 := owner;
      tier := 0;
      timeAtLastShot := 0;
      timeAtLastPress := 0;
      firing := false;
      numSuccessiveRoundsFired := 0;
      x := if playerFacingRight then player.x + player.w - 5.0 else player.x + 5.0;
      y := player.y + player.h / 3.0;
      w, h := gunW, gunH;
      facingRight := playerFacingRight;
      fireMode := c.fireMode(0);
      ammoRemaining := c.magCapacity(0);
      delayBetweenShots := c.delayBetweenShots(0);
      bullets := [];
    }

    /** `setGunProperties()`: re-read mode, magazine and delay for the tier. */
    method SetGunProperties()
      modifies this
      ensures State() == WithGunProperties(catalog, old(State()))
      ensures bullets == old(bullets) && Placement() == old(Placement())
    {
      fireMode := catalog.fireMode(tier);
      ammoRemaining := catalog.magCapacity(tier);
      delayBetweenShots := catalog.delayBetweenShots(tier);
    }

    method Upgrade()
      requires Valid()
      modifies this
      ensures Valid()
      ensures State() == Upgraded(catalog, old(State()))
      ensures bullets == old(bullets) && Placement() == old(Placement())
      ensures forall b :: b in bullets ==> b.State() == old(b.State())
    {
      if tier < catalog.sniper {
        tier := tier + 1;
        SetGunProperties();
      }
    }

    method Downgrade()
      requires Valid()
      modifies this
      ensures Valid()
      ensures State() == Downgraded(catalog, old(State()))
      ensures bullets == old(bullets) && Placement() == old(Placement())
      ensures forall b :: b in bullets ==> b.State() == old(b.State())
    {
      if tier > 0 {
        tier := tier - 1;
        SetGunProperties();
      }
    }

    method GetType() returns (t: nat)
      requires Valid()
      ensures t == tier && t <= catalog.sniper
    {
      t := tier;
    }

    method GetFireMode() returns (m: FireMode)
      requires Valid()
      ensures m == fireMode && m == catalog.fireMode(tier)
    {
      m := fireMode;
    }

    method GetAmmoRemaining() returns (a: int)
      requires Valid()
      ensures a == ammoRemaining && a == catalog.magCapacity(tier)
    {
      a := ammoRemaining;
    }

    method GetNumSuccessiveRoundsFired() returns (n: nat)
      ensures n == numSuccessiveRoundsFired
    {
      n := numSuccessiveRoundsFired;
    }

    method GetBullets() returns (bs: seq<Bullet>)
      ensures bs == bullets
    {
      bs := bullets;
    }

    method StopFiring(now: int)
      requires Valid()
      modifies this
      ensures Valid()
      ensures State() == Stopped(old(State()), now)
      ensures bullets == old(bullets) && Placement() == old(Placement())
    {
      if firing {
        timeAtLastPress := now;
      }
      if !(fireMode == Burst && numSuccessiveRoundsFired < BURST_LENGTH) {
        firing := false;
        numSuccessiveRoundsFired := 0;
      }
    }

    /** The shared single-shot path of semi, auto and burst. */
    method AttemptSingleShot(now: int)
      requires Valid()
      modifies this
      ensures Valid() && Placement() == old(Placement())
      ensures var out := SingleShot(catalog, old(State()), old(Placement()), player1or2, now);
              State() == out.next &&
              |old(bullets)| <= |bullets| && bullets[..|old(bullets)|] == old(bullets) &&
              StatesAre(bullets[|old(bullets)|..], out.spawned) &&
              forall k :: |old(bullets)| <= k < |bullets| ==> fresh(bullets[k])
    {
      if now - timeAtLastShot > delayBetweenShots {
        var bullet := new Bullet(this);
        AppendDistinct(bullets, bullet);
        bullets := bullets + [bullet];
        numSuccessiveRoundsFired := numSuccessiveRoundsFired + 1;
        timeAtLastShot := now;
      }
    }

    /** The buckshot branch of `fire()`: three pellets from the muzzle with
        y-velocities -1, 0 and +1. */
    method AppendBuckshot()
      requires Valid()
      modifies this
      ensures Valid() && Placement() == old(Placement()) && State() == old(State())
      ensures |old(bullets)| <= |bullets| && bullets[..|old(bullets)|] == old(bullets)
      ensures StatesAre(bullets[|old(bullets)|..], Spread(Spawn(catalog, tier, Placement(), player1or2)))
      ensures forall k :: |old(bullets)| <= k < |bullets| ==> fresh(bullets[k])
    {
      ghost var pellet := Spawn(catalog, tier, Placement(), player1or2);
      var i := -1;
      while i <= 1
        invariant -1 <= i <= 2
        invariant Valid() && Placement() == old(Placement()) && State() == old(State())
        invariant |bullets| == |old(bullets)| + i + 1
        invariant bullets[..|old(bullets)|] == old(bullets)
        invariant StatesAre(bullets[|old(bullets)|..], Spread(pellet)[..i + 1])
        invariant forall k :: |old(bullets)| <= k < |bullets| ==> fresh(bullets[k])
      {
        ghost var before := bullets;
        AppendPellet(i);
        assert bullets[..|old(bullets)|] == before[..|old(bullets)|];
        assert bullets[|old(bullets)|..] == before[|old(bullets)|..] + [bullets[|bullets| - 1]];
        assert Spread(pellet)[..i + 2] == Spread(pellet)[..i + 1] + [pellet.(yVel := i)];
        i := i + 1;
      }
      assert Spread(pellet)[..i + 1] == Spread(pellet);
    }

    /** One pellet of the buckshot: a new bullet with y-velocity `yVel`
        appended to the list. */
    method AppendPellet(yVel: int)
      requires Valid()
      modifies this
      ensures Valid() && Placement() == old(Placement()) && State() == old(State())
      ensures |bullets| == |old(bullets)| + 1 && bullets[..|old(bullets)|] == old(bullets)
      ensures fresh(bullets[|old(bullets)|])
      ensures bullets[|old(bullets)|].State() == Spawn(catalog, tier, Placement(), player1or2).(yVel := yVel)
      ensures forall k :: 0 <= k < |old(bullets)| ==> bullets[k].State() == old(bullets[k].State())
    {
      var bullet := new Bullet(this);
      bullet.SetYVel(yVel);
      AppendDistinct(bullets, bullet);
      bullets := bullets + [bullet];
    }

    /** `fire()` at time `now`; `holdingShoot` is whether the owner still
        holds the shoot key. */
    method Fire(now: int, holdingShoot: bool)
      requires Valid()
      modifies this
      ensures Valid() && Placement() == old(Placement())
      ensures var out := Fired(catalog, old(State()), old(Placement()), player1or2, now, holdingShoot);
              State() == out.next &&
              |old(bullets)| <= |bullets| && bullets[..|old(bullets)|] == old(bullets) &&
              StatesAre(bullets[|old(bullets)|..], out.spawned) &&
              forall k :: |old(bullets)| <= k < |bullets| ==> fresh(bullets[k])
    {
      if firing {
        if fireMode == Semi || fireMode == Buckshot {
          return;
        }
      } else if now - timeAtLastPress >= catalog.burstDelay {
        firing := true;
      }

      match fireMode {
        case Buckshot =>
          AppendBuckshot();
        case Burst =>
          if numSuccessiveRoundsFired >= BURST_LENGTH {
            if !holdingShoot {
              StopFiring(now);
            }
            return;
          } else if numSuccessiveRoundsFired == 0 && now - timeAtLastPress < catalog.burstDelay {
            return;
          }
          AttemptSingleShot(now);
        case Semi =>
          AttemptSingleShot(now);
        case Auto =>
          AttemptSingleShot(now);
      }
    }

    /** A bullet with damage `damage` hits the opponent: if the hit leaves
        them at 0 or below the gun upgrades first; then the damage is taken
        from `health`. */
    method ResolveHit(damage: int, health: int) returns (healthAfter: int)
      requires Valid()
      modifies this
      ensures Valid() && Placement() == old(Placement()) && bullets == old(bullets)
      ensures healthAfter == health - damage
      ensures State() == if health - damage <= 0 then Upgraded(catalog, old(State())) else old(State())
    {
      if health - damage <= 0 {
        Upgrade();
      }
      healthAfter := health - damage;
    }

    /** One turn of the loop in `moveBullets()`: bullet `i`, in state `s`, is
        removed (after a hit on the opponent is resolved) or moved. */
    method VisitBullet(i: nat, arena: Arena, opponent: Box, health: int, ghost s: BulletState)
      returns (removed: bool, healthAfter: int)
      requires Valid() && i < |bullets| && bullets[i].State() == s
      modifies this, bullets[i]
      ensures Valid() && Placement() == old(Placement())
      ensures removed == Removed(arena, opponent, s) &&
              bullets == (if removed then old(bullets[..i] + bullets[i + 1..]) else old(bullets)) &&
              old(bullets[i]).State() == (if removed then s else Moved(s)) &&
              healthAfter == (if HitsOpponent(arena, opponent, s) then health - s.damage else health) &&
              State() == if HitsOpponent(arena, opponent, s) && health - s.damage <= 0
                         then Upgraded(catalog, old(State())) else old(State())
    {
      var bullet := bullets[i];
      healthAfter := health;
      removed := Abs(bullet.distanceTraveled) > bullet.range || arena.isOutOfBounds(bullet.State())
                 || arena.collidedWithBlock(bullet.State()) || arena.collided(opponent, bullet.State());
      if removed {
        if arena.collided(opponent, bullet.State()) {
          healthAfter := ResolveHit(bullet.damage, health);
        }
        RemoveAtDistinct(bullets, i);
        bullets := bullets[..i] + bullets[i + 1..];
      } else {
        bullet.Move();
      }
    }

    /** `moveBullets()`: one pass over the live bullets in order. A bullet
        that is out of range, out of bounds, in a block or on the opponent is
        removed, and a hit on the opponent first upgrades the gun when it
        is a kill and then deals its damage; every other bullet moves once.
        `health` is the opponent's health before the pass and `healthAfter`
        after it. */
    method MoveBullets(arena: Arena, opponent: Box, health: int) returns (healthAfter: int)
      requires Valid()
      modifies this, bullets
      ensures Valid() && Placement() == old(Placement())
      ensures var S0 := old(States(bullets));
              var hits := Hits(arena, opponent, S0);
              bullets == Select(old(bullets), KeepMask(arena, opponent, S0)) &&
              healthAfter == health - Sum(hits) &&
              State() == AfterHits(catalog, old(State()), health, hits)
      ensures var S0 := old(States(bullets));
              var keep := KeepMask(arena, opponent, S0);
              forall k :: 0 <= k < |old(bullets)| ==>
                old(bullets)[k].State() == if keep[k] then Moved(S0[k]) else S0[k]
    {
      healthAfter := Pass(arena, opponent, health, bullets, States(bullets), State());
    }

    /** The loop of `moveBullets()` over the bullets `b0`, whose states are
        `s0`, with the gun in state `g0`. */
    method Pass(arena: Arena, opponent: Box, health: int,
                ghost b0: seq<Bullet>, ghost s0: seq<BulletState>, ghost g0: GunState)
      returns (healthAfter: int)
      requires Valid() && bullets == b0 && StatesAre(b0, s0) && State() == g0
      modifies this, b0
      ensures Valid() && Placement() == old(Placement())
      ensures var hits := Hits(arena, opponent, s0);
              bullets == Select(b0, KeepMask(arena, opponent, s0)) &&
              healthAfter == health - Sum(hits) &&
              State() == AfterHits(catalog, g0, health, hits)
      ensures var keep := KeepMask(arena, opponent, s0);
              forall k :: 0 <= k < |b0| ==> b0[k].State() == if keep[k] then Moved(s0[k]) else s0[k]
    {
      healthAfter := health;
      var i := 0;
      ghost var j := 0;
      PassStarts(arena, opponent, health, b0, s0, g0);
      while i < |bullets|
        invariant j <= |b0| && Distinct(b0)
        invariant PassedUpTo(arena, opponent, health, b0, s0, g0, j, i, healthAfter)
        invariant Placement() == old(Placement())
        decreases |bullets| - i
      {
        var removed;
        removed, healthAfter := VisitInPass(arena, opponent, health, b0, s0, g0, j, i, healthAfter);
        if !removed {
          i := i + 1;
        }
        j := j + 1;
      }
      PassEnds(arena, opponent, health, b0, s0, g0, j, i, healthAfter);
    }

    /** Before the first visit nothing has been passed. */
    lemma PassStarts(arena: Arena, opponent: Box, health: int,
                     b0: seq<Bullet>, s0: seq<BulletState>, g0: GunState)
      requires Valid() && bullets == b0 && StatesAre(b0, s0) && State() == g0
      ensures PassedUpTo(arena, opponent, health, b0, s0, g0, 0, 0, health)
    {
      assert b0[0..] == b0;
    }

    /** Once no bullet is left to visit, every bullet has been visited. */
    lemma PassEnds(arena: Arena, opponent: Box, health: int,
                   b0: seq<Bullet>, s0: seq<BulletState>, g0: GunState,
                   j: nat, i: nat, healthAfter: int)
      requires PassedUpTo(arena, opponent, health, b0, s0, g0, j, i, healthAfter) && i >= |bullets|
      ensures var hits := Hits(arena, opponent, s0);
              bullets == Select(b0, KeepMask(arena, opponent, s0)) &&
              healthAfter == health - Sum(hits) &&
              State() == AfterHits(catalog, g0, health, hits)
      ensures var keep := KeepMask(arena, opponent, s0);
              forall k :: 0 <= k < |b0| ==> b0[k].State() == if keep[k] then Moved(s0[k]) else s0[k]
    {
      var keep := KeepMask(arena, opponent, s0);
      assert |b0[j..]| == 0;
      assert b0[..j] == b0 && keep[..j] == keep && s0[..j] == s0;
    }

    /** The state of the gun after the loop of `moveBullets()` has visited
        the first `j` of the bullets `b0` (whose states were `s0`, with the
        gun in state `g0`): `i` survivors are kept in front of the bullets
        still to visit, the survivors have moved, the hits so far are
        resolved. */
    ghost predicate PassedUpTo(arena: Arena, opponent: Box, health: int,
                               b0: seq<Bullet>, s0: seq<BulletState>, g0: GunState,
                               j: nat, i: nat, healthAfter: int)
      reads this, b0
    {
      var keep := KeepMask(arena, opponent, s0);
      j <= |b0| == |s0| && Valid() &&
      bullets == Select(b0[..j], keep[..j]) + b0[j..] &&
      i == |Select(b0[..j], keep[..j])| &&
      (forall k :: 0 <= k < |b0| ==> b0[k].State() == if k < j && keep[k] then Moved(s0[k]) else s0[k]) &&
      healthAfter == health - Sum(Hits(arena, opponent, s0[..j])) &&
      State() == AfterHits(catalog, g0, health, Hits(arena, opponent, s0[..j]))
    }

    /** One turn of the loop of `moveBullets()`, as a step of `PassedUpTo`. */
    method VisitInPass(arena: Arena, opponent: Box, health: int,
                       ghost b0: seq<Bullet>, ghost s0: seq<BulletState>, ghost g0: GunState,
                       ghost j: nat, i: nat, hp: int)
      returns (removed: bool, healthAfter: int)
      requires j < |b0| && Distinct(b0)
      requires PassedUpTo(arena, opponent, health, b0, s0, g0, j, i, hp)
      modifies this, b0[j]
      ensures Placement() == old(Placement())
      ensures PassedUpTo(arena, opponent, health, b0, s0, g0, j + 1, if removed then i else i + 1, healthAfter)
    {
      ghost var keep := KeepMask(arena, opponent, s0);
      ghost var s := s0[j];
      SelectAdvance(bullets, b0, keep, j, i);
      PassStep(catalog, g0, health, arena, opponent, s0, j, hp, State());
      assert bullets[i].State() == s;
      ghost var before := bullets;
      removed, healthAfter := VisitBullet(i, arena, opponent, hp, s);
      assert bullets == if removed then before[..i] + before[i + 1..] else before;
      assert removed == !keep[j];
      forall k | 0 <= k < |b0|
        ensures b0[k].State() == if k < j + 1 && keep[k] then Moved(s0[k]) else s0[k]
      {
        if k < j {
          assert At(b0, k) != At(b0, j);
        } else if k > j {
          assert At(b0, j) != At(b0, k);
        }
      }
    }

    /** `update()`: one pass over the bullets, then `fire()` if the gun is
        firing. */
    method Update(now: int, holdingShoot: bool, arena: Arena, opponent: Box, health: int)
      returns (healthAfter: int)
      requires Valid()
      modifies this, bullets
      ensures Valid() && Placement() == old(Placement())
      ensures var S0 := old(States(bullets));
              var hits := Hits(arena, opponent, S0);
              var survivors := Select(old(bullets), KeepMask(arena, opponent, S0));
              var afterPass := AfterHits(catalog, old(State()), health, hits);
              var out := if old(firing) then Fired(catalog, afterPass, old(Placement()), player1or2, now, holdingShoot)
                         else FireOutcome(afterPass, []);
              healthAfter == health - Sum(hits) &&
              State() == out.next &&
              |survivors| <= |bullets| && bullets[..|survivors|] == survivors &&
              StatesAre(bullets[|survivors|..], out.spawned) &&
              (forall k :: |survivors| <= k < |bullets| ==> fresh(bullets[k]))
      ensures var S0 := old(States(bullets));
              var keep := KeepMask(arena, opponent, S0);
              forall k :: 0 <= k < |old(bullets)| ==>
                old(bullets)[k].State() == if keep[k] then Moved(S0[k]) else S0[k]
    {
      ghost var G0 := State();
      ghost var S0 := States(bullets);
      healthAfter := MoveBullets(arena, opponent, health);
      AfterHitsTier(catalog, G0, health, Hits(arena, opponent, S0));
      if firing {
        Fire(now, holdingShoot);
      }
    }
  }
}
