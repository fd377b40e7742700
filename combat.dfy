/** What one pass of `moveBullets()` does, as functions of the bullets'
    states at the start of the pass: which bullets stay, which hit the
    opponent and for how much, and how the kills upgrade the gun. The
    `Gun.MoveBullets` method in module `Objects` is proved to follow them. */
module Combat {
  import opened GunLogic
  import opened Bullets
  import opened Firing

  /** The collision oracle: whether a bullet has left the playable area,
      whether it overlaps a block, and whether it overlaps a given box. */
  datatype Arena = Arena(
    isOutOfBounds: BulletState -> bool,
    collidedWithBlock: BulletState -> bool,
    collided: (Box, BulletState) -> bool)

  /** The bullet has travelled farther than its range, in either direction. */
  predicate OutOfRange(s: BulletState)
  {
    Abs(s.distanceTraveled) > s.range
  }

  /** The bullet overlaps the opponent. */
  predicate HitsOpponent(a: Arena, opponent: Box, s: BulletState)
  {
    a.collided(opponent, s)
  }

  /** The removal test of `moveBullets()`. */
  predicate Removed(a: Arena, opponent: Box, s: BulletState)
  {
    OutOfRange(s) || a.isOutOfBounds(s) || a.collidedWithBlock(s) || HitsOpponent(a, opponent, s)
  }

  /** For each bullet, whether it survives the pass. */
  function KeepMask(a: Arena, opponent: Box, ss: seq<BulletState>): seq<bool>
  {
    seq(|ss|, k requires 0 <= k < |ss| => !Removed(a, opponent, ss[k]))
  }

  /** For each bullet, whether it hits the opponent. */
  function HitMask(a: Arena, opponent: Box, ss: seq<BulletState>): seq<bool>
  {
    seq(|ss|, k requires 0 <= k < |ss| => HitsOpponent(a, opponent, ss[k]))
  }

  /** The number of `true` entries. */
  function Count(m: seq<bool>): nat
    decreases |m|
  {
    if m == [] then 0 else Count(m[..|m| - 1]) + (if m[|m| - 1] then 1 else 0)
  }

  /** The elements of `xs` whose entry in `m` is `true`, in their order. */
  function Select<T>(xs: seq<T>, m: seq<bool>): (r: seq<T>)
    requires |xs| == |m|
    ensures |r| == Count(m)
    decreases |xs|
  {
    if xs == [] then []
    else Select(xs[..|xs| - 1], m[..|m| - 1]) + (if m[|m| - 1] then [xs[|xs| - 1]] else [])
  }

  /** The damage each bullet carries. */
  function Damages(ss: seq<BulletState>): seq<int>
  {
    seq(|ss|, k requires 0 <= k < |ss| => ss[k].damage)
  }

  /** The damage dealt to the opponent in visiting order: one entry per
      bullet that overlaps them. */
  function Hits(a: Arena, opponent: Box, ss: seq<BulletState>): seq<int>
    decreases |ss|
  {
    if ss == [] then []
    else
      var last := ss[|ss| - 1];
      Hits(a, opponent, ss[..|ss| - 1]) + (if HitsOpponent(a, opponent, last) then [last.damage] else [])
  }

  function Sum(ds: seq<int>): int
    decreases |ds|
  {
    if ds == [] then 0 else Sum(ds[..|ds| - 1]) + ds[|ds| - 1]
  }

  /** How many of the hits `ds`, dealt in order to an opponent starting at
      `health`, leave them at 0 or below. */
  function Kills(health: int, ds: seq<int>): nat
    decreases |ds|
  {
    if ds == [] then 0
    else Kills(health, ds[..|ds| - 1]) + (if health - Sum(ds) <= 0 then 1 else 0)
  }

  /** The gun after the hits `ds`: each hit that leaves the opponent at 0 or
      below triggers `upgrade()` (before the damage is taken). */
  function AfterHits(c: Catalog, g: GunState, health: int, ds: seq<int>): GunState
    decreases |ds|
  {
    if ds == [] then g
    else
      var before := AfterHits(c, g, health, ds[..|ds| - 1]);
      if health - Sum(ds) <= 0 then Upgraded(c, before) else before
  }

  function Min(a: int, b: int): int
  {
    if a <= b then a else b
  }

  /** Visiting one more element extends the selection by it when it is kept. */
  lemma SelectSnoc<T>(xs: seq<T>, m: seq<bool>, j: nat)
    requires |xs| == |m| && j < |xs|
    ensures Select(xs[..j + 1], m[..j + 1]) == Select(xs[..j], m[..j]) + (if m[j] then [xs[j]] else [])
  {
    assert xs[..j + 1][..j] == xs[..j];
    assert m[..j + 1][..j] == m[..j];
  }

  /** Visiting one more bullet extends the hits by its damage when it hits. */
  lemma HitsSnoc(a: Arena, opponent: Box, ss: seq<BulletState>, j: nat)
    requires j < |ss|
    ensures Hits(a, opponent, ss[..j + 1]) ==
            Hits(a, opponent, ss[..j]) + (if HitsOpponent(a, opponent, ss[j]) then [ss[j].damage] else [])
  {
    assert ss[..j + 1][..j] == ss[..j];
  }

  /** One more hit upgrades the gun when it leaves the opponent at 0 or below. */
  lemma AfterHitsSnoc(c: Catalog, g: GunState, health: int, ds: seq<int>, d: int)
    ensures Sum(ds + [d]) == Sum(ds) + d
    ensures AfterHits(c, g, health, ds + [d]) ==
            if health - Sum(ds) - d <= 0 then Upgraded(c, AfterHits(c, g, health, ds)) else AfterHits(c, g, health, ds)
  {
    assert (ds + [d])[..|ds|] == ds;
  }

  /** One visit of the pass, on hits: the opponent's health and the gun
      after bullet `j` follow from those after the bullets before it. */
  lemma PassStep(c: Catalog, g0: GunState, health: int, a: Arena, opponent: Box,
                 ss: seq<BulletState>, j: nat, hp: int, g: GunState)
    requires j < |ss|
    requires hp == health - Sum(Hits(a, opponent, ss[..j]))
    requires g == AfterHits(c, g0, health, Hits(a, opponent, ss[..j]))
    ensures var s := ss[j];
            var hit := HitsOpponent(a, opponent, s);
            (if hit then hp - s.damage else hp) == health - Sum(Hits(a, opponent, ss[..j + 1])) &&
            (if hit && hp - s.damage <= 0 then Upgraded(c, g) else g) ==
              AfterHits(c, g0, health, Hits(a, opponent, ss[..j + 1]))
  {
    HitsSnoc(a, opponent, ss, j);
    var ds := Hits(a, opponent, ss[..j]);
    if HitsOpponent(a, opponent, ss[j]) {
      AfterHitsSnoc(c, g0, health, ds, ss[j].damage);
    } else {
      assert ds + [] == ds;
    }
  }

  /** A surviving element lands at the position given by the number of
      survivors before it. */
  lemma {:induction false} SelectPlacesKept<T>(xs: seq<T>, m: seq<bool>, k: nat)
    requires |xs| == |m| && k < |xs| && m[k]
    ensures Count(m[..k]) < |Select(xs, m)| && Select(xs, m)[Count(m[..k])] == xs[k]
    decreases |xs|
  {
    var n := |xs| - 1;
    if k == n {
      assert m[..n] == m[..k];
    } else {
      assert m[..n][..k] == m[..k];
      SelectPlacesKept(xs[..n], m[..n], k);
    }
  }

  /** A survivor's position is strictly greater than every earlier
      survivor's: survivors keep their relative order. */
  lemma {:induction false} KeptRanksIncrease(m: seq<bool>, i: nat, k: nat)
    requires i < k <= |m| && m[i]
    ensures Count(m[..i]) < Count(m[..k])
    decreases k
  {
    assert m[..k][..k - 1] == m[..k - 1];
    if k == i + 1 {
      assert m[..k - 1] == m[..i];
    } else {
      KeptRanksIncrease(m, i, k - 1);
    }
  }

  /** Nothing but survivors is selected. */
  lemma {:induction false} SelectOnlyKept<T>(xs: seq<T>, m: seq<bool>, x: T)
    requires |xs| == |m| && x in Select(xs, m)
    ensures exists k :: 0 <= k < |xs| && m[k] && xs[k] == x
    decreases |xs|
  {
    var n := |xs| - 1;
    if x in Select(xs[..n], m[..n]) {
      SelectOnlyKept(xs[..n], m[..n], x);
      var k :| 0 <= k < n && m[..n][k] && xs[..n][k] == x;
      assert m[k] && xs[k] == x;
    } else {
      assert m[n] && xs[n] == x;
    }
  }

  /** The hits are exactly the damages of the bullets overlapping the
      opponent, each once and in order. */
  lemma {:induction false} HitsOncePerHit(a: Arena, opponent: Box, ss: seq<BulletState>)
    ensures Hits(a, opponent, ss) == Damages(Select(ss, HitMask(a, opponent, ss)))
    decreases |ss|
  {
    if ss != [] {
      var n := |ss| - 1;
      var m := HitMask(a, opponent, ss);
      assert m[..n] == HitMask(a, opponent, ss[..n]);
      HitsOncePerHit(a, opponent, ss[..n]);
      var front := Select(ss[..n], m[..n]);
      var back: seq<BulletState> := if m[n] then [ss[n]] else [];
      assert Damages(front + back) == Damages(front) + Damages(back);
    }
  }

  /** A bullet that hits the opponent is removed. */
  lemma HitIsRemoved(a: Arena, opponent: Box, ss: seq<BulletState>, k: nat)
    requires k < |ss| && HitMask(a, opponent, ss)[k]
    ensures !KeepMask(a, opponent, ss)[k]
  {
  }

  /** Each killing hit upgrades the gun once, saturating at the sniper; the
      properties stay derived from the tier and the timing is untouched. */
  lemma {:induction false} AfterHitsTier(c: Catalog, g: GunState, health: int, ds: seq<int>)
    requires Derived(c, g)
    ensures var r := AfterHits(c, g, health, ds);
            Derived(c, r) && SameTiming(r, g) &&
            r.tier == Min(c.sniper, g.tier + Kills(health, ds))
    decreases |ds|
  {
    if ds != [] {
      var before := AfterHits(c, g, health, ds[..|ds| - 1]);
      AfterHitsTier(c, g, health, ds[..|ds| - 1]);
      UpgradeStep(c, before);
    }
  }

  /** A freshly spawned bullet is out of range after `n` moves exactly when
      `n` times its speed exceeds its range. The removal test runs before the
      move, so the bullet is removed on the first visit after such a move. */
  lemma RangeExpiry(c: Catalog, tier: nat, g: GunBox, owner: bool, n: nat)
    ensures OutOfRange(MovedN(Spawn(c, tier, g, owner), n)) <==> n * Abs(c.xVel(tier, g.facingRight)) > c.range(tier)
  {
    SpawnedDistance(c, tier, g, owner, n);
    MovedNAccumulates(Spawn(c, tier, g, owner), n);
  }

  /** With range 100 and unit speed, a fresh bullet is in range after each of
      its first 100 moves and out of range after the 101st: since a bullet
      is first visited with no move made and each visit tests before it
      moves, it survives 101 visits and is removed on its 102nd. */
  lemma UnitSpeedExpiry(c: Catalog, tier: nat, g: GunBox, owner: bool)
    requires c.range(tier) == 100 && c.xVel(tier, g.facingRight) == 1
    ensures forall n: nat :: n <= 100 ==> !OutOfRange(MovedN(Spawn(c, tier, g, owner), n))
    ensures OutOfRange(MovedN(Spawn(c, tier, g, owner), 101))
  {
    forall n: nat | n <= 101
      ensures OutOfRange(MovedN(Spawn(c, tier, g, owner), n)) <==> n > 100
    {
      RangeExpiry(c, tier, g, owner, n);
    }
  }
}
