/** The gun's firing state machine as functions on the gun's scalar state:
    what `fire()`, `stopFiring()`, `upgrade()` and `downgrade()` do to it,
    and which bullets a call of `fire()` appends. The `Gun` class in module
    `Objects` is proved to follow these functions. */
module Firing {
  import opened GunLogic
  import opened Bullets

  /** The gun's fields other than its bullets and its box: the tier (`type`),
      what is derived from it, and the timing state. */
  datatype GunState = GunState(
    tier: nat,
    fireMode: FireMode,
    ammoRemaining: int,
    delayBetweenShots: int,
    firing: bool,
    rounds: nat,
    timeAtLastShot: int,
    timeAtLastPress: int)

  /** One call of `fire()`: the state after it and the bullets it appended,
      in order. */
  datatype FireOutcome = FireOutcome(next: GunState, spawned: seq<BulletState>)

  /** The tier is in range and the mode, magazine and delay are the catalog's
      for that tier. */
  predicate Derived(c: Catalog, g: GunState)
  {
    g.tier <= c.sniper &&
    g.fireMode == c.fireMode(g.tier) &&
    g.ammoRemaining == c.magCapacity(g.tier) &&
    g.delayBetweenShots == c.delayBetweenShots(g.tier)
  }

  /** The timing state, which a tier change leaves alone. */
  predicate SameTiming(g: GunState, h: GunState)
  {
    g.firing == h.firing && g.rounds == h.rounds &&
    g.timeAtLastShot == h.timeAtLastShot && g.timeAtLastPress == h.timeAtLastPress
  }

  /** `setGunProperties()`: mode, magazine and delay re-read for the tier. */
  function WithGunProperties(c: Catalog, g: GunState): GunState
  {
    g.(fireMode := c.fireMode(g.tier),
       ammoRemaining := c.magCapacity(g.tier),
       delayBetweenShots := c.delayBetweenShots(g.tier))
  }

  /** `upgrade()`. */
  function Upgraded(c: Catalog, g: GunState): GunState
  {
    if g.tier < c.sniper then WithGunProperties(c, g.(tier := g.tier + 1)) else g
  }

  /** `downgrade()`. */
  function Downgraded(c: Catalog, g: GunState): GunState
  {
    if g.tier > 0 then WithGunProperties(c, g.(tier := g.tier - 1)) else g
  }

  /** `stopFiring()` at time `now`. */
  function Stopped(g: GunState, now: int): GunState
  {
    var g1 := if g.firing then g.(timeAtLastPress := now) else g;
    if !(g1.fireMode == Burst && g1.rounds < BURST_LENGTH)
    then g1.(firing := false, rounds := 0)
    else g1
  }

  /** The shared single-shot path of semi, auto and burst: one bullet when
      strictly more than the inter-shot delay has passed since the last shot. */
  function SingleShot(c: Catalog, g: GunState, box: GunBox, owner: bool, now: int): FireOutcome
  {
    if now - g.timeAtLastShot > g.delayBetweenShots
    then FireOutcome(g.(rounds := g.rounds + 1, timeAtLastShot := now), [Spawn(c, g.tier, box, owner)])
    else FireOutcome(g, [])
  }

  /** The three buckshot pellets: the same bullet with y-velocities -1, 0, +1. */
  function Spread(s: BulletState): seq<BulletState>
  {
    [s.(yVel := -1), s.(yVel := 0), s.(yVel := 1)]
  }

  /** `fire()` at time `now`, with `holdingShoot` the owner's shoot key. */
  function Fired(c: Catalog, g: GunState, box: GunBox, owner: bool, now: int, holdingShoot: bool): FireOutcome
  {
    if g.firing && (g.fireMode == Semi || g.fireMode == Buckshot) then FireOutcome(g, [])
    else
      var g1 := if !g.firing && now - g.timeAtLastPress >= c.burstDelay then g.(firing := true) else g;
      match g1.fireMode
      case Buckshot => FireOutcome(g1, Spread(Spawn(c, g1.tier, box, owner)))
      case Burst =>
        if g1.rounds >= BURST_LENGTH then
          FireOutcome(if holdingShoot then g1 else Stopped(g1, now), [])
        else if g1.rounds == 0 && now - g1.timeAtLastPress < c.burstDelay then
          FireOutcome(g1, [])
        else
          SingleShot(c, g1, box, owner, now)
      case Semi => SingleShot(c, g1, box, owner, now)
      case Auto => SingleShot(c, g1, box, owner, now)
  }

  /** `fire()` called once per time in `nows`, with the shoot key held
      throughout; the bullets of all calls in order. */
  function FiredWhileHeld(c: Catalog, g: GunState, box: GunBox, owner: bool, nows: seq<int>): FireOutcome
    decreases |nows|
  {
    if nows == [] then FireOutcome(g, [])
    else
      var first := Fired(c, g, box, owner, nows[0], true);
      var rest := FiredWhileHeld(c, first.next, box, owner, nows[1..]);
      FireOutcome(rest.next, first.spawned + rest.spawned)
  }

  // ---------------------------------------------------------------------
  // fire()

  /** `fire()` never changes the tier or what is derived from it. */
  lemma FireKeepsTier(c: Catalog, g: GunState, box: GunBox, owner: bool, now: int, holdingShoot: bool)
    ensures var r := Fired(c, g, box, owner, now, holdingShoot).next;
            r.tier == g.tier && r.fireMode == g.fireMode &&
            r.ammoRemaining == g.ammoRemaining && r.delayBetweenShots == g.delayBetweenShots
    ensures Derived(c, g) ==> Derived(c, Fired(c, g, box, owner, now, holdingShoot).next)
  {
  }

  /** While firing, a semi-automatic or buckshot gun ignores `fire()`. */
  lemma IgnoredWhileFiring(c: Catalog, g: GunState, box: GunBox, owner: bool, now: int, holdingShoot: bool)
    requires g.firing && (g.fireMode == Semi || g.fireMode == Buckshot)
    ensures Fired(c, g, box, owner, now, holdingShoot) == FireOutcome(g, [])
  {
  }

  /** From idle, `fire()` starts firing exactly when the cooldown since the
      last release has elapsed (non-strictly); a completed burst that is
      released is the one case that stops again in the same call. */
  lemma PressStartsFiring(c: Catalog, g: GunState, box: GunBox, owner: bool, now: int, holdingShoot: bool)
    requires !g.firing
    requires !(g.fireMode == Burst && g.rounds >= BURST_LENGTH && !holdingShoot)
    ensures Fired(c, g, box, owner, now, holdingShoot).next.firing <==> now - g.timeAtLastPress >= c.burstDelay
  {
  }

  /** From idle, buckshot appends exactly three pellets with y-velocities
      -1, 0 and +1, otherwise identical to a normal spawn, and leaves the
      shot time and round counter alone even when the cooldown keeps
      `firing` false. */
  lemma BuckshotSpread(c: Catalog, g: GunState, box: GunBox, owner: bool, now: int, holdingShoot: bool)
    requires !g.firing && g.fireMode == Buckshot
    ensures var r := Fired(c, g, box, owner, now, holdingShoot);
            var s := Spawn(c, g.tier, box, owner);
            |r.spawned| == BURST_LENGTH &&
            r.spawned[0].yVel == -1 && r.spawned[1].yVel == 0 && r.spawned[2].yVel == 1 &&
            (forall k :: 0 <= k < |r.spawned| ==> r.spawned[k] == s.(yVel := k - 1)) &&
            r.next == g.(firing := now - g.timeAtLastPress >= c.burstDelay)
  {
  }

  /** The cases in which `fire()` reaches the shared single-shot path. */
  predicate ReachesSingleShot(c: Catalog, g: GunState, now: int)
  {
    g.fireMode == Auto ||
    (g.fireMode == Semi && !g.firing) ||
    (g.fireMode == Burst && g.rounds < BURST_LENGTH &&
     !(g.rounds == 0 && now - g.timeAtLastPress < c.burstDelay))
  }

  /** On the single-shot path exactly one bullet is appended, the counter
      goes up by one and the shot is stamped when strictly more than the
      delay has passed; otherwise neither bullets, counter nor stamps move. */
  lemma SingleShotGate(c: Catalog, g: GunState, box: GunBox, owner: bool, now: int, holdingShoot: bool)
    requires ReachesSingleShot(c, g, now)
    ensures var r := Fired(c, g, box, owner, now, holdingShoot);
            var shoots := now - g.timeAtLastShot > g.delayBetweenShots;
            r.next.timeAtLastPress == g.timeAtLastPress &&
            (shoots ==> r.spawned == [Spawn(c, g.tier, box, owner)] &&
                        r.next.rounds == g.rounds + 1 && r.next.timeAtLastShot == now) &&
            (!shoots ==> r.spawned == [] &&
                         r.next.rounds == g.rounds && r.next.timeAtLastShot == g.timeAtLastShot)
  {
  }

  /** A burst that has fired its three rounds appends nothing. Held, only
      the press check can change the gun (a gun already firing is left
      exactly as it was); released, `stopFiring()` runs: the release is
      stamped `now` (the gun is firing by then whenever the cooldown has
      passed), the gun stops and the counter returns to 0. */
  lemma BurstCompleteNoShot(c: Catalog, g: GunState, box: GunBox, owner: bool, now: int, holdingShoot: bool)
    requires g.fireMode == Burst && g.rounds >= BURST_LENGTH
    ensures var r := Fired(c, g, box, owner, now, holdingShoot);
            var pressed := g.firing || now - g.timeAtLastPress >= c.burstDelay;
            r.spawned == [] &&
            (holdingShoot ==> r.next == g.(firing := pressed)) &&
            (holdingShoot && g.firing ==> r.next == g) &&
            (!holdingShoot ==> r.next == g.(firing := false, rounds := 0,
                                             timeAtLastPress := if pressed then now else g.timeAtLastPress))
  {
  }

  /** The first round of a burst is suppressed entirely within the cooldown
      after a release. */
  lemma BurstCooldown(c: Catalog, g: GunState, box: GunBox, owner: bool, now: int, holdingShoot: bool)
    requires g.fireMode == Burst && g.rounds == 0 && now - g.timeAtLastPress < c.burstDelay
    ensures Fired(c, g, box, owner, now, holdingShoot) == FireOutcome(g, [])
  {
  }

  /** With the key held, a burst gun fires at most three rounds however often
      `fire()` is called: every bullet is counted and the counter stops at 3. */
  lemma {:induction false} BurstAtMostThree(c: Catalog, g: GunState, box: GunBox, owner: bool, nows: seq<int>)
    requires g.fireMode == Burst && g.rounds <= BURST_LENGTH
    ensures var r := FiredWhileHeld(c, g, box, owner, nows);
            r.next.fireMode == Burst &&
            g.rounds <= r.next.rounds <= BURST_LENGTH &&
            |r.spawned| == r.next.rounds - g.rounds
    decreases |nows|
  {
    if nows != [] {
      var first := Fired(c, g, box, owner, nows[0], true);
      assert first.next.fireMode == Burst;
      assert |first.spawned| == first.next.rounds - g.rounds;
      BurstAtMostThree(c, first.next, box, owner, nows[1..]);
    }
  }

  /** A semi-automatic gun with a non-negative delay fires at most once for
      two calls at the same instant. */
  lemma SemiOncePerInstant(c: Catalog, g: GunState, box: GunBox, owner: bool, now: int, holdingShoot: bool)
    requires g.fireMode == Semi && g.delayBetweenShots >= 0
    ensures var r1 := Fired(c, g, box, owner, now, holdingShoot);
            var r2 := Fired(c, r1.next, box, owner, now, holdingShoot);
            |r1.spawned| + |r2.spawned| <= 1
  {
  }

  // ---------------------------------------------------------------------
  // stopFiring()

  /** `stopFiring()` stamps the release only when firing, and clears
      `firing` and the counter unless a burst is still incomplete, in which
      case both are left for the burst to finish. */
  lemma StopFiringRule(g: GunState, now: int)
    ensures var r := Stopped(g, now);
            r.timeAtLastPress == (if g.firing then now else g.timeAtLastPress) &&
            r.timeAtLastShot == g.timeAtLastShot && r.tier == g.tier && r.fireMode == g.fireMode &&
            (g.fireMode == Burst && g.rounds < BURST_LENGTH ==> r.firing == g.firing && r.rounds == g.rounds) &&
            (!(g.fireMode == Burst && g.rounds < BURST_LENGTH) ==> !r.firing && r.rounds == 0)
  {
  }

  /** Once a stop has taken effect, stopping again changes nothing, at any
      later time. */
  lemma StopFiringSettles(g: GunState, now: int, later: int)
    requires !(g.fireMode == Burst && g.rounds < BURST_LENGTH)
    ensures Stopped(Stopped(g, now), later) == Stopped(g, now)
  {
  }

  /** Stopping an idle gun leaves both time stamps alone. */
  lemma StopWhenIdle(g: GunState, now: int)
    requires !g.firing
    ensures var r := Stopped(g, now);
            !r.firing && r.timeAtLastPress == g.timeAtLastPress && r.timeAtLastShot == g.timeAtLastShot
  {
  }

  // ---------------------------------------------------------------------
  // upgrade() and downgrade()

  /** `upgrade()` moves one tier up strictly below the sniper, does nothing at
      the sniper, re-derives the tier's properties and keeps the timing. */
  lemma UpgradeStep(c: Catalog, g: GunState)
    requires Derived(c, g)
    ensures var r := Upgraded(c, g);
            Derived(c, r) && SameTiming(r, g) &&
            (g.tier < c.sniper ==> r.tier == g.tier + 1) &&
            (g.tier == c.sniper ==> r == g)
  {
  }

  /** `downgrade()` moves one tier down above 0, does nothing at 0,
      re-derives the tier's properties and keeps the timing. */
  lemma DowngradeStep(c: Catalog, g: GunState)
    requires Derived(c, g)
    ensures var r := Downgraded(c, g);
            Derived(c, r) && SameTiming(r, g) &&
            (g.tier > 0 ==> r.tier == g.tier - 1) &&
            (g.tier == 0 ==> r == g)
  {
  }

  /** Away from the top tier, a downgrade undoes an upgrade. */
  lemma DowngradeUndoesUpgrade(c: Catalog, g: GunState)
    requires Derived(c, g) && g.tier < c.sniper
    ensures Downgraded(c, Upgraded(c, g)) == g
  {
  }

  /** Away from tier 0, an upgrade undoes a downgrade. */
  lemma UpgradeUndoesDowngrade(c: Catalog, g: GunState)
    requires Derived(c, g) && g.tier > 0
    ensures Upgraded(c, Downgraded(c, g)) == g
  {
  }

  /** Any sequence of upgrades (`true`) and downgrades (`false`). */
  function Retiered(c: Catalog, g: GunState, ups: seq<bool>): GunState
    decreases |ups|
  {
    if ups == [] then g
    else Retiered(c, if ups[0] then Upgraded(c, g) else Downgraded(c, g), ups[1..])
  }

  /** However many upgrades and downgrades are applied, the tier stays in
      [0, sniper], moves by at most one per call, and the properties stay
      those of the current tier. */
  lemma {:induction false} TierStaysInBounds(c: Catalog, g: GunState, ups: seq<bool>)
    requires Derived(c, g)
    ensures var r := Retiered(c, g, ups);
            Derived(c, r) && SameTiming(r, g) &&
            g.tier - |ups| <= r.tier <= g.tier + |ups|
    decreases |ups|
  {
    if ups != [] {
      var h := if ups[0] then Upgraded(c, g) else Downgraded(c, g);
      if ups[0] { UpgradeStep(c, g); } else { DowngradeStep(c, g); }
      TierStaysInBounds(c, h, ups[1..]);
    }
  }
}
