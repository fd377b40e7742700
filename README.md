# Weapon subsystem of a two-player shooter, in Dafny

This project models the weapons of a two-player 2D shooter. Each player
owns a `Gun`, and the gun owns the `Bullet`s it has fired. The model covers:

- the gun's firing state machine: `fire()`, `stopFiring()`, the semi,
  burst, auto and buckshot fire modes, the inter-shot delay and the burst
  cooldown;
- the per-tick pass `moveBullets()` that moves, culls and resolves its bullets;
- the tier progression `upgrade()` / `downgrade()`;
- the life of a bullet from its spawn at the muzzle to its removal.

Modules:

- `GunLogic` (`gun_logic.dfy`): the weapon catalog the gun consults by tier.
  It is a `Catalog` value whose fields are the lookups (fire mode, magazine,
  delay, range, damage, bullet kind, x- and y-velocity) and the two constants
  `SNIPER` and `BURST_DELAY`. No concrete values are assumed.
- `Bullets` (`bullets.dfy`): a bullet as a value. `Spawn` is what the
  constructor snapshots from the gun, and `Moved` is what one `move()` does.
  It holds the lemmas on the distance travelled.
- `Firing` (`firing.dfy`): the gun's scalar state (`GunState`). `fire()`,
  `stopFiring()`, `upgrade()` and `downgrade()` appear as functions on it,
  with the lemmas stating the timing rules and the tier bounds.
- `Combat` (`combat.dfy`): one pass of `moveBullets()` as functions of the
  bullets' states at the start of the pass. `KeepMask` and `Select` give the
  survivors, `Hits` the damage dealt in order, and `AfterHits` the gun after
  the kill upgrades. The lemmas state that survivors keep their order, that
  only survivors stay, that each hit is counted once and how many upgrades
  happen.
- `Objects` (`objects.dfy`): the classes `Gun` and `Bullet`. Their fields are
  updated in place, and the live bullets are a `seq<Bullet>` field. Each
  method is proved against the functions above. `Gun.Valid()` is the
  invariant that the tier lies in `[0, SNIPER]`, that mode, magazine and
  delay are the catalog's for that tier, and that no bullet is listed twice.

The environment of the gun enters as parameters:

- the clock is a `now` argument;
- whether the owner still holds the shoot key is a `holdingShoot` argument;
- the opponent is their bounding box and their health, passed in and
  returned by `MoveBullets` and `Update`;
- the collision tests are the functions of an `Arena` value.

## Behaviours of the code that are easy to miss

- A semi-automatic gun that is still firing ignores `fire()` even after its
  delay has passed (src/objects/Gun.java:65-69). A second shot needs
  `stopFiring()` first (`Firing.IgnoredWhileFiring`).
- A burst whose three rounds are fired does not stop while the key is
  held. It waits, and stops on the first `fire()` after release or on
  `stopFiring()` (src/objects/Gun.java:84-91; `Firing.BurstCompleteNoShot`).
- `stopFiring()` stamps the release time only when the gun was firing
  (src/objects/Gun.java:110-112; `Firing.StopFiringRule`).
- The distance travelled is the sum of the signed x-velocities, so it is
  negative for a bullet flying left; the range test takes its absolute
  value (src/objects/Bullet.java:61, src/objects/Gun.java:132;
  `Bullets.SpawnedDistance`).
- In a pass, each bullet is tested for removal before it is moved, and only
  a survivor moves (src/objects/Gun.java:132-143; `Objects.Gun.MoveBullets`).
  Bullets fired in a tick are first visited in the next tick, unmoved, so
  a bullet is removed on the visit after the move that takes it out of
  range (`Combat.UnitSpeedExpiry`).

## Model

| member | source | states |
|---|---|---|
| Bullets.SpawnAtMuzzle | src/objects/Bullet.java:24-33 | a spawned bullet sits on the edge of the gun's box that the gun faces (no point of the box lies farther forward), halfway down the box, flies the gun's way and has travelled nothing |
| Bullets.MovedNAccumulates | src/objects/Bullet.java:59-62 | after `n` moves the distance travelled has grown by exactly `n * xVel`, and moving never changes velocity, facing, range, damage, owner or kind |
| Bullets.SpawnedDistance | src/objects/Bullet.java:59-62 | a fresh bullet moved `n` times has travelled `n * xVel`, with magnitude `n * abs(xVel)`, and the distance is never positive when it flies left |
| Objects.Bullet.constructor | src/objects/Bullet.java:15-33 | the new bullet is `Spawn` of the gun's catalog, tier, box and owner: placed at the muzzle (the right edge `x + w` facing right, the gun's `x` facing left), vertically centred, velocity, range, damage and kind looked up for the gun's tier at that moment, and distance travelled 0 |
| Objects.Bullet.SetYVel | src/objects/Gun.java:78 | only the y-velocity changes, to the given value |
| Objects.Bullet.Move | src/objects/Bullet.java:59-62 | the new state is `Moved` of the old one: position advanced by the velocity and the x-velocity added to the distance travelled |
| Firing.FireKeepsTier | src/objects/Gun.java:62-106 | `fire()` leaves the tier, mode, magazine and delay unchanged, and so keeps them derived from the tier |
| Firing.IgnoredWhileFiring | src/objects/Gun.java:65-69 | while firing in semi or buckshot mode, `fire()` appends nothing and changes no field |
| Firing.PressStartsFiring | src/objects/Gun.java:70-72 | from idle, `fire()` leaves the gun firing if and only if `now - timeAtLastPress >= BURST_DELAY` (except a completed burst released in the same call, which stops again) |
| Firing.BuckshotSpread | src/objects/Gun.java:75-80 | from idle, buckshot appends exactly three pellets that are the normal spawn with y-velocities -1, 0, +1 in that order, and leaves the shot time and the round counter unchanged even when the cooldown keeps `firing` false |
| Firing.SingleShotGate | src/objects/Gun.java:96-104 | on the single-shot path: if `now - timeAtLastShot > delay` (strict), exactly one bullet is appended, the counter rises by one and the shot is stamped `now`; otherwise bullets, counter and stamps are unchanged |
| Firing.BurstCompleteNoShot | src/objects/Gun.java:84-91 | a burst with 3 or more rounds fired appends nothing; held, only the press check can change the gun, and a gun already firing is unchanged; released, `stopFiring()` runs: the gun stops, the counter returns to 0 and the release is stamped `now` whenever the gun was firing after the press check, every other field unchanged |
| Firing.BurstCooldown | src/objects/Gun.java:92-93 | the first round of a burst within the cooldown after a release is suppressed and nothing changes |
| Firing.BurstAtMostThree | src/objects/Gun.java:82-104 | with the key held, any number of `fire()` calls on a burst gun appends exactly as many bullets as the counter rose, and the counter never exceeds 3 |
| Firing.SemiOncePerInstant | src/objects/Gun.java:65-104 | two `fire()` calls at the same instant on a semi gun whose delay is non-negative append at most one bullet |
| Firing.StopFiringRule | src/objects/Gun.java:108-118 | `stopFiring()` stamps the release only when firing, and clears `firing` and the counter unless the mode is burst with fewer than 3 rounds, in which case both are kept |
| Firing.StopFiringSettles | src/objects/Gun.java:108-118 | outside an unfinished burst, a second `stopFiring()` at any later time changes nothing |
| Firing.StopWhenIdle | src/objects/Gun.java:108-118 | stopping an idle gun leaves it idle with both stamps unchanged |
| Firing.UpgradeStep | src/objects/Gun.java:174-181 | `upgrade()` raises the tier by exactly one below the sniper, does nothing at the sniper, re-derives mode, magazine and delay, and keeps the timing state |
| Firing.DowngradeStep | src/objects/Gun.java:182-189 | `downgrade()` lowers the tier by exactly one above 0, does nothing at 0, re-derives mode, magazine and delay, and keeps the timing state |
| Firing.DowngradeUndoesUpgrade | src/objects/Gun.java:174-189 | below the sniper, a downgrade after an upgrade restores the gun exactly |
| Firing.UpgradeUndoesDowngrade | src/objects/Gun.java:174-189 | above tier 0, an upgrade after a downgrade restores the gun exactly |
| Firing.TierStaysInBounds | src/objects/Gun.java:174-189 | under any sequence of upgrades and downgrades the tier stays in `[0, SNIPER]`, moves at most one step per call, and the derived properties stay those of the current tier |
| Combat.PassStep | src/objects/Gun.java:133-138 | visiting one more bullet deducts its damage from the opponent exactly when it hits, and upgrades the gun exactly when that hit leaves the opponent at 0 or below |
| Combat.SelectPlacesKept | src/objects/Gun.java:132-143 | every bullet that passes the removal test survives the pass, at the position given by the number of survivors before it |
| Combat.KeptRanksIncrease | src/objects/Gun.java:139-140 | survivors keep their relative order |
| Combat.SelectOnlyKept | src/objects/Gun.java:132-140 | every bullet left after the pass is one that failed the removal test |
| Combat.HitsOncePerHit | src/objects/Gun.java:133-138 | the damage dealt in a pass is exactly the damages of the bullets overlapping the opponent, each once, in list order |
| Combat.HitIsRemoved | src/objects/Gun.java:132-139 | a bullet that overlaps the opponent is removed |
| Combat.AfterHitsTier | src/objects/Gun.java:133-136 | after a pass the tier is the old tier plus the number of killing hits, saturating at the sniper; derived properties and timing state stay consistent |
| Combat.RangeExpiry | src/objects/Gun.java:132 | a fresh bullet fails the range test after `n` moves exactly when `n * abs(xVel) > range` |
| Combat.UnitSpeedExpiry | src/objects/Gun.java:132-143 | with range 100 and unit speed, a fresh bullet is in range after each of its first 100 moves and out of range after the 101st; since the test precedes the move, it is removed on its 102nd visit and never earlier |
| Objects.Gun.constructor | src/objects/Gun.java:24-44 | a tier-0 gun with the catalog's properties for tier 0, idle, no bullets, its owner's side, and placed 5 units in from the player's facing edge and a third of the way down |
| Objects.Gun.SetGunProperties | src/objects/Gun.java:55-59 | mode, magazine and delay are re-read for the current tier, and nothing else changes |
| Objects.Gun.Upgrade | src/objects/Gun.java:174-181 | the new state is `Upgraded` of the old; the bullets and their states are untouched, so a later upgrade does not affect bullets already fired |
| Objects.Gun.Downgrade | src/objects/Gun.java:182-189 | the new state is `Downgraded` of the old; the bullets and their states are untouched |
| Objects.Gun.GetBullets | src/objects/Gun.java:154-156 | returns the live bullet list |
| Objects.Gun.GetType | src/objects/Gun.java:158-160 | returns the tier, which lies in `[0, SNIPER]` |
| Objects.Gun.GetFireMode | src/objects/Gun.java:162-164 | returns the fire mode, which is the catalog's for the current tier |
| Objects.Gun.GetAmmoRemaining | src/objects/Gun.java:166-168 | returns the magazine count, which is the catalog's capacity for the current tier |
| Objects.Gun.GetNumSuccessiveRoundsFired | src/objects/Gun.java:170-172 | returns the round counter |
| Objects.Gun.StopFiring | src/objects/Gun.java:108-118 | the new state is `Stopped(old state, now)`; bullets and box unchanged |
| Objects.Gun.AttemptSingleShot | src/objects/Gun.java:96-104 | follows `SingleShot`: the old bullets stay in front and the appended bullets are fresh and in the spawned states |
| Objects.Gun.AppendBuckshot | src/objects/Gun.java:75-80 | appends three fresh bullets in the states of `Spread` of the spawn, keeping the old bullets in front and every other field |
| Objects.Gun.AppendPellet | src/objects/Gun.java:77-79 | appends one fresh bullet, spawned for the current tier with the given y-velocity, and leaves the earlier bullets, their states and every field of the gun unchanged |
| Objects.Gun.Fire | src/objects/Gun.java:62-106 | follows `Fired`: the new state is its next state, the old bullets stay in front, and the appended bullets are fresh and in exactly the spawned states |
| Objects.Gun.ResolveHit | src/objects/Gun.java:133-138 | a hit upgrades the gun first when it leaves the opponent at 0 or below, then deducts the full damage |
| Objects.Gun.VisitBullet | src/objects/Gun.java:121-143 | a bullet passing the removal test is taken out of the list (after its hit is resolved), otherwise it is moved once in place |
| Objects.Gun.MoveBullets | src/objects/Gun.java:120-145 | the bullets after the pass are exactly the survivors in their order; the opponent loses the sum of the hits; the gun is `AfterHits` of its old state; each survivor moved once and each removed bullet did not move |
| Objects.Gun.Update | src/objects/Gun.java:147-152 | one pass as in `MoveBullets`, then `fire()` if and only if the gun was firing; survivors first, then the freshly fired bullets in their spawned states |

## Left out

- Images: `setImages`, `getOtherImage` and the `Images` lookups are rendering only, so the gun and bullet sprites are not modelled.
- The debug `System.out.println` calls are left out.
- `System.currentTimeMillis()` is the `now` argument. The `stopFiring()` that `fire()` calls on a released, completed burst uses the same `now` as the call itself.
- `Main.getGame()` and the `Player` class are not part of this model. The opponent's box and health, and the owner's shoot key, are arguments.
- Objects.Gun.ResolveHit: `Player.takeDamage` is not part of this model; its effect is taken to be subtracting the damage from the health.
- `CollisionLogic` and `isOutOfBounds` are not part of this model. They are the uninterpreted functions of `Combat.Arena`.
- `GunLogic` is not part of this model. Its lookups and constants are the fields of `GunLogic.Catalog`, and fire modes are the four values of `FireMode` (a mode byte outside 0-3 is not modelled).
- Coordinates are idealised as exact reals instead of `float`. This covers the gun's one-third-height offset and the bullet's vertical centring. Velocities and the distance travelled are integers.
- The superclass `move(true)` is not part of this model. `Moved` takes it to add the velocity to the position.
- The widths and heights of the gun and bullet come from their images. The gun's are constructor arguments, and the bullet's are part of what the `Arena` functions decide.
- `updateCoordinates` is not modelled; it follows the player, outside the weapon logic.
- The empty `switch` in `getInitialBulletData` has no effect and is left out.
- The magazine is left out: `ammoRemaining` is set from the catalog but never decremented, so there is no reloading.
- Objects.Gun.Fire: `numSuccessiveRoundsFired` and `type` are unbounded naturals, so the `byte` wrap-around of the counter after 127 rounds of sustained auto fire is not modelled.
- Firing.BurstAtMostThree: it states that a held burst fires at most three rounds and counts every round. Whether a held burst reaches three depends on the call times and the delay, so it is not stated.
- Bullet getters and `isPlayer1or2` are plain reads of fields, which the model exposes directly.
