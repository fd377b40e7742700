/** The weapon catalog the guns consult by tier (the game's `GunLogic` class).
    Its table of values is not part of this model: every lookup is a field of
    a `Catalog` value that the gun receives when it is built, so nothing here
    depends on concrete numbers. */
module GunLogic {

  /** The four fire modes a tier can have (`GunLogic.SEMI`, `BURST`, `AUTO`
      and `BUCKSHOT`, numbered 0 to 3 in the source). */
  datatype FireMode = Semi | Burst | Auto | Buckshot

  /** Rounds in one burst, and the number of pellets in one buckshot. */
  const BURST_LENGTH: nat := 3

  /** Per-tier lookups and the two catalog constants.
      - `sniper`: `GunLogic.SNIPER`, the highest tier (tiers are 0 to sniper);
      - `burstDelay`: `GunLogic.BURST_DELAY`, the cooldown after a release;
      - the rest are the lookups `getFireMode`, `getMagCapacity`,
        `getDelayBetweenShots`, `getRange`, `getDamagePerHit`,
        `getBulletTypes`, `getxVel` and `getyVel`. */
  datatype Catalog = Catalog(
    sniper: nat,
    burstDelay: int,
    fireMode: nat -> FireMode,
    magCapacity: nat -> int,
    delayBetweenShots: nat -> int,
    range: nat -> int,
    damagePerHit: nat -> int,
    bulletType: nat -> int,
    xVel: (nat, bool) -> int,
    yVel: (nat, bool) -> int)
}
