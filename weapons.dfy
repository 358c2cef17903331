/** The three weapon types and the balance tables that the server room and the
    client both hard-code (server/src/rooms/BattleRoyaleRoom.ts and
    client/src/scenes/GameScene.ts). */
module Weapons {
  import opened Wrappers

  datatype WeaponType = Pistol | Rifle | Shotgun

  /** The string the source stores in `Player.weapon` and `Weapon.type`. */
  function Name(k: WeaponType): string
  {
    match k
    case Pistol => "pistol"
    case Rifle => "rifle"
    case Shotgun => "shotgun"
  }

  /** The type a weapon string denotes, if any: the `=== "pistol"` ... chains. */
  function Parse(s: string): (r: Option<WeaponType>)
    ensures r.Some? ==> Name(r.value) == s
    ensures r.None? ==> forall k: WeaponType :: Name(k) != s
  {
    if s == "pistol" then Some(Pistol)
    else if s == "rifle" then Some(Rifle)
    else if s == "shotgun" then Some(Shotgun)
    else None
  }

  lemma ParseName(k: WeaponType)
    ensures Parse(Name(k)) == Some(k)
  {
  }

  /** Full magazine: pickup, reload completion and the world weapon's ammoCapacity. */
  function Capacity(k: WeaponType): int
  {
    match k
    case Pistol => 9
    case Rifle => 30
    case Shotgun => 20
  }

  /** Ammo consumed by one accepted shot (`ammoToConsume`). */
  function AmmoCost(k: WeaponType): int
  {
    match k
    case Pistol => 1
    case Rifle => 5
    case Shotgun => 5
  }

  /** Minimum time between two accepted shots, in milliseconds. */
  function ShotDelay(k: WeaponType): int
  {
    match k
    case Pistol => 500
    case Rifle => 200
    case Shotgun => 1000
  }

  /** Time from a reload request to its completion, in milliseconds. */
  function ReloadTime(k: WeaponType): int
  {
    match k
    case Pistol => 1500
    case Rifle => 2500
    case Shotgun => 3000
  }

  /** Bullets that one accepted shot produces (the rifle fires two of them later). */
  function BulletsPerShot(k: WeaponType): nat
  {
    match k
    case Pistol => 1
    case Rifle => 3
    case Shotgun => 5
  }

  function Damage(k: WeaponType): int
  {
    match k
    case Pistol => 10
    case Rifle => 15
    case Shotgun => 8
  }

  function Speed(k: WeaponType): int
  {
    match k
    case Pistol => 500
    case Rifle => 600
    case Shotgun => 400
  }

  /** `fireRate` of a world weapon (informational only in the source). */
  function FireRate(k: WeaponType): real
  {
    match k
    case Pistol => 1.0
    case Rifle => 3.0
    case Shotgun => 0.5
  }

  /** A full magazine pays for a whole number of shots, at least one:
      9 pistol shots, 6 rifle bursts, 4 shotgun blasts. */
  lemma MagazineHoldsWholeShots(k: WeaponType)
    ensures AmmoCost(k) > 0 && Capacity(k) >= AmmoCost(k)
    ensures Capacity(k) % AmmoCost(k) == 0
    ensures Capacity(k) / AmmoCost(k) == (match k case Pistol => 9 case Rifle => 6 case Shotgun => 4)
  {
  }
}
