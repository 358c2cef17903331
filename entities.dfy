/** The replicated records of the room state (Player, Bullet, Weapon), the
    broadcast events and the squared-distance geometry the room uses. */
module Entities {
  import opened Wrappers
  import opened Weapons

  /** A connected player; `weapon == None` is the source's empty string. */
  datatype Player = Player(
    x: real, y: real, rotation: real,
    health: int,
    weapon: Option<WeaponType>,
    isAlive: bool,
    ammo: int,
    magazineCount: int,
    lastShotTime: int,
    reloadEndTime: int,
    isReloading: bool)

  datatype Bullet = Bullet(x: real, y: real, rotation: real, ownerId: string, damage: int, speed: int)

  /** A weapon lying on the map, waiting to be picked up. */
  datatype WeaponItem = WeaponItem(
    x: real, y: real,
    kind: WeaponType,
    damage: int,
    fireRate: real,
    ammoCapacity: int,
    reloadTime: int,
    shotDelay: int,
    bulletsPerShot: nat)

  /** An obstacle circle reported by a client. */
  datatype Collider = Collider(x: real, y: real, radius: real)

  /** Messages the room broadcasts to every client (or sends to one). */
  datatype Event =
    | AmmoUpdate(playerId: string, ammo: int)
    | MagazineUpdate(playerId: string, magazineCount: int)
    | WeaponUpdate(playerId: string, weapon: string)
    | ReloadStart(playerId: string, reloadTime: int)
    | ReloadEnd(playerId: string)
    | ReloadFail(playerId: string)
    | PlayerEliminated(playerId: string, playersLeft: nat)
    | GameOver(winnerId: string)
    | ZoneShrink(x: real, y: real, radius: int, nextShrinkTime: int)
    | ZoneUpdate(x: real, y: real, radius: int, nextShrinkTime: int)
    | ZoneTimer(nextShrinkTime: int)

  /** A message sent to one client only (`client.send`). */
  datatype Direct = Direct(to: string, event: Event)

  /** The body of a pending `setTimeout`, with the values it captured. */
  datatype Deferred =
    | ReloadDone(playerId: string)
    | BurstShot(playerId: string, rotation: real, delay: int)

  /** Where the placement planner is asked to put a weapon: a sector 0..7 with a
      random distance band, the central band, or (after a shrink) the inner band. */
  datatype Slot = Sector(index: int) | Centre | Inner

  /** What the randomised planner answers: a position and a weapon type. */
  datatype Placement = Placement(x: real, y: real, kind: WeaponType)

  // Map and zone geometry set in onCreate; the zone centre never moves.
  const MapWidth: real := 3968.0
  const MapHeight: real := 3968.0
  const ZoneCentreX: real := 1984.0
  const ZoneCentreY: real := 1984.0
  const InitialRadius: int := 5000
  const MinRadius: int := 200
  const ShrinkSpeed: int := 250
  const ShrinkPeriod: int := 5
  const MinWeapons: int := 15
  const MaxWeapons: int := 20
  const StartHealth: int := 100

  // Squared thresholds: pickup `distance <= 150`, hit `distance < 20`.
  const PickupRangeSq: real := 22500.0
  const HitRangeSq: real := 400.0

  function DistSq(x1: real, y1: real, x2: real, y2: real): (d: real)
    ensures d >= 0.0
  {
    (x1 - x2) * (x1 - x2) + (y1 - y2) * (y1 - y2)
  }

  predicate InPickupRange(p: Player, w: WeaponItem)
  {
    DistSq(p.x, p.y, w.x, w.y) <= PickupRangeSq
  }

  predicate InHitRange(p: Player, b: Bullet)
  {
    DistSq(p.x, p.y, b.x, b.y) < HitRangeSq
  }

  /** `distance > safeZoneRadius`, for a radius that is not negative. */
  predicate OutsideZone(p: Player, radius: int)
    requires radius >= 0
  {
    DistSq(p.x, p.y, ZoneCentreX, ZoneCentreY) > (radius as real) * (radius as real)
  }

  function WeaponString(w: Option<WeaponType>): string
  {
    match w
    case None => ""
    case Some(k) => Name(k)
  }

  /** The player onJoin creates: unarmed, full health, no ammunition. */
  function NewPlayer(x: real, y: real): Player
  {
    Player(x, y, 0.0, StartHealth, None, true, 0, 0, 0, 0, false)
  }

  /** The world weapon generateWeaponInSector builds for a planner answer. */
  function ItemFor(pl: Placement): (w: WeaponItem)
    ensures w.kind == pl.kind && w.x == pl.x && w.y == pl.y
    ensures w.ammoCapacity == Capacity(pl.kind) && w.shotDelay == ShotDelay(pl.kind)
    ensures w.reloadTime == ReloadTime(pl.kind) && w.damage == Damage(pl.kind)
    ensures w.bulletsPerShot == BulletsPerShot(pl.kind)
  {
    match pl.kind
    case Pistol => WeaponItem(pl.x, pl.y, Pistol, 10, 1.0, 9, 1500, 500, 1)
    case Rifle => WeaponItem(pl.x, pl.y, Rifle, 15, 3.0, 30, 2500, 200, 3)
    case Shotgun => WeaponItem(pl.x, pl.y, Shotgun, 8, 0.5, 20, 3000, 1000, 5)
  }

  /** What the room keeps true of every player: alive exactly while health is
      positive, no ammunition without a weapon, and never more than a full
      magazine nor less than none. */
  ghost predicate Consistent(p: Player)
  {
    && (p.isAlive <==> p.health > 0)
    && (p.weapon.None? ==> p.ammo == 0)
    && (p.weapon.Some? ==> 0 <= p.ammo <= Capacity(p.weapon.value))
  }

  lemma NewPlayerConsistent(x: real, y: real)
    ensures Consistent(NewPlayer(x, y))
    ensures NewPlayer(x, y).weapon == None && NewPlayer(x, y).ammo == 0 && NewPlayer(x, y).health == 100
  {
  }

  /** Number of GameOver broadcasts in a log. */
  function GameOverCount(es: seq<Event>): nat
  {
    if es == [] then 0
    else GameOverCount(es[..|es| - 1]) + (if es[|es| - 1].GameOver? then 1 else 0)
  }

  lemma {:induction false} GameOverCountAppend(a: seq<Event>, b: seq<Event>)
    ensures GameOverCount(a + b) == GameOverCount(a) + GameOverCount(b)
    decreases |b|
  {
    if b == [] {
      assert a + b == a;
    } else {
      assert (a + b)[..|a + b| - 1] == a + b[..|b| - 1];
      GameOverCountAppend(a, b[..|b| - 1]);
    }
  }

  lemma {:induction false} GameOverCountNone(es: seq<Event>)
    requires forall i :: 0 <= i < |es| ==> !es[i].GameOver?
    ensures GameOverCount(es) == 0
    decreases |es|
  {
    if es != [] {
      GameOverCountNone(es[..|es| - 1]);
    }
  }

  /** Broadcasts that are not gameOver leave the count alone. */
  lemma NoGameOverAdded(a: seq<Event>, xs: seq<Event>)
    requires forall i :: 0 <= i < |xs| ==> !xs[i].GameOver?
    ensures GameOverCount(a + xs) == GameOverCount(a)
  {
    GameOverCountAppend(a, xs);
    GameOverCountNone(xs);
  }

  /** xs stored under the consecutive fresh ids start, start + 1, ... */
  function Numbered<T>(start: nat, xs: seq<T>): map<nat, T>
  {
    if xs == [] then map[]
    else Numbered(start, xs[..|xs| - 1])[start + |xs| - 1 := xs[|xs| - 1]]
  }

  /** The i-th element of xs is stored under start + i, and nothing else is. */
  lemma {:induction false} NumberedContents<T>(start: nat, xs: seq<T>)
    ensures forall id :: id in Numbered(start, xs) <==> start <= id < start + |xs|
    ensures forall id :: id in Numbered(start, xs) ==> Numbered(start, xs)[id] == xs[id - start]
    decreases |xs|
  {
    if xs != [] {
      NumberedContents(start, xs[..|xs| - 1]);
    }
  }

  /** Storing nothing leaves a map alone. */
  lemma NumberedNone<T>(m0: map<nat, T>, start: nat)
    ensures m0 + Numbered(start, []) == m0
  {
  }

  /** Storing one element is one update. */
  lemma NumberedOne<T>(m0: map<nat, T>, start: nat, x: T)
    ensures m0 + Numbered(start, [x]) == m0[start := x]
  {
    NumberedSnoc(m0, start, [], x);
    assert [] + [x] == [x];
  }

  lemma NumberedSnoc<T>(m0: map<nat, T>, start: nat, xs: seq<T>, x: T)
    ensures (m0 + Numbered(start, xs))[start + |xs| := x] == m0 + Numbered(start, xs + [x])
  {
    assert (xs + [x])[..|xs|] == xs;
  }
}
