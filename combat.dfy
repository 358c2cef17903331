/** The per-player weapon and ammunition state machine of the server room:
    what the shoot, pickupWeapon, reload and dropWeapon handlers and the
    deferred reload completion do to one Player record. */
module Combat {
  import opened Wrappers
  import opened Weapons
  import opened Entities

  /** How the shoot handler ends for a player that exists. */
  datatype ShotVerdict =
    | Refused            // dead, bad rotation, unarmed, reloading or too soon: nothing happens
    | AwaitReload        // too little ammo but a spare magazine: nothing happens server-side
    | Exhausted          // too little ammo and no spare magazine: the weapon is lost
    | Fire(kind: WeaponType)

  function Verdict(p: Player, rotation: Option<real>, now: int): ShotVerdict
  {
    if !p.isAlive || rotation.None? || p.weapon.None? then Refused
    else if p.isReloading && now < p.reloadEndTime then Refused
    else if now - p.lastShotTime < ShotDelay(p.weapon.value) then Refused
    else if p.ammo < AmmoCost(p.weapon.value) then
      (if p.magazineCount > 0 then AwaitReload else Exhausted)
    else Fire(p.weapon.value)
  }

  /** The guards under which a shot request changes nothing at all. */
  predicate ShotBlocked(p: Player, rotation: Option<real>, now: int)
  {
    || !p.isAlive
    || rotation.None?
    || p.weapon.None?
    || (p.isReloading && now < p.reloadEndTime)
    || now - p.lastShotTime < ShotDelay(p.weapon.value)
  }

  lemma VerdictCases(p: Player, rotation: Option<real>, now: int)
    ensures Verdict(p, rotation, now) == Refused <==> ShotBlocked(p, rotation, now)
    ensures Verdict(p, rotation, now) == AwaitReload <==>
      !ShotBlocked(p, rotation, now) && p.ammo < AmmoCost(p.weapon.value) && p.magazineCount > 0
    ensures Verdict(p, rotation, now) == Exhausted <==>
      !ShotBlocked(p, rotation, now) && p.ammo < AmmoCost(p.weapon.value) && p.magazineCount <= 0
    ensures Verdict(p, rotation, now).Fire? <==>
      !ShotBlocked(p, rotation, now) && p.ammo >= AmmoCost(p.weapon.value)
    ensures Verdict(p, rotation, now).Fire? ==> p.weapon == Some(Verdict(p, rotation, now).kind)
  {
  }

  /** An accepted shot: the time is recorded and the cost is paid. */
  function Shot(p: Player, k: WeaponType, now: int): Player
  {
    p.(lastShotTime := now, ammo := p.ammo - AmmoCost(k))
  }

  /** Unequipped: what dropWeapon and an exhausted shot leave. */
  function Disarmed(p: Player): Player
  {
    p.(weapon := None, ammo := 0)
  }

  /** Picking up a weapon of type k that is within reach. */
  function Equip(p: Player, k: WeaponType): Player
  {
    if p.weapon == Some(k) then p.(magazineCount := p.magazineCount + 1)
    else p.(weapon := Some(k), ammo := Capacity(k), magazineCount := 0)
  }

  function ReloadBegun(p: Player, k: WeaponType, now: int): Player
  {
    p.(isReloading := true, reloadEndTime := now + ReloadTime(k))
  }

  /** The guard of the deferred completion: it re-checks life and the flag only. */
  predicate ReloadStillDue(p: Player)
  {
    p.isAlive && p.isReloading
  }

  /** The deferred completion: refill to the capacity of the weapon held NOW. */
  function Refilled(p: Player): Player
  {
    p.(ammo := if p.weapon.Some? then Capacity(p.weapon.value) else p.ammo,
       magazineCount := p.magazineCount - 1,
       isReloading := false)
  }

  /** Damage d taken by a living player; death when health reaches 0 or less. */
  function Wound(p: Player, d: int): Player
  {
    var h := p.health - d;
    p.(health := h, isAlive := if h <= 0 then false else p.isAlive)
  }

  const Pi: real := 3.141592653589793
  /** `Math.PI / 8`: the fan of the shotgun's five pellets. */
  const SpreadAngle: real := Pi / 8.0

  function PelletAngle(rotation: real, i: nat): real
  {
    (rotation - SpreadAngle / 2.0) + (SpreadAngle / 4.0) * (i as real)
  }

  /** The bullets an accepted shot creates at once; the rifle's other two
      bullets of the burst are deferred. */
  function Volley(k: WeaponType, x: real, y: real, rotation: real, owner: string): seq<Bullet>
  {
    match k
    case Pistol => [Bullet(x, y, rotation, owner, Damage(Pistol), Speed(Pistol))]
    case Rifle => [Bullet(x, y, rotation, owner, Damage(Rifle), Speed(Rifle))]
    case Shotgun => seq(5, i requires 0 <= i => Bullet(x, y, PelletAngle(rotation, i), owner, Damage(Shotgun), Speed(Shotgun)))
  }

  /** Pistol 1 bullet, rifle 1 now (+2 later), shotgun 5 pellets fanned over
      rotation - pi/16 ... rotation + pi/16 in steps of pi/32; every one starts
      at the shooter's position, belongs to the shooter and carries the
      weapon's damage and speed. */
  lemma VolleyShape(k: WeaponType, x: real, y: real, rotation: real, owner: string)
    ensures |Volley(k, x, y, rotation, owner)| == (if k == Shotgun then 5 else 1)
    ensures forall b :: b in Volley(k, x, y, rotation, owner) ==>
      b.x == x && b.y == y && b.ownerId == owner && b.damage == Damage(k) && b.speed == Speed(k)
    ensures k != Shotgun ==> Volley(k, x, y, rotation, owner)[0].rotation == rotation
    ensures k == Shotgun ==> forall i :: 0 <= i < 5 ==>
      Volley(k, x, y, rotation, owner)[i].rotation == rotation - Pi / 16.0 + (i as real) * (Pi / 32.0)
    ensures |Volley(k, x, y, rotation, owner)| + (if k == Rifle then 2 else 0) == BulletsPerShot(k)
  {
  }

  // ---- the state machine keeps every player Consistent ----

  lemma ShotKeepsConsistent(p: Player, rotation: Option<real>, now: int)
    requires Consistent(p) && Verdict(p, rotation, now).Fire?
    ensures var k := Verdict(p, rotation, now).kind;
      Consistent(Shot(p, k, now)) && Shot(p, k, now).ammo == p.ammo - AmmoCost(k) >= 0
  {
  }

  lemma DisarmedConsistent(p: Player)
    requires Consistent(p)
    ensures Consistent(Disarmed(p))
  {
  }

  lemma EquipConsistent(p: Player, k: WeaponType)
    requires Consistent(p)
    ensures Consistent(Equip(p, k))
  {
  }

  lemma ReloadConsistent(p: Player, k: WeaponType, now: int)
    requires Consistent(p)
    ensures Consistent(ReloadBegun(p, k, now)) && Consistent(Refilled(p))
  {
  }

  lemma WoundConsistent(p: Player, d: int)
    requires Consistent(p) && p.isAlive
    ensures Consistent(Wound(p, d))
    ensures Wound(p, d).health == p.health - d
    ensures Wound(p, d).isAlive <==> p.health - d > 0
  {
  }

  // ---- pickup ----

  /** A stacked pickup adds one spare magazine and leaves the ammunition alone;
      a different type replaces the weapon with a full magazine and no spares. */
  lemma EquipEffect(p: Player, k: WeaponType)
    ensures p.weapon == Some(k) ==>
      Equip(p, k).magazineCount == p.magazineCount + 1 && Equip(p, k).ammo == p.ammo && Equip(p, k).weapon == p.weapon
    ensures p.weapon != Some(k) ==>
      Equip(p, k).weapon == Some(k) && Equip(p, k).ammo == Capacity(k) && Equip(p, k).magazineCount == 0
    ensures Equip(p, k).isReloading == p.isReloading && Equip(p, k).health == p.health
  {
  }

  // ---- reload ----

  /** Starting a reload and completing it, with nothing in between, gives a
      full magazine paid for with one spare. */
  lemma ReloadRoundTrip(p: Player, k: WeaponType, now: int)
    requires p.weapon == Some(k) && p.isAlive
    ensures ReloadStillDue(ReloadBegun(p, k, now))
    ensures var q := Refilled(ReloadBegun(p, k, now));
      q.ammo == Capacity(k) && q.magazineCount == p.magazineCount - 1 && !q.isReloading
      && q == p.(ammo := Capacity(k), magazineCount := p.magazineCount - 1,
                  reloadEndTime := now + ReloadTime(k), isReloading := false)
  {
  }

  /** The completion does not re-check the spare count: picking up a different
      weapon while a reload is pending (which zeroes the spares and keeps the
      flag) lets the completion drive magazineCount to -1. */
  lemma SwitchDuringReload(x: real, y: real)
    ensures var p := NewPlayer(x, y).(weapon := Some(Pistol), ammo := 0, magazineCount := 1);
      var q := Refilled(Equip(ReloadBegun(p, Pistol, 0), Rifle));
      ReloadStillDue(Equip(ReloadBegun(p, Pistol, 0), Rifle)) && q.magazineCount == -1 && q.ammo == 30
  {
  }

  // ---- running dry ----

  /** A pistol with its last round and no spare fires that round and keeps the
      weapon: the server unequips only on the following attempt. */
  lemma LastRoundKeepsWeapon(p: Player, rotation: real, now: int)
    requires p.isAlive && p.weapon == Some(Pistol) && p.ammo == 1 && p.magazineCount == 0
    requires !p.isReloading && now - p.lastShotTime >= 500
    ensures Verdict(p, Some(rotation), now) == Fire(Pistol)
    ensures Shot(p, Pistol, now).ammo == 0 && Shot(p, Pistol, now).weapon == Some(Pistol)
    ensures Verdict(Shot(p, Pistol, now), Some(rotation), now + 500) == Exhausted
  {
  }

  /** An armed player with no ammunition and no spare, whose shot passes the
      guards, ends up unarmed. */
  lemma EmptyShotUnequips(p: Player, rotation: Option<real>, now: int)
    requires p.weapon.Some? && p.ammo == 0 && p.magazineCount == 0
    requires !ShotBlocked(p, rotation, now)
    ensures Verdict(p, rotation, now) == Exhausted
    ensures Disarmed(p).weapon == None && Disarmed(p).ammo == 0
  {
  }

  // ---- movement ----

  /** A move message: the position changes only when both coordinates are
      finite numbers, the rotation only when it is one. */
  function Steered(p: Player, x: Option<real>, y: Option<real>, rotation: Option<real>): (q: Player)
    ensures q.x == (if x.Some? && y.Some? then x.value else p.x)
    ensures q.y == (if x.Some? && y.Some? then y.value else p.y)
    ensures q.rotation == (if rotation.Some? then rotation.value else p.rotation)
    ensures q == p.(x := q.x, y := q.y, rotation := q.rotation)
  {
    var moved := if x.Some? && y.Some? then p.(x := x.value, y := y.value) else p;
    if rotation.Some? then moved.(rotation := rotation.value) else moved
  }

  lemma SteeredConsistent(p: Player, x: Option<real>, y: Option<real>, rotation: Option<real>)
    requires Consistent(p)
    ensures Consistent(Steered(p, x, y, rotation))
  {
  }

  // ---- what the pickup handler broadcasts ----

  function PickupBroadcasts(id: string, p: Player, k: WeaponType): seq<Event>
  {
    if p.weapon == Some(k) then [MagazineUpdate(id, p.magazineCount + 1)]
    else [WeaponUpdate(id, Name(k)), AmmoUpdate(id, Capacity(k)), MagazineUpdate(id, 0)]
  }

  /** The pickup broadcasts carry the new record's values: the magazine count
      always, and on a change of weapon also its name and ammunition. */
  lemma PickupBroadcastsMirror(id: string, p: Player, k: WeaponType)
    ensures var es := PickupBroadcasts(id, p, k); var q := Equip(p, k);
      |es| >= 1 && es[|es| - 1] == MagazineUpdate(id, q.magazineCount)
      && (p.weapon != Some(k) ==> es[0] == WeaponUpdate(id, WeaponString(q.weapon)) && es[1] == AmmoUpdate(id, q.ammo))
      && forall i :: 0 <= i < |es| ==> !es[i].GameOver?
  {
  }

  // ---- the whole shoot handler for one player ----

  /** The rifle's two follow-up bullets, due 100 ms and 200 ms after the shot. */
  function BurstTimers(id: string, rotation: real): seq<Deferred>
  {
    [BurstShot(id, rotation, 100), BurstShot(id, rotation, 200)]
  }

  /** What a shoot message does for a player that exists: the new record, the
      broadcasts, the bullets created at once and the timers set. */
  datatype ShotEffect = ShotEffect(player: Player, broadcasts: seq<Event>, volley: seq<Bullet>, deferred: seq<Deferred>)

  function ShootEffect(id: string, p: Player, rotation: Option<real>, now: int): ShotEffect
  {
    match Verdict(p, rotation, now)
    case Refused => ShotEffect(p, [], [], [])
    case AwaitReload => ShotEffect(p, [], [], [])
    case Exhausted => ShotEffect(Disarmed(p), [WeaponUpdate(id, ""), AmmoUpdate(id, 0)], [], [])
    case Fire(k) =>
      var q := Shot(p, k, now);
      ShotEffect(q, [AmmoUpdate(id, q.ammo)], Volley(k, p.x, p.y, rotation.value, id),
                 if k == Rifle then BurstTimers(id, rotation.value) else [])
  }

  /** A refused shot, or one that waits for a reload, changes nothing; an
      exhausted one takes the weapon and says so; an accepted one pays its
      cost, records the time, reports the ammunition left and fires
      bulletsPerShot bullets of the shooter in all (the rifle's last two
      later). Nothing it broadcasts is a gameOver, and the record stays
      Consistent. */
  lemma ShootEffectCases(id: string, p: Player, rotation: Option<real>, now: int)
    requires Consistent(p)
    ensures var e := ShootEffect(id, p, rotation, now);
      && Consistent(e.player)
      && (forall i :: 0 <= i < |e.broadcasts| ==> !e.broadcasts[i].GameOver?)
      && (e.player == p <==> e.broadcasts == [])
      && (e.broadcasts == [] ==> e.volley == [] && e.deferred == [])
      && (e.broadcasts == [] <==> ShotBlocked(p, rotation, now) || (p.ammo < AmmoCost(p.weapon.value) && p.magazineCount > 0))
  {
    VerdictCases(p, rotation, now);
    match Verdict(p, rotation, now)
    case Refused =>
    case AwaitReload =>
    case Exhausted =>
      DisarmedConsistent(p);
    case Fire(k) =>
      ShotKeepsConsistent(p, rotation, now);
      assert ShootEffect(id, p, rotation, now).player.lastShotTime == now;
  }

  lemma ShootEffectFire(id: string, p: Player, rotation: Option<real>, now: int)
    requires Verdict(p, rotation, now).Fire?
    ensures var k := Verdict(p, rotation, now).kind; var e := ShootEffect(id, p, rotation, now);
      && p.weapon == Some(k) && rotation.Some?
      && e.player == p.(lastShotTime := now, ammo := p.ammo - AmmoCost(k))
      && e.broadcasts == [AmmoUpdate(id, p.ammo - AmmoCost(k))]
      && |e.volley| + |e.deferred| == BulletsPerShot(k)
      && (forall b :: b in e.volley ==> b.x == p.x && b.y == p.y && b.ownerId == id && b.damage == Damage(k) && b.speed == Speed(k))
      && (forall d :: d in e.deferred ==> d.BurstShot? && d.playerId == id && d.rotation == rotation.value)
  {
    var k := Verdict(p, rotation, now).kind;
    VerdictCases(p, rotation, now);
    VolleyShape(k, p.x, p.y, rotation.value, id);
  }

  lemma ShootEffectExhausted(id: string, p: Player, rotation: Option<real>, now: int)
    requires Verdict(p, rotation, now) == Exhausted
    ensures var e := ShootEffect(id, p, rotation, now);
      && e.player.weapon == None && e.player.ammo == 0 && e.player == p.(weapon := None, ammo := 0)
      && e.broadcasts == [WeaponUpdate(id, ""), AmmoUpdate(id, 0)]
      && e.volley == [] && e.deferred == []
  {
  }
}
