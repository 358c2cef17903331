/** The client's mirror of its own ammunition (GameScene): the fields it keeps,
    the click handler that decides whether to ask the room for a shot, a
    reload or a drop, and the room messages that overwrite those fields. The
    rendering the source does alongside (texts, textures, tweens) is left out. */
module Client {
  import opened Weapons

  /** What the client sends to the room (`room.send`). */
  datatype Request = Shoot(rotation: real) | Reload | DropWeapon

  /** getFireRateForWeapon: milliseconds between two accepted clicks, the
      server's shot delay for a known weapon and 500 for any other string. */
  function FireRateForWeapon(weaponType: string): (r: int)
    ensures Parse(weaponType).Some? ==> r == ShotDelay(Parse(weaponType).value)
    ensures Parse(weaponType).None? ==> r == 500
  {
    if weaponType == "pistol" then 500
    else if weaponType == "rifle" then 200
    else if weaponType == "shotgun" then 1000
    else 500
  }

  /** `ammoToConsume` of handleShootingOnClick: the server's cost of a shot
      for a known weapon, and 1 for any other string. */
  function AmmoToConsume(weapon: string): (r: int)
    ensures Parse(weapon).Some? ==> r == AmmoCost(Parse(weapon).value)
    ensures Parse(weapon).None? ==> r == 1
  {
    if weapon == "rifle" then 5
    else if weapon == "shotgun" then 5
    else if weapon == "pistol" then 1
    else 1
  }

  /** The fields the ammunition logic reads and writes, and the requests sent
      so far (oldest first). `reloadingShown` is the visibility of the
      reloading text, which handleShootingOnClick and reloadWeapon test. */
  datatype Mirror = Mirror(
    currentAmmo: int,
    maxAmmo: int,
    magazineCount: int,
    currentWeapon: string,
    lastFireTime: int,
    isShooting: bool,
    reloadingShown: bool,
    nextShrinkTime: int,
    outbox: seq<Request>)

  /** reloadWeapon: a reload is requested only for a held weapon, with no
      reload shown in progress and a magazine that is not full. */
  function Reloaded(s: Mirror): Mirror
  {
    if s.currentWeapon == "" then s
    else if s.reloadingShown then s
    else if s.currentAmmo == s.maxAmmo then s
    else s.(outbox := s.outbox + [Reload])
  }

  /** Out of ammunition: reload while magazines are left, otherwise tell the
      room the weapon is dropped and forget it. */
  function OutOfAmmo(s: Mirror): Mirror
  {
    if s.magazineCount > 0 then Reloaded(s)
    else s.(outbox := s.outbox + [DropWeapon], currentWeapon := "", maxAmmo := 0, currentAmmo := 0, magazineCount := 0)
  }

  /** handleShootingOnClick at time `now`, aiming at `angle`. */
  function Click(s: Mirror, now: int, angle: real): Mirror
  {
    if s.currentWeapon == "" then s
    else if s.reloadingShown then s
    else
      var s1 := s.(lastFireTime := now);
      if s1.currentAmmo > 0 then
        var cost := AmmoToConsume(s1.currentWeapon);
        if s1.currentAmmo < cost then
          if s1.magazineCount > 0 then Reloaded(s1) else s1
        else
          var s2 := s1.(currentAmmo := s1.currentAmmo - cost, outbox := s1.outbox + [Shoot(angle)]);
          if s2.currentAmmo <= 0 then OutOfAmmo(s2) else s2
      else OutOfAmmo(s1)
  }

  /** initializeAmmo: a full magazine of the named weapon and no spare ones;
      any other string disarms. */
  function Initialized(s: Mirror, weaponType: string): Mirror
  {
    match Parse(weaponType)
    case Some(k) => s.(currentWeapon := weaponType, maxAmmo := Capacity(k), currentAmmo := Capacity(k), magazineCount := 0)
    case None => s.(currentWeapon := "", maxAmmo := 0, currentAmmo := 0, magazineCount := 0)
  }

  /** The pointerdown gate: no click in flight, and the fire rate of the
      weapon held (0 unarmed) has elapsed since the last shot. */
  predicate Accepts(s: Mirror, now: int)
  {
    var fireRate := if s.currentWeapon != "" then FireRateForWeapon(s.currentWeapon) else 0;
    !s.isShooting && now - s.lastFireTime >= fireRate
  }

  // ---- what the click handler promises ----

  /** Unarmed, or while the reloading text shows, a click changes nothing,
      not even the time of the last shot. */
  lemma ClickIgnored(s: Mirror, now: int, angle: real)
    requires s.currentWeapon == "" || s.reloadingShown
    ensures Click(s, now, angle) == s
  {
  }

  /** Otherwise the time of the last shot is taken, whether or not a shot
      follows, and nothing outside the ammunition fields moves. */
  lemma ClickStamps(s: Mirror, now: int, angle: real)
    requires s.currentWeapon != "" && !s.reloadingShown
    ensures Click(s, now, angle).lastFireTime == now
    ensures Click(s, now, angle).isShooting == s.isShooting
    ensures Click(s, now, angle).reloadingShown == s.reloadingShown
    ensures Click(s, now, angle).nextShrinkTime == s.nextShrinkTime
  {
  }

  /** Enough ammunition: the cost is taken off and one shoot request sent;
      if some ammunition is left that is all. */
  lemma ClickShoots(s: Mirror, now: int, angle: real)
    requires s.currentWeapon != "" && !s.reloadingShown
    requires s.currentAmmo >= AmmoToConsume(s.currentWeapon) && s.currentAmmo > 0
    ensures |Click(s, now, angle).outbox| > |s.outbox|
    ensures Click(s, now, angle).outbox[..|s.outbox| + 1] == s.outbox + [Shoot(angle)]
    ensures s.currentAmmo > AmmoToConsume(s.currentWeapon) ==>
      Click(s, now, angle) == s.(lastFireTime := now, currentAmmo := s.currentAmmo - AmmoToConsume(s.currentWeapon), outbox := s.outbox + [Shoot(angle)])
  {
    var c := Click(s, now, angle);
    var pre := s.outbox + [Shoot(angle)];
    assert c.outbox == pre || c.outbox == pre + [Reload] || c.outbox == pre + [DropWeapon];
    assert (pre + [Reload])[..|s.outbox| + 1] == pre;
    assert (pre + [DropWeapon])[..|s.outbox| + 1] == pre;
  }

  /** Some ammunition but less than a shot costs: no shot, the ammunition
      stays, and a reload is asked for only when magazines are left. */
  lemma ClickShort(s: Mirror, now: int, angle: real)
    requires s.currentWeapon != "" && !s.reloadingShown
    requires 0 < s.currentAmmo < AmmoToConsume(s.currentWeapon)
    ensures Click(s, now, angle) == s.(lastFireTime := now, outbox := s.outbox +
      (if s.magazineCount > 0 && s.currentAmmo != s.maxAmmo then [Reload] else []))
  {
  }

  /** No ammunition at the click: a reload when magazines are left (the
      magazine not being full), otherwise the weapon is dropped and every
      count is zero. */
  lemma ClickEmpty(s: Mirror, now: int, angle: real)
    requires s.currentWeapon != "" && !s.reloadingShown && s.currentAmmo <= 0
    ensures s.magazineCount > 0 ==> Click(s, now, angle) == s.(lastFireTime := now, outbox := s.outbox +
      (if s.currentAmmo != s.maxAmmo then [Reload] else []))
    ensures s.magazineCount <= 0 ==> Click(s, now, angle) == s.(lastFireTime := now, outbox := s.outbox + [DropWeapon],
      currentWeapon := "", maxAmmo := 0, currentAmmo := 0, magazineCount := 0)
  {
  }

  /** The shot that spends the last round: the shoot request, then a
      reload or the drop, exactly as for a click on an empty weapon. */
  lemma ClickLastRound(s: Mirror, now: int, angle: real)
    requires s.currentWeapon != "" && !s.reloadingShown
    requires s.currentAmmo > 0 && s.currentAmmo == AmmoToConsume(s.currentWeapon)
    ensures s.magazineCount > 0 ==> Click(s, now, angle) == s.(lastFireTime := now, currentAmmo := 0, outbox := s.outbox + [Shoot(angle)] +
      (if s.maxAmmo != 0 then [Reload] else []))
    ensures s.magazineCount <= 0 ==> Click(s, now, angle) == s.(lastFireTime := now, outbox := s.outbox + [Shoot(angle)] + [DropWeapon],
      currentWeapon := "", maxAmmo := 0, currentAmmo := 0, magazineCount := 0)
  {
  }

  /** The local count never goes negative: a shot is only taken when it is
      paid for, and the drop resets to 0. */
  lemma ClickKeepsAmmo(s: Mirror, now: int, angle: real)
    requires s.currentAmmo >= 0
    ensures Click(s, now, angle).currentAmmo >= 0
    ensures Click(s, now, angle).currentAmmo <= s.currentAmmo || Click(s, now, angle).currentAmmo == 0
  {
  }

  /** Each click sends at most one shoot request, and only when the ammunition
      held pays for it. */
  lemma ClickShootsOnlyWhenPaid(s: Mirror, now: int, angle: real)
    ensures var added := Click(s, now, angle).outbox[|s.outbox|..];
      |s.outbox| <= |Click(s, now, angle).outbox| <= |s.outbox| + 2
      && forall i :: 0 <= i < |added| && added[i].Shoot? ==>
           i == 0 && s.currentWeapon != "" && !s.reloadingShown
           && 0 < AmmoToConsume(s.currentWeapon) <= s.currentAmmo
  {
    var c := Click(s, now, angle);
    var o := s.outbox;
    if c.outbox == o + [Reload] || c.outbox == o + [DropWeapon] {
      assert c.outbox[|o|..] == [c.outbox[|o|]];
    } else if c.outbox == o {
      assert c.outbox[|o|..] == [];
    }
  }

  /** reloadWeapon sends exactly when a weapon is held, no reload is showing
      and the magazine is not full; it changes nothing else. */
  lemma ReloadedSends(s: Mirror)
    ensures Reloaded(s).outbox == s.outbox +
      (if s.currentWeapon != "" && !s.reloadingShown && s.currentAmmo != s.maxAmmo then [Reload] else [])
    ensures Reloaded(s).(outbox := s.outbox) == s
  {
  }

  /** initializeAmmo: 9, 30 or 20 rounds with no spare magazine for a known
      weapon; zero everything and disarm for any other string. */
  lemma InitializedCounts(s: Mirror, weaponType: string)
    ensures var r := Initialized(s, weaponType);
      r.magazineCount == 0 && r.maxAmmo == r.currentAmmo
      && (weaponType == "pistol" ==> r.currentAmmo == 9 && r.currentWeapon == "pistol")
      && (weaponType == "rifle" ==> r.currentAmmo == 30 && r.currentWeapon == "rifle")
      && (weaponType == "shotgun" ==> r.currentAmmo == 20 && r.currentWeapon == "shotgun")
      && (Parse(weaponType).None? ==> r.currentAmmo == 0 && r.currentWeapon == "")
      && r.(currentWeapon := s.currentWeapon, maxAmmo := s.maxAmmo, currentAmmo := s.currentAmmo, magazineCount := s.magazineCount) == s
  {
  }

  /** Unarmed, the fire-rate gate is open as soon as no click is in flight
      and the clock has not gone back; armed, it waits the weapon's delay. */
  lemma AcceptsGate(s: Mirror, now: int)
    ensures s.currentWeapon == "" ==> (Accepts(s, now) <==> !s.isShooting && now >= s.lastFireTime)
    ensures Parse(s.currentWeapon).Some? ==>
      (Accepts(s, now) <==> !s.isShooting && now - s.lastFireTime >= ShotDelay(Parse(s.currentWeapon).value))
  {
  }

  /** The scene's ammunition state; all rendering is left out. */
  class GameClient {
    const sessionId: string
    var currentAmmo: int
    var maxAmmo: int
    var magazineCount: int
    var currentWeapon: string
    var lastFireTime: int
    var isShooting: bool
    var reloadingShown: bool
    var nextShrinkTime: int
    var outbox: seq<Request>

    function State(): Mirror
      reads this
    {
      Mirror(currentAmmo, maxAmmo, magazineCount, currentWeapon, lastFireTime, isShooting, reloadingShown, nextShrinkTime, outbox)
    }

    /** The field initialisers of GameScene. */
    constructor(sessionId: string)
      ensures this.sessionId == sessionId
      ensures State() == Mirror(0, 0, 0, "", 0, false, false, 30, [])
    {
      this.sessionId := sessionId;
      currentAmmo := 0;
      maxAmmo := 0;
      magazineCount := 0;
      currentWeapon := "";
      lastFireTime := 0;
      isShooting := false;
      reloadingShown := false;
      nextShrinkTime := 30;
      outbox := [];
    }

    method InitializeAmmo(weaponType: string)
      modifies this
      ensures State() == Initialized(old(State()), weaponType)
    {
      currentWeapon := weaponType;
      if weaponType == "pistol" {
        maxAmmo := 9;
        currentAmmo := maxAmmo;
        magazineCount := 0;
      } else if weaponType == "rifle" {
        maxAmmo := 30;
        currentAmmo := maxAmmo;
        magazineCount := 0;
      } else if weaponType == "shotgun" {
        maxAmmo := 20;
        currentAmmo := maxAmmo;
        magazineCount := 0;
      } else {
        maxAmmo := 0;
        currentAmmo := 0;
        magazineCount := 0;
        currentWeapon := "";
      }
    }

    method ReloadWeapon()
      modifies this
      ensures State() == Reloaded(old(State()))
    {
      if currentWeapon == "" {
        return;
      }
      if reloadingShown {
        return;
      }
      if currentAmmo == maxAmmo {
        return;
      }
      outbox := outbox + [Reload];
    }

    /** The branch handleShootingOnClick repeats for an empty weapon. */
    method OutOfAmmunition()
      modifies this
      ensures State() == OutOfAmmo(old(State()))
    {
      if magazineCount > 0 {
        ReloadWeapon();
      } else {
        outbox := outbox + [DropWeapon];
        currentWeapon := "";
        maxAmmo := 0;
        currentAmmo := 0;
        magazineCount := 0;
      }
    }

    /** handleShootingOnClick; `angle` is the player's rotation. */
    method HandleShootingOnClick(now: int, angle: real)
      modifies this
      ensures State() == Click(old(State()), now, angle)
    {
      if currentWeapon != "" {
        if reloadingShown {
          return;
        }
        lastFireTime := now;
        if currentAmmo > 0 {
          var ammoToConsume := 1;
          if currentWeapon == "rifle" {
            ammoToConsume := 5;
          } else if currentWeapon == "shotgun" {
            ammoToConsume := 5;
          } else if currentWeapon == "pistol" {
            ammoToConsume := 1;
          }
          if currentAmmo < ammoToConsume {
            if magazineCount > 0 {
              ReloadWeapon();
            }
            return;
          }
          currentAmmo := currentAmmo - ammoToConsume;
          outbox := outbox + [Shoot(angle)];
          if currentAmmo <= 0 {
            OutOfAmmunition();
          }
        } else {
          OutOfAmmunition();
        }
      }
    }

    /** The pointerdown listener: a click in flight or a fire rate not yet
        elapsed ignores the click; otherwise the in-flight flag is raised
        and the click handled. */
    method PointerDown(now: int, angle: real)
      modifies this
      ensures State() == if Accepts(old(State()), now) then Click(old(State()).(isShooting := true), now, angle) else old(State())
    {
      var fireRate := if currentWeapon != "" then FireRateForWeapon(currentWeapon) else 0;
      if !isShooting && now - lastFireTime >= fireRate {
        isShooting := true;
        HandleShootingOnClick(now, angle);
      }
    }

    /** The body of the 100 ms delayedCall pointerdown schedules. */
    method ClickSettled()
      modifies this
      ensures State() == old(State()).(isShooting := false)
    {
      isShooting := false;
    }

    /** updateLocalTimer, once a second: counts down to 0 and stops there. */
    method UpdateLocalTimer()
      modifies this
      ensures State() == old(State()).(nextShrinkTime := if old(nextShrinkTime) > 0 then old(nextShrinkTime) - 1 else old(nextShrinkTime))
      ensures old(nextShrinkTime) >= 0 ==> 0 <= nextShrinkTime <= old(nextShrinkTime)
    {
      if nextShrinkTime > 0 {
        nextShrinkTime := nextShrinkTime - 1;
      }
    }

    /** showReloadingMessage / hideReloadingMessage, as far as the
        visibility of the reloading text goes. */
    method ShowReloading(visible: bool)
      modifies this
      ensures State() == old(State()).(reloadingShown := visible)
    {
      reloadingShown := visible;
    }

    /** The ammoUpdate message: the room's count replaces the local one. */
    method OnAmmoUpdate(playerId: string, ammo: int)
      modifies this
      ensures State() == if playerId == sessionId then old(State()).(currentAmmo := ammo) else old(State())
    {
      if playerId == sessionId {
        currentAmmo := ammo;
      }
    }

    /** The magazineUpdate message (its pickup notification is rendering). */
    method OnMagazineUpdate(playerId: string, magazines: int)
      modifies this
      ensures State() == if playerId == sessionId then old(State()).(magazineCount := magazines) else old(State())
    {
      if playerId == sessionId {
        magazineCount := magazines;
      }
    }

    /** The weaponUpdate message: "" disarms and zeroes the counts, any other
        string goes through initializeAmmo. */
    method OnWeaponUpdate(playerId: string, weapon: string)
      modifies this
      ensures playerId != sessionId ==> State() == old(State())
      ensures playerId == sessionId && weapon == "" ==>
        State() == old(State()).(currentWeapon := "", maxAmmo := 0, currentAmmo := 0, magazineCount := 0)
      ensures playerId == sessionId && weapon != "" ==> State() == Initialized(old(State()), weapon)
    {
      if playerId == sessionId {
        currentWeapon := weapon;
        if currentWeapon == "" {
          maxAmmo := 0;
          currentAmmo := 0;
          magazineCount := 0;
        } else {
          InitializeAmmo(currentWeapon);
        }
      }
    }
  }
}
