/** The battle-royale room: the replicated state (players, bullets, weapons,
    safe zone), the message handlers, the pending timers and the per-tick
    game loop, as one object whose methods update it in place. */
module BattleRoyale {
  import opened Wrappers
  import opened Weapons
  import opened Entities
  import opened Combat
  import opened Zone
  import opened Allocation
  import opened Sweeps
  import opened Motion

  /** One turn of the pellet loop of fireShotgunSpread. */
  lemma PelletStep(b0: map<nat, Bullet>, n0: nat, x: real, y: real, rotation: real, owner: string, i: nat)
    requires i < 5
    ensures var pellets := Volley(Shotgun, x, y, rotation, owner);
      (b0 + Numbered(n0, pellets[..i]))[n0 + i := Bullet(x, y, PelletAngle(rotation, i), owner, Damage(Shotgun), Speed(Shotgun))]
      == b0 + Numbered(n0, pellets[..i + 1])
  {
    var pellets := Volley(Shotgun, x, y, rotation, owner);
    NumberedSnoc(b0, n0, pellets[..i], pellets[i]);
    assert pellets[..i + 1] == pellets[..i] + [pellets[i]];
  }

  /** The counting forEach of checkWinCondition (and of an elimination):
      how many players among ids are alive, and which living one it saw last. */
  method CountAlive(ps: map<string, Player>, ids: seq<string>) returns (alivePlayers: nat, lastAlivePlayerId: string)
    ensures alivePlayers == AliveIn(ps, ids)
    ensures lastAlivePlayerId == LastAlive(ps, ids)
  {
    alivePlayers := 0;
    lastAlivePlayerId := "";
    for i := 0 to |ids|
      invariant alivePlayers == AliveIn(ps, ids[..i])
      invariant lastAlivePlayerId == LastAlive(ps, ids[..i])
    {
      var id := ids[i];
      assert ids[..i + 1][..i] == ids[..i];
      if id in ps && ps[id].isAlive {
        alivePlayers := alivePlayers + 1;
        lastAlivePlayerId := id;
      }
    }
    assert ids[..|ids|] == ids;
  }

  /** The player loop of checkSafeZone and checkCollisions against hazard
      h, over the players and the broadcast log s0: every living player h
      strikes, in order, takes the damage, and a player it kills is
      announced with the count of players still alive; `struck` tells
      whether h struck anyone. */
  method RunPass(s0: Sweep, order: seq<string>, h: Hazard) returns (s: Sweep, struck: bool)
    requires Distinct(order)
    ensures s == HazardSweep(s0, order, h, |order|)
    ensures struck == AnyStruck(s0, order, h)
  {
    var ps, es := s0.players, s0.events;
    struck := false;
    for i := 0 to |order|
      invariant Sweep(ps, es) == HazardSweep(s0, order, h, i)
      invariant struck == StruckBefore(s0, order, h, i)
    {
      var id := order[i];
      if id in s0.players {
        HazardSweepEffect(s0, order, h, i, id);
        assert id !in order[..i];
      }
      if id in ps && Strikes(h, id, ps[id]) {
        struck := true;
        var player := Wound(ps[id], HazardDamage(h));
        ps := ps[id := player];
        if player.health <= 0 {
          var playersLeft, _ := CountAlive(ps, order);
          es := es + [PlayerEliminated(id, playersLeft)];
        }
      }
    }
    s := Sweep(ps, es);
  }

  class Room {
    // State.players, in insertion order (the order every forEach visits).
    var players: map<string, Player>
    var order: seq<string>
    // Records of players that have left; pending timers still hold them.
    var detached: map<string, Player>
    // State.bullets and State.weapons, keyed by fresh ids in creation order.
    var bullets: map<nat, Bullet>
    var nextBulletId: nat
    var weapons: map<nat, WeaponItem>
    var nextWeaponId: nat
    var colliders: seq<Collider>
    var shrinkTimer: int
    var nextShrinkTime: int
    var safeZoneRadius: int
    var zoneActive: bool
    // Whether gameOver has been broadcast (the latch of the corrected win check).
    var gameOverAnnounced: bool
    // Broadcasts, per-client sends and pending timeouts, oldest first.
    var events: seq<Event>
    var sent: seq<Direct>
    var scheduled: seq<Deferred>

    ghost predicate PlayersValid()
      reads this`players, this`order, this`detached
    {
      && Distinct(order)
      && (forall id :: id in players <==> id in order)
      && (forall id :: id in players ==> Consistent(players[id]))
      && (forall id :: id in detached ==> Consistent(detached[id]))
    }

    ghost predicate BulletsValid()
      reads this`bullets, this`nextBulletId
    {
      forall id :: id in bullets ==> id < nextBulletId && bullets[id].damage > 0
    }

    ghost predicate WeaponsValid()
      reads this`weapons, this`nextWeaponId
    {
      forall id :: id in weapons ==> id < nextWeaponId
    }

    ghost predicate ZoneValid()
      reads this`shrinkTimer, this`nextShrinkTime, this`safeZoneRadius
    {
      WellFormed(ZoneClock(shrinkTimer, nextShrinkTime, safeZoneRadius))
    }

    /** gameOver has been broadcast at most once, and exactly when latched. */
    ghost predicate Announced()
      reads this`events, this`gameOverAnnounced
    {
      GameOverCount(events) == (if gameOverAnnounced then 1 else 0)
    }

    ghost predicate CoreValid()
      reads this`players, this`order, this`detached, this`bullets, this`nextBulletId, this`weapons, this`nextWeaponId
      reads this`shrinkTimer, this`nextShrinkTime, this`safeZoneRadius
    {
      PlayersValid() && BulletsValid() && WeaponsValid() && ZoneValid()
    }

    ghost predicate Valid()
      reads this`players, this`order, this`detached, this`bullets, this`nextBulletId, this`weapons, this`nextWeaponId
      reads this`shrinkTimer, this`nextShrinkTime, this`safeZoneRadius, this`events, this`gameOverAnnounced
    {
      CoreValid() && Announced()
    }

    function Clock(): ZoneClock
      reads this`shrinkTimer, this`nextShrinkTime, this`safeZoneRadius
    {
      ZoneClock(shrinkTimer, nextShrinkTime, safeZoneRadius)
    }

    /** A fresh room: the initial state of the schema (no players, bullets or
        weapons, the zone at its initial radius with a 5-second countdown,
        zone inactive). */
    constructor()
      ensures Valid()
      ensures players == map[] && order == [] && detached == map[]
      ensures bullets == map[] && nextBulletId == 0 && weapons == map[] && nextWeaponId == 0
      ensures colliders == [] && !zoneActive && !gameOverAnnounced
      ensures Clock() == ZoneClock(ShrinkPeriod, ShrinkPeriod, InitialRadius)
      ensures events == [] && sent == [] && scheduled == []
    {
      players := map[];
      order := [];
      detached := map[];
      bullets := map[];
      nextBulletId := 0;
      weapons := map[];
      nextWeaponId := 0;
      colliders := [];
      shrinkTimer := ShrinkPeriod;
      nextShrinkTime := ShrinkPeriod;
      safeZoneRadius := InitialRadius;
      zoneActive := false;
      gameOverAnnounced := false;
      events := [];
      sent := [];
      scheduled := [];
    }

    /** onCreate: max(10, minWeapons) = 15 weapons spread over the map, the
        zone reset to its initial radius and countdown and switched on, and
        the zone broadcast. */
    method OnCreate(sectors: seq<int>, place: (Slot, nat) -> Placement)
      requires Valid() && |sectors| == 8
      modifies this`weapons, this`nextWeaponId, this`shrinkTimer, this`nextShrinkTime, this`safeZoneRadius, this`zoneActive, this`events
      ensures Valid()
      ensures Stocked(old(weapons), weapons, old(nextWeaponId), Plan(MinWeapons, sectors), place)
      ensures nextWeaponId == old(nextWeaponId) + MinWeapons
      ensures zoneActive && Clock() == ZoneClock(ShrinkPeriod, ShrinkPeriod, InitialRadius)
      ensures events == old(events) + [ZoneShrink(ZoneCentreX, ZoneCentreY, InitialRadius, ShrinkPeriod)]
    {
      var count := Max(10, MinWeapons);
      GenerateWeapons(count, sectors, place);
      StartZone();
    }

    /** The zone part of onCreate: initial radius and countdown, switched on
        and broadcast. */
    method StartZone()
      requires Valid()
      modifies this`shrinkTimer, this`nextShrinkTime, this`safeZoneRadius, this`zoneActive, this`events
      ensures Valid()
      ensures zoneActive && Clock() == ZoneClock(ShrinkPeriod, ShrinkPeriod, InitialRadius)
      ensures events == old(events) + [ZoneShrink(ZoneCentreX, ZoneCentreY, InitialRadius, ShrinkPeriod)]
    {
      safeZoneRadius := InitialRadius;
      shrinkTimer := ShrinkPeriod;
      nextShrinkTime := ShrinkPeriod;
      zoneActive := true;
      Broadcast(ZoneShrink(ZoneCentreX, ZoneCentreY, safeZoneRadius, nextShrinkTime));
    }

    /** shrinkZone, once a second: the zone is switched on and the countdown
        steps (ShrinkStep). When it runs out the radius shrinks, zoneUpdate
        is broadcast and new weapons appear near the centre; otherwise only
        zoneTimer is broadcast and the pool is untouched. */
    method ShrinkZone(place: (Slot, nat) -> Placement)
      requires Valid()
      modifies this`zoneActive, this`shrinkTimer, this`nextShrinkTime, this`safeZoneRadius, this`events
      modifies this`weapons, this`nextWeaponId
      ensures Valid() && zoneActive
      ensures Clock() == ShrinkStep(old(Clock()))
      ensures ShrinksNow(old(Clock())) ==>
        && events == old(events) + [ZoneUpdate(ZoneCentreX, ZoneCentreY, safeZoneRadius, nextShrinkTime)]
        && Stocked(old(weapons), weapons, old(nextWeaponId), InnerSlots(WeaponsForRadius(safeZoneRadius)), place)
        && nextWeaponId == old(nextWeaponId) + WeaponsForRadius(safeZoneRadius)
      ensures !ShrinksNow(old(Clock())) ==>
        events == old(events) + [ZoneTimer(nextShrinkTime)] && weapons == old(weapons) && nextWeaponId == old(nextWeaponId)
    {
      var shrunk := Countdown();
      assert Valid();
      if shrunk {
        AnnounceShrink(place);
      } else {
        Broadcast(ZoneTimer(nextShrinkTime));
      }
    }

    /** The shrinking branch of shrinkZone: zoneUpdate is broadcast with the
        new radius and the weapons for that radius appear near the centre. */
    method AnnounceShrink(place: (Slot, nat) -> Placement)
      requires Valid()
      modifies this`events, this`weapons, this`nextWeaponId
      ensures Valid()
      ensures events == old(events) + [ZoneUpdate(ZoneCentreX, ZoneCentreY, safeZoneRadius, nextShrinkTime)]
      ensures Stocked(old(weapons), weapons, old(nextWeaponId), InnerSlots(WeaponsForRadius(safeZoneRadius)), place)
      ensures nextWeaponId == old(nextWeaponId) + WeaponsForRadius(safeZoneRadius)
    {
      Broadcast(ZoneUpdate(ZoneCentreX, ZoneCentreY, safeZoneRadius, nextShrinkTime));
      GenerateNewWeaponsInShrinkingZone(safeZoneRadius, place);
    }

    /** The countdown of shrinkZone: the timer is decremented and copied
        into nextShrinkTime; once it is at 0 or below both restart at 5 and
        the radius drops to max(200, r - 250). `shrunk` tells which. */
    method Countdown() returns (shrunk: bool)
      requires ZoneValid()
      modifies this`zoneActive, this`shrinkTimer, this`nextShrinkTime, this`safeZoneRadius
      ensures ZoneValid() && zoneActive
      ensures Clock() == ShrinkStep(old(Clock())) && shrunk == ShrinksNow(old(Clock()))
    {
      zoneActive := true;
      shrinkTimer := shrinkTimer - 1;
      nextShrinkTime := shrinkTimer;
      shrunk := shrinkTimer <= 0;
      if shrunk {
        shrinkTimer := ShrinkPeriod;
        nextShrinkTime := ShrinkPeriod;
        safeZoneRadius := Max(MinRadius, safeZoneRadius - ShrinkSpeed);
      }
    }

    /** `this.broadcast` of any message but gameOver. */
    method Broadcast(e: Event)
      requires Announced() && !e.GameOver?
      modifies this`events
      ensures Announced() && events == old(events) + [e]
    {
      NoGameOverAdded(events, [e]);
      events := events + [e];
    }

    // ---- the weapon pool ----

    /** generateWeaponInSector: one weapon, placed by the planner, under a fresh id. */
    method GenerateWeaponInSector(slot: Slot, place: (Slot, nat) -> Placement)
      requires WeaponsValid()
      modifies this`weapons, this`nextWeaponId
      ensures WeaponsValid()
      ensures weapons == old(weapons)[old(nextWeaponId) := ItemFor(place(slot, old(nextWeaponId)))]
      ensures nextWeaponId == old(nextWeaponId) + 1
    {
      var w := ItemFor(place(slot, nextWeaponId));
      weapons := weapons[nextWeaponId := w];
      nextWeaponId := nextWeaponId + 1;
    }

    /** The loop of generateWeapons over one quadrant (or the centre). */
    method PlaceQuadrant(quadrant: Quadrant, quadrantCount: nat, place: (Slot, nat) -> Placement)
      requires WeaponsValid()
      modifies this`weapons, this`nextWeaponId
      ensures WeaponsValid()
      ensures Stocked(old(weapons), weapons, old(nextWeaponId), QuadrantSlots(quadrant, quadrantCount), place)
      ensures nextWeaponId == old(nextWeaponId) + quadrantCount
    {
      ghost var start := nextWeaponId;
      StockedNone(weapons, start, place);
      var i := 0;
      while i < quadrantCount
        invariant 0 <= i <= quadrantCount
        invariant nextWeaponId == start + i
        invariant Stocked(old(weapons), weapons, start, QuadrantSlots(quadrant, i), place)
        invariant WeaponsValid()
      {
        var slot := if quadrant.name == "Centre" then Centre
                    else Sector(quadrant.sectorStart + (if i % 2 == 0 then 0 else 1));
        assert slot == QuadrantSlot(quadrant, i);
        ghost var before := QuadrantSlots(quadrant, i);
        label step:
        GenerateWeaponInSector(slot, place);
        StockedSnoc(old(weapons), old@step(weapons), start, before, slot, place);
        QuadrantSlotsSnoc(quadrant, i);
        i := i + 1;
      }
    }

    /** The loop of generateWeapons over the leftover weapons. */
    method PlaceRemainder(sectors: seq<int>, remaining: nat, place: (Slot, nat) -> Placement)
      requires WeaponsValid() && |sectors| == 8
      modifies this`weapons, this`nextWeaponId
      ensures WeaponsValid()
      ensures Stocked(old(weapons), weapons, old(nextWeaponId), RemainderSlots(sectors, remaining), place)
      ensures nextWeaponId == old(nextWeaponId) + remaining
    {
      ghost var start := nextWeaponId;
      StockedNone(weapons, start, place);
      var i := 0;
      while i < remaining
        invariant 0 <= i <= remaining
        invariant nextWeaponId == start + i
        invariant Stocked(old(weapons), weapons, start, RemainderSlots(sectors, i), place)
        invariant WeaponsValid()
      {
        var slot := Sector(sectors[i % 8]);
        ghost var before := RemainderSlots(sectors, i);
        label step:
        GenerateWeaponInSector(slot, place);
        StockedSnoc(old(weapons), old@step(weapons), start, before, slot, place);
        RemainderSlotsSnoc(sectors, i);
        i := i + 1;
      }
    }

    /** One turn of the first loop of generateWeapons: quadrant q gets
        min(minPerQuadrant, remainingCount) weapons. */
    method PlaceShare(count: nat, q: nat, remaining: nat, ghost m0: map<nat, WeaponItem>, ghost start: nat, place: (Slot, nat) -> Placement)
        returns (remaining': nat)
      requires q < 5 && WeaponsValid() && remaining == Remaining(count, q)
      requires Stocked(m0, weapons, start, QuadrantPlan(count, q), place)
      requires nextWeaponId == start + |QuadrantPlan(count, q)|
      modifies this`weapons, this`nextWeaponId
      ensures WeaponsValid() && remaining' == Remaining(count, q + 1)
      ensures Stocked(m0, weapons, start, QuadrantPlan(count, q + 1), place)
      ensures nextWeaponId == start + |QuadrantPlan(count, q + 1)|
    {
      var quadrantCount := Min(MinPerQuadrant(count), remaining);
      remaining' := remaining - quadrantCount;
      QuadrantStep(count, q);
      ghost var done := QuadrantPlan(count, q);
      ghost var slots := QuadrantSlots(Quadrants[q], quadrantCount);
      ghost var before, mid := weapons, nextWeaponId;
      PlaceQuadrant(Quadrants[q], quadrantCount, place);
      StockedAppend(m0, before, weapons, start, mid, done, slots, place);
    }

    /** The first loop of generateWeapons: each quadrant, then the centre,
        gets its share of the count. */
    method PlaceQuadrants(count: nat, place: (Slot, nat) -> Placement) returns (remaining: nat)
      requires WeaponsValid()
      modifies this`weapons, this`nextWeaponId
      ensures WeaponsValid()
      ensures remaining == Remaining(count, 5)
      ensures Stocked(old(weapons), weapons, old(nextWeaponId), QuadrantPlan(count, 5), place)
      ensures nextWeaponId == old(nextWeaponId) + |QuadrantPlan(count, 5)|
    {
      ghost var start := nextWeaponId;
      StockedNone(weapons, start, place);
      remaining := count;
      var q := 0;
      while q < 5
        invariant 0 <= q <= 5 && WeaponsValid() && remaining == Remaining(count, q)
        invariant Stocked(old(weapons), weapons, start, QuadrantPlan(count, q), place)
        invariant nextWeaponId == start + |QuadrantPlan(count, q)|
      {
        remaining := PlaceShare(count, q, remaining, old(weapons), start, place);
        q := q + 1;
      }
    }

    /** generateWeapons(count): the quadrants and the centre first, then the
        leftover round-robin over the shuffled sectors. */
    method GenerateWeapons(count: nat, sectors: seq<int>, place: (Slot, nat) -> Placement)
      requires WeaponsValid() && |sectors| == 8
      modifies this`weapons, this`nextWeaponId
      ensures WeaponsValid()
      ensures Stocked(old(weapons), weapons, old(nextWeaponId), Plan(count, sectors), place)
      ensures nextWeaponId == old(nextWeaponId) + count
    {
      ghost var done := QuadrantPlan(count, 5);
      var remaining := PlaceQuadrants(count, place);
      ghost var middle, mid := weapons, nextWeaponId;
      PlaceRemainder(sectors, remaining, place);
      StockedAppend(old(weapons), middle, weapons, old(nextWeaponId), mid, done, RemainderSlots(sectors, remaining), place);
      PlanLength(count, sectors);
    }

    /** ensureMinimumWeapons: a pool below 15 is topped up to exactly 15
        by generateWeapons, a pool above 20 trimmed to exactly 20, and any
        other pool left alone. */
    method EnsureMinimumWeapons(sectors: seq<int>, place: (Slot, nat) -> Placement)
      requires Valid() && |sectors| == 8
      modifies this`weapons, this`nextWeaponId
      ensures Valid()
      ensures Restocked(old(weapons), weapons, old(nextWeaponId), sectors, place)
      ensures MinWeapons <= |weapons| <= MaxWeapons
    {
      var currentWeaponCount := |weapons|;
      if currentWeaponCount < MinWeapons {
        var weaponsToAdd := MinWeapons - currentWeaponCount;
        GenerateWeapons(weaponsToAdd, sectors, place);
        StockedSize(old(weapons), weapons, old(nextWeaponId), Plan(weaponsToAdd, sectors), place);
        PlanLength(weaponsToAdd, sectors);
      } else if currentWeaponCount > MaxWeapons {
        RemoveExcessWeapons(currentWeaponCount - MaxWeapons);
      }
    }

    /** removeExcessWeapons(count): min(count, size) weapons, in an order
        the room shuffles at random, are deleted; the rest stay as they were. */
    method RemoveExcessWeapons(count: nat)
      requires WeaponsValid()
      modifies this`weapons
      ensures WeaponsValid()
      ensures |weapons| == old(|weapons|) - Min(count, old(|weapons|))
      ensures weapons.Keys <= old(weapons).Keys
      ensures forall id :: id in weapons ==> weapons[id] == old(weapons)[id]
    {
      var n := Min(count, |weapons|);
      for i := 0 to n
        invariant |weapons| == old(|weapons|) - i
        invariant weapons.Keys <= old(weapons).Keys
        invariant forall id :: id in weapons ==> weapons[id] == old(weapons)[id]
      {
        var weaponId :| weaponId in weapons;
        assert (weapons - {weaponId}).Keys == weapons.Keys - {weaponId};
        weapons := weapons - {weaponId};
      }
    }

    /** generateNewWeaponsInShrinkingZone: max(1, floor(3 * min(1, r / 1000)))
        weapons close to the centre (variation level 0, random sector). */
    method GenerateNewWeaponsInShrinkingZone(newRadius: int, place: (Slot, nat) -> Placement)
      requires WeaponsValid()
      modifies this`weapons, this`nextWeaponId
      ensures WeaponsValid()
      ensures Stocked(old(weapons), weapons, old(nextWeaponId), InnerSlots(WeaponsForRadius(newRadius)), place)
      ensures nextWeaponId == old(nextWeaponId) + WeaponsForRadius(newRadius)
    {
      var weaponsToAdd := WeaponsForRadius(newRadius);
      ghost var start := nextWeaponId;
      StockedNone(weapons, start, place);
      for i := 0 to weaponsToAdd
        invariant WeaponsValid() && nextWeaponId == start + i
        invariant Stocked(old(weapons), weapons, start, InnerSlots(i), place)
      {
        ghost var before := InnerSlots(i);
        label step:
        GenerateWeaponInSector(Inner, place);
        StockedSnoc(old(weapons), old@step(weapons), start, before, Inner, place);
        assert InnerSlots(i + 1) == before + [Inner];
      }
    }

    // ---- players joining and leaving ----

    /** onJoin: a fresh unarmed player at the spawn position the room picked
        (findSafeSpawnPosition is random, so the position is a parameter),
        then the zone state and the ammunition sent to that client alone. */
    method Join(id: string, x: real, y: real)
      requires Valid() && id !in players && id !in detached
      modifies this`players, this`order, this`sent
      ensures Valid()
      ensures players == old(players)[id := NewPlayer(x, y)] && order == old(order) + [id]
      ensures sent == old(sent) + [Direct(id, ZoneShrink(ZoneCentreX, ZoneCentreY, safeZoneRadius, nextShrinkTime)),
                                   Direct(id, AmmoUpdate(id, 0))]
    {
      NewPlayerConsistent(x, y);
      var player := NewPlayer(x, y);
      players := players[id := player];
      order := order + [id];
      sent := sent + [Direct(id, ZoneShrink(ZoneCentreX, ZoneCentreY, safeZoneRadius, nextShrinkTime)),
                      Direct(id, AmmoUpdate(id, player.ammo))];
    }

    /** The deletion onLeave makes: the player leaves the state; its record
        lives on in the timers that captured it. */
    method RemovePlayer(id: string)
      requires Valid()
      modifies this`players, this`order, this`detached
      ensures Valid()
      ensures players == old(players) - {id} && order == Without(old(order), id)
      ensures detached == if id in old(players) then old(detached)[id := old(players)[id]] else old(detached)
    {
      if id in players {
        detached := detached[id := players[id]];
      }
      players := players - {id};
      order := Without(order, id);
    }

    /** onLeave: the player is deleted from the state, then the win
        condition is checked. The check run here is the latched
        CheckWinConditionOnce, not the as-written CheckWinCondition, so a
        leave after the game is over broadcasts no second gameOver. */
    method Leave(id: string)
      requires Valid()
      modifies this`players, this`order, this`detached, this`events, this`gameOverAnnounced
      ensures Valid()
      ensures players == old(players) - {id} && order == Without(old(order), id)
      ensures detached == if id in old(players) then old(detached)[id := old(players)[id]] else old(detached)
      ensures events == old(events) + Announcement(old(gameOverAnnounced), players, order)
      ensures gameOverAnnounced == (old(gameOverAnnounced) || WinCheck(players, order).Some?)
    {
      RemovePlayer(id);
      CheckWinConditionOnce();
    }

    // ---- the win condition ----

    /** checkWinCondition as written: nothing remembers that the game is
        over, so every call while one player of several is alive broadcasts
        gameOver again (the game loop calls it every tick). */
    method CheckWinCondition()
      modifies this`events
      ensures events == old(events) + Announcement(false, players, order)
    {
      var alivePlayers, lastAlivePlayerId := CountAlive(players, order);
      if alivePlayers == 1 && |players| > 1 {
        events := events + [GameOver(lastAlivePlayerId)];
      }
    }

    /** The win check with a latch: gameOver is broadcast the first time one
        player of several is alive, and never again. */
    method CheckWinConditionOnce()
      requires Valid()
      modifies this`events, this`gameOverAnnounced
      ensures Valid()
      ensures events == old(events) + Announcement(old(gameOverAnnounced), players, order)
      ensures gameOverAnnounced == (old(gameOverAnnounced) || WinCheck(players, order).Some?)
    {
      if !gameOverAnnounced {
        var alivePlayers, lastAlivePlayerId := CountAlive(players, order);
        if alivePlayers == 1 && |players| > 1 {
          GameOverCountAppend(events, [GameOver(lastAlivePlayerId)]);
          assert GameOverCount([GameOver(lastAlivePlayerId)]) == 1;
          events := events + [GameOver(lastAlivePlayerId)];
          gameOverAnnounced := true;
        }
      }
    }

    // ---- message handlers ----

    /** The "move" message of a living player: the position changes when both
        coordinates are finite numbers, the rotation when it is one (a missing
        or non-finite number is None). */
    method Move(id: string, x: Option<real>, y: Option<real>, rotation: Option<real>)
      requires Valid()
      modifies this`players
      ensures Valid()
      ensures players == if id in old(players) && old(players)[id].isAlive
                         then old(players)[id := Steered(old(players)[id], x, y, rotation)] else old(players)
    {
      if id in players && players[id].isAlive {
        SteeredConsistent(players[id], x, y, rotation);
        players := players[id := Steered(players[id], x, y, rotation)];
      }
    }

    /** The "rotate" message: the rotation of a living player, when finite. */
    method Rotate(id: string, rotation: Option<real>)
      requires Valid()
      modifies this`players
      ensures Valid()
      ensures players == if id in old(players) && old(players)[id].isAlive && rotation.Some?
                         then old(players)[id := old(players)[id].(rotation := rotation.value)] else old(players)
    {
      if id in players && players[id].isAlive && rotation.Some? {
        SteeredConsistent(players[id], None, None, rotation);
        players := players[id := Steered(players[id], None, None, rotation)];
      }
    }

    /** createBullet, for the weapon whose damage and speed the caller passes. */
    method CreateBullet(x: real, y: real, rotation: real, k: WeaponType, owner: string)
      requires BulletsValid()
      modifies this`bullets, this`nextBulletId
      ensures BulletsValid()
      ensures bullets == old(bullets)[old(nextBulletId) := Bullet(x, y, rotation, owner, Damage(k), Speed(k))]
      ensures nextBulletId == old(nextBulletId) + 1
    {
      bullets := bullets[nextBulletId := Bullet(x, y, rotation, owner, Damage(k), Speed(k))];
      nextBulletId := nextBulletId + 1;
    }

    /** fireShotgunSpread: five pellets fanned around the rotation. */
    method FireShotgunSpread(x: real, y: real, rotation: real, owner: string)
      requires BulletsValid()
      modifies this`bullets, this`nextBulletId
      ensures BulletsValid()
      ensures bullets == old(bullets) + Numbered(old(nextBulletId), Volley(Shotgun, x, y, rotation, owner))
      ensures nextBulletId == old(nextBulletId) + 5
    {
      ghost var pellets, b0, n0 := Volley(Shotgun, x, y, rotation, owner), bullets, nextBulletId;
      var startAngle := rotation - SpreadAngle / 2.0;
      var angleIncrement := SpreadAngle / 4.0;
      for i := 0 to 5
        invariant nextBulletId == n0 + i
        invariant bullets == b0 + Numbered(n0, pellets[..i])
        invariant BulletsValid()
      {
        var angle := startAngle + angleIncrement * (i as real);
        assert angle == PelletAngle(rotation, i);
        PelletStep(b0, n0, x, y, rotation, owner, i);
        CreateBullet(x, y, angle, Shotgun, owner);
      }
      assert pellets[..5] == pellets;
    }

    /** fireRifleBurst: the first bullet at once, and one timer per follow-up
        bullet, 100 ms and 200 ms later. */
    method FireRifleBurst(x: real, y: real, rotation: real, owner: string)
      requires BulletsValid()
      modifies this`bullets, this`nextBulletId, this`scheduled
      ensures BulletsValid()
      ensures bullets == old(bullets)[old(nextBulletId) := Bullet(x, y, rotation, owner, Damage(Rifle), Speed(Rifle))]
      ensures nextBulletId == old(nextBulletId) + 1
      ensures scheduled == old(scheduled) + BurstTimers(owner, rotation)
    {
      CreateBullet(x, y, rotation, Rifle, owner);
      ghost var b1, n1 := bullets, nextBulletId;
      var burstInterval := 100;
      for i := 1 to 3
        invariant bullets == b1 && nextBulletId == n1
        invariant scheduled == old(scheduled) + BurstTimers(owner, rotation)[..i - 1]
      {
        scheduled := scheduled + [BurstShot(owner, rotation, i * burstInterval)];
      }
    }

    /** The firing branch of the shoot handler: the bullets of weapon k
        leave at once, and the rifle also sets its follow-up timers. */
    method Fire(k: WeaponType, x: real, y: real, rotation: real, owner: string)
      requires BulletsValid()
      modifies this`bullets, this`nextBulletId, this`scheduled
      ensures BulletsValid()
      ensures bullets == old(bullets) + Numbered(old(nextBulletId), Volley(k, x, y, rotation, owner))
      ensures nextBulletId == old(nextBulletId) + |Volley(k, x, y, rotation, owner)|
      ensures scheduled == old(scheduled) + (if k == Rifle then BurstTimers(owner, rotation) else [])
    {
      if k == Rifle {
        NumberedOne(bullets, nextBulletId, Bullet(x, y, rotation, owner, Damage(Rifle), Speed(Rifle)));
        FireRifleBurst(x, y, rotation, owner);
      } else if k == Shotgun {
        FireShotgunSpread(x, y, rotation, owner);
      } else {
        NumberedOne(bullets, nextBulletId, Bullet(x, y, rotation, owner, Damage(Pistol), Speed(Pistol)));
        CreateBullet(x, y, rotation, Pistol, owner);
      }
    }

    /** A change to the record of a connected player (the handlers assign its
        fields in place), followed by the broadcasts that report it. */
    method UpdatePlayer(id: string, p: Player, es: seq<Event>)
      requires Valid() && id in players && Consistent(p)
      requires forall i :: 0 <= i < |es| ==> !es[i].GameOver?
      modifies this`players, this`events
      ensures Valid() && players == old(players)[id := p] && events == old(events) + es
    {
      NoGameOverAdded(events, es);
      players := players[id := p];
      events := events + es;
    }

    /** The "shoot" message. The guards, in the handler's order, are those of
        Verdict; a refused shot and one that waits for a reload do nothing,
        an exhausted weapon is lost, and an accepted shot is paid for and
        fired. */
    method Shoot(id: string, rotation: Option<real>, now: int)
      requires Valid()
      modifies this`players, this`bullets, this`nextBulletId, this`events, this`scheduled
      ensures Valid()
      ensures id !in old(players) ==>
        players == old(players) && events == old(events) && bullets == old(bullets)
        && nextBulletId == old(nextBulletId) && scheduled == old(scheduled)
      ensures id in old(players) ==>
        var e := ShootEffect(id, old(players)[id], rotation, now);
        && players == old(players)[id := e.player] && events == old(events) + e.broadcasts
        && bullets == old(bullets) + Numbered(old(nextBulletId), e.volley)
        && nextBulletId == old(nextBulletId) + |e.volley|
        && scheduled == old(scheduled) + e.deferred
    {
      if id in players {
        var player := players[id];
        NumberedNone(bullets, nextBulletId);
        match Verdict(player, rotation, now)
        case Refused =>
          assert players == players[id := player];
        case AwaitReload =>
          assert players == players[id := player];
        case Exhausted =>
          DisarmedConsistent(player);
          UpdatePlayer(id, Disarmed(player), [WeaponUpdate(id, ""), AmmoUpdate(id, 0)]);
        case Fire(k) =>
          ShotKeepsConsistent(player, rotation, now);
          AcceptShot(id, k, rotation.value, now);
      }
    }

    /** An accepted shot: the time is recorded, the cost paid and reported,
        and the weapon fired from the shooter's position. */
    method AcceptShot(id: string, k: WeaponType, rotation: real, now: int)
      requires Valid() && id in players && Consistent(Shot(players[id], k, now))
      modifies this`players, this`bullets, this`nextBulletId, this`events, this`scheduled
      ensures Valid()
      ensures var p := old(players)[id];
        && players == old(players)[id := Shot(p, k, now)]
        && events == old(events) + [AmmoUpdate(id, Shot(p, k, now).ammo)]
        && bullets == old(bullets) + Numbered(old(nextBulletId), Volley(k, p.x, p.y, rotation, id))
        && nextBulletId == old(nextBulletId) + |Volley(k, p.x, p.y, rotation, id)|
        && scheduled == old(scheduled) + (if k == Rifle then BurstTimers(id, rotation) else [])
    {
      var player := players[id];
      var shooter := Shot(player, k, now);
      UpdatePlayer(id, shooter, [AmmoUpdate(id, shooter.ammo)]);
      Fire(k, player.x, player.y, rotation, id);
    }

    /** The "pickupWeapon" message: a living player within 150 of an existing
        weapon takes it (a spare magazine for the type it holds, else the
        new weapon fully loaded) and the weapon leaves the map. */
    method PickupWeapon(id: string, weaponId: nat)
      requires Valid()
      modifies this`players, this`weapons, this`events
      ensures Valid()
      ensures if id in old(players) && weaponId in old(weapons) && old(players)[id].isAlive
                 && InPickupRange(old(players)[id], old(weapons)[weaponId])
              then var k := old(weapons)[weaponId].kind;
                players == old(players)[id := Equip(old(players)[id], k)]
                && weapons == old(weapons) - {weaponId}
                && events == old(events) + PickupBroadcasts(id, old(players)[id], k)
              else players == old(players) && weapons == old(weapons) && events == old(events)
    {
      if id in players && weaponId in weapons && players[id].isAlive {
        var player, weapon := players[id], weapons[weaponId];
        if InPickupRange(player, weapon) {
          EquipConsistent(player, weapon.kind);
          PickupBroadcastsMirror(id, player, weapon.kind);
          UpdatePlayer(id, Equip(player, weapon.kind), PickupBroadcasts(id, player, weapon.kind));
          weapons := weapons - {weaponId};
        }
      }
    }

    /** The "reload" message of a living, armed player: with a spare magazine
        the reload starts and its completion is set for reloadTime later;
        without one only reloadFail is broadcast. */
    method Reload(id: string, now: int)
      requires Valid()
      modifies this`players, this`events, this`scheduled
      ensures Valid()
      ensures if id in old(players) && old(players)[id].isAlive && old(players)[id].weapon.Some?
              then var p := old(players)[id]; var k := p.weapon.value;
                if p.magazineCount > 0 then
                  players == old(players)[id := ReloadBegun(p, k, now)]
                  && events == old(events) + [ReloadStart(id, ReloadTime(k))]
                  && scheduled == old(scheduled) + [ReloadDone(id)]
                else
                  players == old(players) && events == old(events) + [ReloadFail(id)] && scheduled == old(scheduled)
              else players == old(players) && events == old(events) && scheduled == old(scheduled)
    {
      if id in players && players[id].isAlive && players[id].weapon.Some? {
        var player := players[id];
        if player.magazineCount > 0 {
          var reloadTime := ReloadTime(player.weapon.value);
          ReloadConsistent(player, player.weapon.value, now);
          UpdatePlayer(id, ReloadBegun(player, player.weapon.value, now), [ReloadStart(id, reloadTime)]);
          scheduled := scheduled + [ReloadDone(id)];
        } else {
          Broadcast(ReloadFail(id));
        }
      }
    }

    /** The "dropWeapon" message: a living player is left unarmed. */
    method DropWeapon(id: string)
      requires Valid()
      modifies this`players, this`events
      ensures Valid()
      ensures if id in old(players) && old(players)[id].isAlive
              then players == old(players)[id := Disarmed(old(players)[id])]
                   && events == old(events) + [WeaponUpdate(id, ""), AmmoUpdate(id, 0)]
              else players == old(players) && events == old(events)
    {
      if id in players && players[id].isAlive {
        DisarmedConsistent(players[id]);
        UpdatePlayer(id, Disarmed(players[id]), [WeaponUpdate(id, ""), AmmoUpdate(id, 0)]);
      }
    }

    /** The "reportCollider" message: an obstacle with finite x, y and radius
        joins the list of colliders (a field that is absent, not a number or
        not finite arrives as None). */
    method ReportCollider(x: Option<real>, y: Option<real>, radius: Option<real>)
      modifies this`colliders
      ensures colliders == if x.Some? && y.Some? && radius.Some?
                           then old(colliders) + [Collider(x.value, y.value, radius.value)] else old(colliders)
    {
      if x.Some? && y.Some? && radius.Some? {
        colliders := colliders + [Collider(x.value, y.value, radius.value)];
      }
    }

    /** The "removeBullet" message: the named bullet is deleted if it exists. */
    method RemoveBullet(bulletId: Option<nat>)
      requires BulletsValid()
      modifies this`bullets
      ensures BulletsValid()
      ensures bullets == if bulletId.Some? then old(bullets) - {bulletId.value} else old(bullets)
    {
      if bulletId.Some? && bulletId.value in bullets {
        bullets := bullets - {bulletId.value};
      }
    }

    // ---- the bodies of the timers ----

    /** The record a timer captured: the connected player's, or the one kept
        after the player left. */
    function Record(id: string): Option<Player>
      reads this`players, this`detached
    {
      if id in players then Some(players[id]) else if id in detached then Some(detached[id]) else None
    }

    /** A change to a captured record, followed by its broadcasts. */
    method UpdateRecord(id: string, p: Player, es: seq<Event>)
      requires Valid() && Record(id).Some? && Consistent(p)
      requires forall i :: 0 <= i < |es| ==> !es[i].GameOver?
      modifies this`players, this`detached, this`events
      ensures Valid() && events == old(events) + es
      ensures if id in old(players) then players == old(players)[id := p] && detached == old(detached)
              else players == old(players) && detached == old(detached)[id := p]
    {
      NoGameOverAdded(events, es);
      if id in players {
        players := players[id := p];
      } else {
        detached := detached[id := p];
      }
      events := events + es;
    }

    /** The reload timer: if the player is still alive and still reloading,
        the weapon held now is refilled, one spare is used up and the reload
        ends; the magazine count is not re-checked. */
    method CompleteReload(id: string)
      requires Valid()
      modifies this`players, this`detached, this`events
      ensures Valid()
      ensures var r := old(Record(id));
        if r.Some? && ReloadStillDue(r.value) then
          var q := Refilled(r.value);
          && Record(id) == Some(q)
          && (id in old(players) ==> players == old(players)[id := q] && detached == old(detached))
          && (id !in old(players) ==> players == old(players) && detached == old(detached)[id := q])
          && events == old(events) + [ReloadEnd(id), AmmoUpdate(id, q.ammo), MagazineUpdate(id, q.magazineCount)]
        else players == old(players) && detached == old(detached) && events == old(events)
    {
      var record := Record(id);
      if record.Some? && ReloadStillDue(record.value) {
        var player := Refilled(record.value);
        ReloadConsistent(record.value, Pistol, 0);
        UpdateRecord(id, player, [ReloadEnd(id), AmmoUpdate(id, player.ammo), MagazineUpdate(id, player.magazineCount)]);
      }
    }

    /** A follow-up timer of the rifle burst: a bullet from where the shooter
        is now, if the shooter is still alive. */
    method BurstFollowUp(id: string, rotation: real)
      requires BulletsValid()
      modifies this`bullets, this`nextBulletId
      ensures BulletsValid()
      ensures var r := Record(id);
        if r.Some? && r.value.isAlive then
          bullets == old(bullets)[old(nextBulletId) := Bullet(r.value.x, r.value.y, rotation, id, Damage(Rifle), Speed(Rifle))]
          && nextBulletId == old(nextBulletId) + 1
        else bullets == old(bullets) && nextBulletId == old(nextBulletId)
    {
      var record := Record(id);
      if record.Some? && record.value.isAlive {
        CreateBullet(record.value.x, record.value.y, rotation, Rifle, id);
      }
    }

    /** One pending timer fires, in whatever order the clock brings them, and
        leaves the queue. */
    method RunTimer(i: nat)
      requires Valid() && i < |scheduled|
      modifies this`players, this`detached, this`events, this`bullets, this`nextBulletId, this`scheduled
      ensures Valid()
      ensures scheduled == old(scheduled[..i] + scheduled[i + 1..])
      ensures old(scheduled[i]).ReloadDone? ==>
        var id := old(scheduled[i]).playerId; var r := old(Record(id));
        && bullets == old(bullets) && nextBulletId == old(nextBulletId)
        && if r.Some? && ReloadStillDue(r.value) then
             var q := Refilled(r.value);
             && Record(id) == Some(q)
             && (id in old(players) ==> players == old(players)[id := q] && detached == old(detached))
             && (id !in old(players) ==> players == old(players) && detached == old(detached)[id := q])
             && events == old(events) + [ReloadEnd(id), AmmoUpdate(id, q.ammo), MagazineUpdate(id, q.magazineCount)]
           else players == old(players) && detached == old(detached) && events == old(events)
      ensures old(scheduled[i]).BurstShot? ==>
        var id := old(scheduled[i]).playerId; var r := Record(id);
        && players == old(players) && detached == old(detached) && events == old(events)
        && if r.Some? && r.value.isAlive then
             bullets == old(bullets)[old(nextBulletId) := Bullet(r.value.x, r.value.y, old(scheduled[i]).rotation, id, Damage(Rifle), Speed(Rifle))]
             && nextBulletId == old(nextBulletId) + 1
           else bullets == old(bullets) && nextBulletId == old(nextBulletId)
    {
      var timer := scheduled[i];
      scheduled := scheduled[..i] + scheduled[i + 1..];
      match timer
      case ReloadDone(id) =>
        CompleteReload(id);
      case BurstShot(id, rotation, _) =>
        BurstFollowUp(id, rotation);
    }

    // ---- the game loop ----

    /** The collider scan of updateBullets: whether the step (x1, y1)-(x2, y2)
        meets a reported obstacle; the scan stops at the first one. */
    method HitsCollider(x1: real, y1: real, x2: real, y2: real) returns (hasCollision: bool)
      ensures hasCollision == Blocked(colliders, x1, y1, x2, y2)
    {
      hasCollision := false;
      for i := 0 to |colliders|
        invariant !hasCollision
        invariant forall j :: 0 <= j < i ==> !Meets(colliders[j], x1, y1, x2, y2)
      {
        var collider := colliders[i];
        var adjustedRadius := collider.radius * 0.8;
        var distanceSq := SegmentDistSq(collider.x, collider.y, x1, y1, x2, y2);
        if adjustedRadius > 0.0 && distanceSq < adjustedRadius * adjustedRadius {
          assert Meets(colliders[i], x1, y1, x2, y2);
          hasCollision := true;
          return;
        }
      }
    }

    /** One turn of updateBullets: bullet k moves by its displacement, or is
        deleted when the step is blocked or leaves the map. */
    method MoveBullet(k: nat, delta: Bullet -> (real, real))
      requires BulletsValid() && k in bullets
      modifies this`bullets
      ensures BulletsValid()
      ensures var b := old(bullets)[k];
        match Advance(b, delta(b).0, delta(b).1, colliders)
        case None => bullets == old(bullets) - {k}
        case Some(b') => bullets == old(bullets)[k := b']
    {
      var bullet := bullets[k];
      var deltaX, deltaY := delta(bullet).0, delta(bullet).1;
      var newX, newY := bullet.x + deltaX, bullet.y + deltaY;
      var hasCollision := HitsCollider(bullet.x, bullet.y, newX, newY);
      if hasCollision {
        bullets := bullets - {k};
      } else {
        bullets := bullets[k := bullet.(x := newX, y := newY)];
        if OffMap(newX, newY) {
          assert bullets - {k} == old(bullets) - {k};
          bullets := bullets - {k};
        }
      }
    }

    /** updateBullets: every bullet, in creation order, takes one frame's step. */
    method UpdateBullets(delta: Bullet -> (real, real))
      requires Valid()
      modifies this`bullets
      ensures Valid()
      ensures bullets == Frame(old(bullets), delta, colliders, nextBulletId)
    {
      for k := 0 to nextBulletId
        invariant Valid()
        invariant bullets == Frame(old(bullets), delta, colliders, k)
      {
        if k in bullets {
          MoveBullet(k, delta);
        }
      }
    }

    /** One pass of hazard h over the players, in order. */
    method HazardPass(h: Hazard) returns (struck: bool)
      requires Valid() && HazardDamage(h) >= 0
      modifies this`players, this`events
      ensures Valid()
      ensures Sweep(players, events) == HazardSweep(Sweep(old(players), old(events)), order, h, |order|)
      ensures struck == AnyStruck(Sweep(old(players), old(events)), order, h)
    {
      var s0 := Sweep(players, events);
      var s;
      s, struck := RunPass(s0, order, h);
      HazardSweepProgress(s0, order, h, |order|);
      Commit(s0, s);
    }

    /** Stores the outcome s of a damage pass begun in state s0. */
    method Commit(ghost s0: Sweep, s: Sweep)
      requires Valid() && Sweep(players, events) == s0 && Progress(s0, s)
      modifies this`players, this`events
      ensures Valid() && players == s.players && events == s.events
    {
      PassAddsNoGameOver(s0, s);
      players, events := s.players, s.events;
    }

    /** checkSafeZone: every living player outside the zone loses 1 health. */
    method CheckSafeZone()
      requires Valid()
      modifies this`players, this`events
      ensures Valid()
      ensures Sweep(players, events) == HazardSweep(Sweep(old(players), old(events)), order, OutsideSafeZone(safeZoneRadius), |order|)
    {
      var _ := HazardPass(OutsideSafeZone(safeZoneRadius));
    }

    /** One turn of the bullet loop of checkCollisions: bullet k against
        every player, and deleted if it struck one. */
    method CheckBullet(k: nat)
      requires Valid()
      modifies this`players, this`events, this`bullets
      ensures Valid()
      ensures if k in old(bullets) then
          var h := BulletHit(old(bullets)[k]);
          && Sweep(players, events) == HazardSweep(Sweep(old(players), old(events)), order, h, |order|)
          && bullets == if AnyStruck(Sweep(old(players), old(events)), order, h) then old(bullets) - {k} else old(bullets)
        else Sweep(players, events) == Sweep(old(players), old(events)) && bullets == old(bullets)
    {
      if k in bullets {
        var struck := HazardPass(BulletHit(bullets[k]));
        if struck {
          bullets := bullets - {k};
        }
      }
    }

    /** checkCollisions: every bullet, in creation order, against every
        player; a bullet that struck someone is deleted. */
    method CheckCollisions()
      requires Valid()
      modifies this`players, this`events, this`bullets
      ensures Valid()
      ensures var c := CollisionSweep(Sweep(old(players), old(events)), old(bullets), order, nextBulletId);
        Sweep(players, events) == c.sweep && bullets == c.bullets
    {
      ghost var s0, b0 := Sweep(players, events), bullets;
      for k := 0 to nextBulletId
        invariant Valid()
        invariant Collision(Sweep(players, events), bullets) == CollisionSweep(s0, b0, order, k)
      {
        CheckBullet(k);
      }
    }

    // ---- the game loop ----

    /** The first two steps of gameLoop: the bullets move, then each bullet
        is run against the players. */
    method ResolveBullets(delta: Bullet -> (real, real))
      requires Valid()
      modifies this`bullets, this`players, this`events
      ensures Valid()
      ensures var c := CollisionSweep(Sweep(old(players), old(events)), Frame(old(bullets), delta, colliders, nextBulletId), order, nextBulletId);
        Sweep(players, events) == c.sweep && bullets == c.bullets
    {
      UpdateBullets(delta);
      CheckCollisions();
    }

    /** The first three steps of gameLoop: the bullets move, each bullet is
        run against the players, and the win is checked. */
    method Judge(delta: Bullet -> (real, real))
      requires Valid()
      modifies this`bullets, this`players, this`events, this`gameOverAnnounced
      ensures Valid()
      ensures var c := CollisionSweep(Sweep(old(players), old(events)), Frame(old(bullets), delta, colliders, nextBulletId), order, nextBulletId);
        && bullets == c.bullets
        && gameOverAnnounced == (old(gameOverAnnounced) || WinCheck(c.sweep.players, order).Some?)
        && Sweep(players, events) == Sweep(c.sweep.players, c.sweep.events + Announcement(old(gameOverAnnounced), c.sweep.players, order))
    {
      ghost var s0, b0 := Sweep(players, events), bullets;
      ResolveBullets(delta);
      assert Sweep(players, events) == CollisionSweep(s0, Frame(b0, delta, colliders, nextBulletId), order, nextBulletId).sweep;
      CheckWinConditionOnce();
    }

    /** The last steps of gameLoop: the weapon pool is brought back between
        15 and 20, and the players outside the safe zone are hurt while the
        zone is active. */
    method Settle(sectors: seq<int>, place: (Slot, nat) -> Placement)
      requires Valid() && |sectors| == 8
      modifies this`players, this`events, this`weapons, this`nextWeaponId
      ensures Valid()
      ensures MinWeapons <= |weapons| <= MaxWeapons
      ensures Restocked(old(weapons), weapons, old(nextWeaponId), sectors, place)
      ensures Sweep(players, events) ==
        if zoneActive then HazardSweep(Sweep(old(players), old(events)), order, OutsideSafeZone(safeZoneRadius), |order|)
        else Sweep(old(players), old(events))
    {
      EnsureMinimumWeapons(sectors, place);
      if zoneActive {
        CheckSafeZone();
      }
    }

    /** gameLoop, every 16 ms: the bullets move, collisions are resolved,
        the win is checked, the weapon pool is brought back between 15 and
        20 and, once the zone is on, the players outside it are hurt. The win
        check run here is the latched CheckWinConditionOnce, so gameOver goes
        out on the first tick with one player of several alive and not on
        the ticks after it, as the as-written CheckWinCondition would. */
    method GameLoop(delta: Bullet -> (real, real), sectors: seq<int>, place: (Slot, nat) -> Placement)
      requires Valid() && |sectors| == 8
      modifies this`bullets, this`players, this`events, this`gameOverAnnounced, this`weapons, this`nextWeaponId
      ensures Valid()
      ensures MinWeapons <= |weapons| <= MaxWeapons
      ensures GameOverCount(events) <= 1
      ensures var c := CollisionSweep(Sweep(old(players), old(events)), Frame(old(bullets), delta, colliders, nextBulletId), order, nextBulletId);
        var judged := Sweep(c.sweep.players, c.sweep.events + Announcement(old(gameOverAnnounced), c.sweep.players, order));
        && bullets == c.bullets
        && gameOverAnnounced == (old(gameOverAnnounced) || WinCheck(c.sweep.players, order).Some?)
        && Sweep(players, events) ==
             if zoneActive then HazardSweep(judged, order, OutsideSafeZone(safeZoneRadius), |order|) else judged
      ensures Restocked(old(weapons), weapons, old(nextWeaponId), sectors, place)
    {
      Judge(delta);
      Settle(sectors, place);
    }
  }
}
