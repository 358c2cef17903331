# Battle-royale room and client ammunition mirror, modelled in Dafny

This project models two parts of a multiplayer battle-royale game.

**The authoritative server room** (`BattleRoyaleRoom`) is a Dafny class, `BattleRoyale.Room`. Its map fields are:

- `players`: kept with their insertion order, `order`;
- `bullets` and `weapons`: under fresh counter ids.

It also keeps:

- the reported colliders;
- the safe-zone countdown;
- a log of broadcasts (`events`) and of per-client sends (`sent`);
- a queue of pending `setTimeout` bodies (`scheduled`).

Each message handler, timer body and tick pass is a method on `Room`. Each method states its whole new state, and most keep the room invariant `Valid()`. That invariant says:

- every player record is `Consistent`: alive exactly while health is positive, no ammunition without a weapon, and ammunition between 0 and the weapon's capacity;
- the ids are fresh;
- the zone clock is well formed;
- gameOver has been broadcast at most once. This holds for the room as the model runs it, whose ticks and leaves use the latched win check `CheckWinConditionOnce`; the code's own checkWinCondition broadcasts gameOver again on every tick (see Findings and Left out).

The pure logic behind those methods lives in modules, and the properties are proved about it:

- `Weapons`: the balance tables;
- `Combat`: the per-player shoot/pickup/reload/drop state machine;
- `Zone`: the shrink countdown;
- `Allocation`: how `generateWeapons` spreads its count;
- `Motion`: bullet travel against obstacles;
- `Sweeps`: the `forEach` passes that deal damage, eliminate players and check for a winner.

**The client's mirror of its own ammunition** (`GameScene`) is the class `Client.GameClient`. Its methods are proved equal to pure functions of the old state (`Click`, `Reloaded`, `Initialized`, …), and lemmas state what those functions do.

Nondeterministic inputs become parameters:

- `now`: the clock;
- `place`: the randomised placement planner, which answers a position and a weapon type for each slot;
- `sectors`: the shuffled sector list;
- `delta`: a bullet's per-frame displacement `cos/sin(rotation) * speed / 60`;
- spawn positions.

A missing number in a message is `None`. The move and rotate handlers reject non-finite values, so a non-finite number there is `None` too. reportCollider is the exception: its guard accepts NaN and Infinity, which the model's reals cannot hold (see Left out). Distances are compared as squares, in exact reals.

Four behaviours of the code differ from what the code itself shows was intended. Three are modelled as written; the win check is modelled both ways:

- **The win check.** It is meant to end the game once: right after broadcasting gameOver, checkWinCondition schedules the close-down of the whole room 5 s later (server/src/rooms/BattleRoyaleRoom.ts:687-700). But nothing remembers that the broadcast happened, and gameLoop calls the check every 16 ms, so gameOver goes out again on every tick until the room closes. The as-written check is `BattleRoyale.Room.CheckWinCondition`; the room's tick and leave run the latched `CheckWinConditionOnce`; see Findings.
- **A bullet that hits.** It is meant to be used up by its hit: checkCollisions deletes it right after applying the damage (server/src/rooms/BattleRoyaleRoom.ts:660-662). But the deletion sits inside the loop over the players, which keeps running the same bullet against the remaining players in that tick, so one bullet can hurt two players (`Sweeps.OneBulletTwoVictims`).
- **A pistol's last round.** The server unequips an empty weapon only when a shot is attempted with too little ammunition and no spare magazine (server/src/rooms/BattleRoyaleRoom.ts:196-213). So the shot that spends the last round fires and the weapon is kept, and it is lost on the next attempt (`Combat.LastRoundKeepsWeapon`). What drops the weapon straight after the last round is the client, which sends `dropWeapon` (client/src/scenes/GameScene.ts:1733-1768, `Client.ClickLastRound`).
- **A player who left mid-reload.** The reload completion is meant to apply only to a player still in the game: it re-checks `player.isAlive` (server/src/rooms/BattleRoyaleRoom.ts:324). But the timer holds the player object itself, which onLeave only removes from the map and which stays alive. So after a player leaves, its reload still completes and broadcasts on the deleted record. The model keeps such records in `detached` (`BattleRoyale.Room.CompleteReload`).

## Model

| member | source | states |
|---|---|---|
| Weapons.Parse | server/src/rooms/BattleRoyaleRoom.ts:157-164 | a weapon string denotes a type exactly when it is that type's name; every other string (including "") denotes none |
| Weapons.ParseName | server/src/rooms/BattleRoyaleRoom.ts:921-947 | the type a weapon is given is recovered from its stored name |
| Weapons.MagazineHoldsWholeShots | server/src/rooms/BattleRoyaleRoom.ts:176-194 | a full magazine (9/30/20) pays for a whole number of shots at cost 1/5/5: 9 pistol shots, 6 rifle bursts, 4 shotgun blasts |
| Entities.ItemFor | server/src/rooms/BattleRoyaleRoom.ts:919-957 | the stored world weapon has the planner's position and type and that type's capacity, shot delay, reload time, damage and bullets per shot |
| Entities.NewPlayerConsistent | server/src/rooms/BattleRoyaleRoom.ts:448-466 | a joining player is unarmed with 0 ammunition and 100 health, and satisfies the player invariant |
| Entities.NumberedContents | server/src/rooms/BattleRoyaleRoom.ts:1357-1367 | bullets created in a row are stored under consecutive fresh ids, the i-th under start + i, and nothing else is stored |
| Combat.VerdictCases | server/src/rooms/BattleRoyaleRoom.ts:135-216 | a shot of an existing player is refused exactly when it is dead, the rotation is missing, it is unarmed, reloading before reloadEndTime, or within the shot delay; otherwise it waits for a reload exactly when ammo < cost with a spare, loses the weapon exactly when ammo < cost with no spare, and fires the held weapon exactly when ammo >= cost |
| Combat.VolleyShape | server/src/rooms/BattleRoyaleRoom.ts:1339-1354 | one shot creates 1 pistol bullet, 1 rifle bullet (2 more deferred) or 5 shotgun pellets at rotation - pi/16 + i * pi/32; all start at the shooter, belong to it and carry the weapon's damage and speed; in all, bulletsPerShot bullets |
| Combat.ShotKeepsConsistent | server/src/rooms/BattleRoyaleRoom.ts:219-223 | an accepted shot takes exactly the cost off the ammunition, which stays at or above 0, and keeps the player invariant |
| Combat.DisarmedConsistent | server/src/rooms/BattleRoyaleRoom.ts:359-367 | dropping the weapon keeps the player invariant |
| Combat.EquipConsistent | server/src/rooms/BattleRoyaleRoom.ts:252-278 | a pickup keeps the player invariant |
| Combat.ReloadConsistent | server/src/rooms/BattleRoyaleRoom.ts:311-338 | starting and completing a reload keep the player invariant |
| Combat.WoundConsistent | server/src/rooms/BattleRoyaleRoom.ts:644-651 | damage d lowers health by exactly d, the player stays alive exactly when health stays positive, and the invariant is kept |
| Combat.EquipEffect | server/src/rooms/BattleRoyaleRoom.ts:252-278 | the same type as held adds one spare magazine and leaves the ammunition alone; a different type becomes the weapon with a full magazine (9/30/20) and 0 spares; health and the reload flag are untouched |
| Combat.ReloadRoundTrip | server/src/rooms/BattleRoyaleRoom.ts:293-347 | a reload started and completed with nothing in between ends with a full magazine, one spare fewer, the flag cleared and reloadEndTime = now + reloadTime |
| Combat.SwitchDuringReload | server/src/rooms/BattleRoyaleRoom.ts:323-338 | the completion does not re-check the spare count: picking up another weapon mid-reload lets it drive magazineCount to -1 |
| Combat.LastRoundKeepsWeapon | server/src/rooms/BattleRoyaleRoom.ts:197-222 | a pistol with 1 round and no spare fires it and keeps the weapon; the next attempt loses it |
| Combat.EmptyShotUnequips | server/src/rooms/BattleRoyaleRoom.ts:197-216 | an armed player with no ammunition and no spare, past the guards, ends up unarmed with 0 ammunition |
| Combat.Steered | server/src/rooms/BattleRoyaleRoom.ts:106-122 | a move sets the position only when both coordinates are finite and the rotation only when it is finite; nothing else changes |
| Combat.SteeredConsistent | server/src/rooms/BattleRoyaleRoom.ts:106-133 | moving and rotating keep the player invariant |
| Combat.PickupBroadcastsMirror | server/src/rooms/BattleRoyaleRoom.ts:252-282 | the pickup broadcasts end with the new magazine count and, on a change of weapon, first carry its name and new ammunition; none is a gameOver |
| Combat.ShootEffectCases | server/src/rooms/BattleRoyaleRoom.ts:135-237 | a shot changes the record exactly when it broadcasts something, and broadcasts nothing exactly when it is blocked or waits for a reload (then no bullets and no timers); the record stays consistent and no gameOver is sent |
| Combat.ShootEffectFire | server/src/rooms/BattleRoyaleRoom.ts:219-236 | an accepted shot sets lastShotTime to now, takes exactly the cost, broadcasts the ammunition left and creates bulletsPerShot bullets of the shooter at its position, the rifle's last two as timers with the same rotation |
| Combat.ShootEffectExhausted | server/src/rooms/BattleRoyaleRoom.ts:204-216 | out of ammunition with no spare: weapon "" and ammo 0, broadcast as weaponUpdate "" then ammoUpdate 0, no bullets |
| Zone.ShrinkStepEffect | server/src/rooms/BattleRoyaleRoom.ts:736-760 | each call copies the decremented timer into nextShrinkTime; at 0 or below both restart at 5 and the radius becomes max(200, r - 250), otherwise the radius is kept |
| Zone.RadiusMonotone | server/src/rooms/BattleRoyaleRoom.ts:743-757 | over any number of calls the radius never grows and never falls below 200 once it is at least 200 |
| Zone.WellFormedKept | server/src/rooms/BattleRoyaleRoom.ts:743-757 | the timer stays in 1..5, equal to nextShrinkTime, and the radius at least 200, over any number of calls |
| Zone.OneShrinkPerCycle | server/src/rooms/BattleRoyaleRoom.ts:743-757 | from timer t in 1..5, after t calls the zone has shrunk exactly once and the countdown is back at 5 |
| Zone.ShrinkSchedule | server/src/rooms/BattleRoyaleRoom.ts:743-757 | from a fresh countdown, after 5c calls the radius is max(200, r - 250c) |
| Zone.WeaponsForRadius | server/src/rooms/BattleRoyaleRoom.ts:782-787 | a shrink adds 1 to 3 weapons: 3 for a radius of 1000 or more, otherwise max(1, floor(3r / 1000)) |
| Allocation.Remaining | server/src/rooms/BattleRoyaleRoom.ts:816-822 | what is left to place never exceeds the count |
| Allocation.Share | server/src/rooms/BattleRoyaleRoom.ts:821-822 | a quadrant takes no more than minPerQuadrant and no more than is left |
| Allocation.StockedKeys | server/src/rooms/BattleRoyaleRoom.ts:950-954 | after a generation the pool's ids are the old ids plus the fresh range |
| Allocation.StockedSize | server/src/rooms/BattleRoyaleRoom.ts:950-954 | with fresh ids, a generation of n slots grows the pool by exactly n |
| Allocation.PlanLength | server/src/rooms/BattleRoyaleRoom.ts:815-865 | generateWeapons(count) places exactly count weapons: the five quadrant shares and the remainder |
| Allocation.LargeAllocation | server/src/rooms/BattleRoyaleRoom.ts:815-822 | from 15 on, each quadrant and the centre get exactly 3 and count - 15 go to the sectors |
| Allocation.MediumAllocation | server/src/rooms/BattleRoyaleRoom.ts:815-822 | from 5 to 14, each of the five gets floor(count / 5) and count mod 5 are left over |
| Allocation.SmallAllocation | server/src/rooms/BattleRoyaleRoom.ts:815-822 | below 5, the first count quadrants get one each and nothing is left |
| Allocation.PlanSectorsInRange | server/src/rooms/BattleRoyaleRoom.ts:836-864 | every sector requested is one of the eight sectors 0..7 |
| Motion.SegmentNoFartherThanStart | server/src/rooms/BattleRoyaleRoom.ts:593-628 | the clamped point-to-segment distance is never more than the distance to the segment's start |
| Motion.StartInsideBlocks | server/src/rooms/BattleRoyaleRoom.ts:541-571 | a step that starts within 0.8 of an obstacle's radius is blocked wherever it ends |
| Motion.Advance | server/src/rooms/BattleRoyaleRoom.ts:522-589 | a bullet is deleted exactly when its step is blocked by an obstacle or ends off the map; otherwise it moves by exactly its displacement and stays on the map |
| Motion.Frame | server/src/rooms/BattleRoyaleRoom.ts:521-590 | a frame never creates bullets |
| Motion.FrameEffect | server/src/rooms/BattleRoyaleRoom.ts:521-590 | every bullet takes exactly one step of its own displacement and survives exactly when that step is neither blocked nor off the map; bullets not yet reached are untouched |
| Sweeps.Without | server/src/rooms/BattleRoyaleRoom.ts:480-484 | the player list after a delete holds exactly the other players and stays duplicate-free |
| Sweeps.HazardSweep | server/src/rooms/BattleRoyaleRoom.ts:705-733 | a damage pass neither adds nor removes players |
| Sweeps.StruckBeforeExists | server/src/rooms/BattleRoyaleRoom.ts:642-662 | the "struck" flag of a pass holds exactly when some visited player was struck |
| Sweeps.CollisionSweep | server/src/rooms/BattleRoyaleRoom.ts:631-667 | the collision pass never creates bullets |
| Sweeps.Announcement | server/src/rooms/BattleRoyaleRoom.ts:670-685 | the latched check broadcasts at most one message, a gameOver, exactly when not yet latched and the win condition holds |
| Sweeps.HazardSweepProgress | server/src/rooms/BattleRoyaleRoom.ts:705-733 | a pass keeps the same players, never raises health, leaves dead players untouched, keeps the player invariant and only appends eliminations |
| Sweeps.PassAddsNoGameOver | server/src/rooms/BattleRoyaleRoom.ts:705-733 | a damage pass adds no gameOver broadcast |
| Sweeps.HazardSweepEffect | server/src/rooms/BattleRoyaleRoom.ts:705-733 | each player is visited once and takes the hazard's damage (1 outside the zone, the bullet's damage in range of a bullet not its own) exactly when it was alive and struck before the pass |
| Sweeps.HazardSweepEliminations | server/src/rooms/BattleRoyaleRoom.ts:719-728 | a pass broadcasts playerEliminated for a player exactly when it killed that player, and broadcasts nothing else |
| Sweeps.CollisionBullets | server/src/rooms/BattleRoyaleRoom.ts:631-667 | the collision pass never changes a bullet and keeps every bullet it has not reached yet |
| Sweeps.CollisionProgress | server/src/rooms/BattleRoyaleRoom.ts:631-667 | the collision pass keeps the same players, never raises health, leaves the dead alone and only appends eliminations |
| Sweeps.CollisionDeletes | server/src/rooms/BattleRoyaleRoom.ts:660-662 | a bullet is deleted exactly when it struck some player in the state the loop had reached when it came to that bullet |
| Sweeps.OneAlive | server/src/rooms/BattleRoyaleRoom.ts:675-680 | when the count is 1, the last living player seen is alive and is the only one |
| Sweeps.SoleSurvivor | server/src/rooms/BattleRoyaleRoom.ts:675-680 | conversely, one sole living player is counted once and is the one named |
| Sweeps.WinCheckWinner | server/src/rooms/BattleRoyaleRoom.ts:670-685 | gameOver is due exactly when the room has more than one player and exactly one is alive, and it names that player |
| Sweeps.OneBulletTwoVictims | server/src/rooms/BattleRoyaleRoom.ts:634-663 | a bullet inside two players hurts both in one tick, though it is deleted after the first hit |
| Sweeps.GameOverRepeats | server/src/rooms/BattleRoyaleRoom.ts:670-685 | two unlatched checks with one of two players alive broadcast gameOver twice |
| Sweeps.AnnouncedOnce | server/src/rooms/BattleRoyaleRoom.ts:670-685 | with the latch, two checks add at most one gameOver, however the players change between them |
| BattleRoyale.CountAlive | server/src/rooms/BattleRoyaleRoom.ts:671-680 | the counting loop finds the number of living players and the last living one in iteration order |
| BattleRoyale.RunPass | server/src/rooms/BattleRoyaleRoom.ts:705-733 | the damage loop with its nested elimination count computes the pass HazardSweep and whether anyone was struck |
| BattleRoyale.Room.constructor | server/src/rooms/BattleRoyaleRoom.ts:43-54 | the initial state: everything empty, radius 5000 with a 5-second countdown, zone off, the invariant holds |
| BattleRoyale.Room.OnCreate | server/src/rooms/BattleRoyaleRoom.ts:373-392 | max(10, 15) = 15 weapons are generated per the allocation plan, the zone is reset and switched on, and zoneShrink is broadcast |
| BattleRoyale.Room.StartZone | server/src/rooms/BattleRoyaleRoom.ts:376-392 | radius 5000, timer and countdown 5, zone active, one zoneShrink broadcast |
| BattleRoyale.Room.ShrinkZone | server/src/rooms/BattleRoyaleRoom.ts:736-779 | the clock takes one ShrinkStep; on a shrink zoneUpdate is broadcast with the new radius and WeaponsForRadius weapons are added in the inner band, otherwise only zoneTimer is broadcast and the pool is untouched |
| BattleRoyale.Room.Countdown | server/src/rooms/BattleRoyaleRoom.ts:737-757 | the zone is switched on, the clock takes one ShrinkStep, and the result says whether it shrank |
| BattleRoyale.Room.AnnounceShrink | server/src/rooms/BattleRoyaleRoom.ts:760-769 | zoneUpdate is broadcast with the centre, the new radius and nextShrinkTime, and exactly the WeaponsForRadius weapons of the inner band are added under fresh ids |
| BattleRoyale.Room.GenerateWeaponInSector | server/src/rooms/BattleRoyaleRoom.ts:876-959 | one weapon from the planner's answer is stored under a fresh id |
| BattleRoyale.Room.PlaceQuadrant | server/src/rooms/BattleRoyaleRoom.ts:826-845 | a quadrant's weapons alternate between its two sectors; the centre's take the central band |
| BattleRoyale.Room.PlaceRemainder | server/src/rooms/BattleRoyaleRoom.ts:848-865 | the leftover weapons go round-robin over the shuffled sectors |
| BattleRoyale.Room.PlaceShare | server/src/rooms/BattleRoyaleRoom.ts:819-845 | one quadrant takes min(minPerQuadrant, remaining) and the remaining count drops by as much |
| BattleRoyale.Room.PlaceQuadrants | server/src/rooms/BattleRoyaleRoom.ts:819-846 | the first loop places the five shares in order and leaves Remaining(count, 5) |
| BattleRoyale.Room.GenerateWeapons | server/src/rooms/BattleRoyaleRoom.ts:800-873 | exactly the weapons of Plan(count, sectors) are added under fresh ids, count in all |
| BattleRoyale.Room.EnsureMinimumWeapons | server/src/rooms/BattleRoyaleRoom.ts:1083-1102 | a pool below 15 is topped up to exactly 15 by generation, one above 20 trimmed to exactly 20 keeping the survivors unchanged, any other left alone; afterwards 15..20 |
| BattleRoyale.Room.RemoveExcessWeapons | server/src/rooms/BattleRoyaleRoom.ts:1105-1119 | exactly min(count, size) weapons are deleted and the rest are unchanged |
| BattleRoyale.Room.GenerateNewWeaponsInShrinkingZone | server/src/rooms/BattleRoyaleRoom.ts:782-797 | exactly WeaponsForRadius(r) weapons are added, each in the inner band |
| BattleRoyale.Room.Join | server/src/rooms/BattleRoyaleRoom.ts:448-478 | a fresh unarmed player is added at the end of the order, and that client alone is sent the zone state and its ammunition 0 |
| BattleRoyale.Room.RemovePlayer | server/src/rooms/BattleRoyaleRoom.ts:480-484 | the player leaves the map and the order; its record is kept for the timers that hold it |
| BattleRoyale.Room.Leave | server/src/rooms/BattleRoyaleRoom.ts:480-488 | the player leaves the map and the order and its record is kept in detached; then gameOver is broadcast exactly when none was before and one of the several remaining players is alive, and the latch records it |
| BattleRoyale.Room.CheckWinCondition | server/src/rooms/BattleRoyaleRoom.ts:670-701 | as written: appends gameOver of the one living player whenever one of several is alive, with no memory of earlier calls |
| BattleRoyale.Room.CheckWinConditionOnce | server/src/rooms/BattleRoyaleRoom.ts:670-685 | the corrected check broadcasts gameOver only if none was broadcast before, and latches |
| BattleRoyale.Room.Move | server/src/rooms/BattleRoyaleRoom.ts:106-122 | only a living player moves, by Steered; everything else is unchanged |
| BattleRoyale.Room.Rotate | server/src/rooms/BattleRoyaleRoom.ts:124-133 | only a living player with a finite rotation turns; nothing else changes |
| BattleRoyale.Room.CreateBullet | server/src/rooms/BattleRoyaleRoom.ts:1357-1367 | one bullet with the given position, rotation, owner, damage and speed under a fresh id |
| BattleRoyale.Room.FireShotgunSpread | server/src/rooms/BattleRoyaleRoom.ts:1339-1354 | the five pellets of the shotgun volley are added under five fresh ids |
| BattleRoyale.Room.FireRifleBurst | server/src/rooms/BattleRoyaleRoom.ts:1317-1336 | one bullet now and two timers, at 100 and 200 ms, with the same rotation |
| BattleRoyale.Room.Fire | server/src/rooms/BattleRoyaleRoom.ts:228-236 | the weapon's volley is added under fresh ids, and the rifle also queues its burst timers |
| BattleRoyale.Room.Shoot | server/src/rooms/BattleRoyaleRoom.ts:135-237 | an unknown player changes nothing; otherwise the record, broadcasts, bullets and timers are exactly those of ShootEffect |
| BattleRoyale.Room.AcceptShot | server/src/rooms/BattleRoyaleRoom.ts:219-236 | the shot is paid and timed, the ammunition left broadcast, and the volley fired from the shooter's position |
| BattleRoyale.Room.PickupWeapon | server/src/rooms/BattleRoyaleRoom.ts:239-291 | a living player within 150 of an existing weapon equips it (Equip), the weapon is deleted and PickupBroadcasts are sent; otherwise nothing changes |
| BattleRoyale.Room.Reload | server/src/rooms/BattleRoyaleRoom.ts:293-357 | alive and armed with a spare: the reload flag and end time are set, reloadStart broadcast and the completion queued, ammunition and spares untouched; with no spare: only reloadFail; otherwise nothing |
| BattleRoyale.Room.DropWeapon | server/src/rooms/BattleRoyaleRoom.ts:359-371 | a living player is left unarmed with 0 ammunition, broadcast as weaponUpdate "" and ammoUpdate 0 |
| BattleRoyale.Room.ReportCollider | server/src/rooms/BattleRoyaleRoom.ts:394-402 | a collider with finite x, y and radius is appended at the end; a message missing any of them leaves the colliders unchanged |
| BattleRoyale.Room.RemoveBullet | server/src/rooms/BattleRoyaleRoom.ts:423-432 | the named bullet is gone afterwards and nothing else changes |
| BattleRoyale.Room.CompleteReload | server/src/rooms/BattleRoyaleRoom.ts:323-347 | when the captured player is alive and still reloading: refilled to the capacity of the weapon held now, one spare used, flag cleared, reloadEnd/ammoUpdate/magazineUpdate broadcast; otherwise nothing |
| BattleRoyale.Room.BurstFollowUp | server/src/rooms/BattleRoyaleRoom.ts:1329-1334 | a follow-up bullet leaves from the shooter's current position only while the shooter is alive |
| BattleRoyale.Room.RunTimer | server/src/rooms/BattleRoyaleRoom.ts:1328-1335 | one pending timer runs and leaves the queue. A reload completion that is still due refills the captured record (in players or in detached) as CompleteReload does and broadcasts reloadEnd, ammoUpdate and magazineUpdate; one no longer due changes nothing. A burst shot adds one rifle bullet at the shooter's current position under the next id while the shooter is alive, and nothing else |
| BattleRoyale.Room.HitsCollider | server/src/rooms/BattleRoyaleRoom.ts:541-571 | the collider scan reports a collision exactly when the step meets some reported obstacle |
| BattleRoyale.Room.MoveBullet | server/src/rooms/BattleRoyaleRoom.ts:522-589 | one bullet is advanced or deleted as Advance says |
| BattleRoyale.Room.UpdateBullets | server/src/rooms/BattleRoyaleRoom.ts:521-590 | all bullets take one Frame, in creation order |
| BattleRoyale.Room.HazardPass | server/src/rooms/BattleRoyaleRoom.ts:705-733 | one pass of a hazard over the players gives the state HazardSweep describes and keeps the invariant |
| BattleRoyale.Room.CheckSafeZone | server/src/rooms/BattleRoyaleRoom.ts:705-733 | every living player outside the current radius loses 1 health, with eliminations announced |
| BattleRoyale.Room.CheckBullet | server/src/rooms/BattleRoyaleRoom.ts:633-665 | one bullet against every player, deleted exactly when it struck someone |
| BattleRoyale.Room.CheckCollisions | server/src/rooms/BattleRoyaleRoom.ts:631-667 | players, broadcasts and bullets end as CollisionSweep says |
| BattleRoyale.Room.ResolveBullets | server/src/rooms/BattleRoyaleRoom.ts:500-501 | the bullets take one Frame, then players, broadcasts and bullets end as CollisionSweep of the moved bullets says |
| BattleRoyale.Room.Judge | server/src/rooms/BattleRoyaleRoom.ts:500-502 | after the bullets are resolved, gameOver is appended exactly when none was before and one of several players survives the collisions, and the latch records it |
| BattleRoyale.Room.Settle | server/src/rooms/BattleRoyaleRoom.ts:505-517 | the pool is Restocked (topped up to exactly 15, trimmed to exactly 20 of its own weapons, or left alone), and when the zone is active the players outside it take the HazardSweep; otherwise players and broadcasts are unchanged |
| BattleRoyale.Room.GameLoop | server/src/rooms/BattleRoyaleRoom.ts:499-518 | the tick's whole effect: bullets as Frame then CollisionSweep leave them; players and broadcasts as CollisionSweep, then the latched gameOver, then HazardSweep when the zone is active; the pool Restocked to 15..20; the invariant kept, so at most one gameOver ever |
| Client.FireRateForWeapon | client/src/scenes/GameScene.ts:1811-1822 | the client's fire rate equals the server's shot delay for every known weapon, and 500 for any other string |
| Client.AmmoToConsume | client/src/scenes/GameScene.ts:1699-1706 | the client's cost per shot equals the server's for every known weapon, and 1 for any other string |
| Client.ClickIgnored | client/src/scenes/GameScene.ts:1683-1692 | unarmed, or while the reloading text shows, a click changes nothing, not even lastFireTime |
| Client.ClickStamps | client/src/scenes/GameScene.ts:1690-1694 | otherwise lastFireTime becomes now whether or not a shot follows, and the click flag, reloading text and zone timer are untouched |
| Client.ClickShoots | client/src/scenes/GameScene.ts:1709-1731 | with ammunition >= cost, one shoot request is sent first; with more than the cost left, the ammunition drops by exactly the cost and nothing else changes |
| Client.ClickShort | client/src/scenes/GameScene.ts:1709-1716 | with 0 < ammunition < cost: no shot, the ammunition stays, and a reload is requested only if a spare is left and the magazine is not full |
| Client.ClickEmpty | client/src/scenes/GameScene.ts:1769-1803 | with no ammunition: a reload when spares are left, otherwise dropWeapon is sent and the weapon and all counts reset |
| Client.ClickLastRound | client/src/scenes/GameScene.ts:1733-1768 | the shot that spends the last round is followed by a reload request or by the drop |
| Client.ClickKeepsAmmo | client/src/scenes/GameScene.ts:1679-1808 | a click never makes the local ammunition negative nor increases it |
| Client.ClickShootsOnlyWhenPaid | client/src/scenes/GameScene.ts:1679-1808 | a click sends at most two requests and at most one shoot, first and only when the ammunition held pays for it |
| Client.ReloadedSends | client/src/scenes/GameScene.ts:1825-1849 | reload is sent exactly when a weapon is held, the reloading text is hidden and the magazine is not full; nothing else changes |
| Client.InitializedCounts | client/src/scenes/GameScene.ts:1640-1667 | a known weapon gives 9/30/20 rounds with maxAmmo equal and 0 spares; any other string disarms and zeroes the counts; other fields unchanged |
| Client.AcceptsGate | client/src/scenes/GameScene.ts:404-408 | unarmed the gate opens as soon as no click is in flight and the clock has not gone back; armed it also waits that weapon's shot delay |
| Client.GameClient.constructor | client/src/scenes/GameScene.ts:75-102 | the field initialisers: no weapon, 0 counts, timer 30, nothing sent |
| Client.GameClient.InitializeAmmo | client/src/scenes/GameScene.ts:1640-1676 | the new state is Initialized of the old |
| Client.GameClient.ReloadWeapon | client/src/scenes/GameScene.ts:1825-1849 | the new state is Reloaded of the old |
| Client.GameClient.OutOfAmmunition | client/src/scenes/GameScene.ts:1733-1768 | the new state is OutOfAmmo of the old: reload with spares, otherwise drop and reset |
| Client.GameClient.HandleShootingOnClick | client/src/scenes/GameScene.ts:1679-1808 | the new state is Click of the old |
| Client.GameClient.PointerDown | client/src/scenes/GameScene.ts:399-418 | when the gate accepts, the flag is raised and the click handled; otherwise nothing changes |
| Client.GameClient.ClickSettled | client/src/scenes/GameScene.ts:412-414 | the click-in-flight flag is cleared and nothing else changes |
| Client.GameClient.UpdateLocalTimer | client/src/scenes/GameScene.ts:1496-1501 | the timer counts down by one only while positive, so it never falls below 0 |
| Client.GameClient.ShowReloading | client/src/scenes/GameScene.ts:1547-1577 | only the visibility of the reloading text changes |
| Client.GameClient.OnAmmoUpdate | client/src/scenes/GameScene.ts:671-678 | a message for this client replaces the local ammunition; others are ignored |
| Client.GameClient.OnMagazineUpdate | client/src/scenes/GameScene.ts:681-696 | a message for this client replaces the local spare count; others are ignored |
| Client.GameClient.OnWeaponUpdate | client/src/scenes/GameScene.ts:723-749 | for this client, "" disarms and zeroes the counts and any other string is Initialized; others are ignored |

## Left out

- Floating-point geometry. The model computes in exact reals and compares distances as squares. The bullet displacement (cos/sin) is a parameter, and the shotgun's pi is a 16-digit constant.
- The distance prefilter of updateBullets. It cannot change the outcome, because a collider it skips is too far away to meet the 0.8-radius test.
- Random placement: the angle and distance sampling of generateWeaponInSector, findSafeSpawnPosition, findPositionInSafeZone and isPositionValid. Each becomes a parameter (`place`, or the spawn position of `Join`). The type the planner answers is also a parameter.
- Ids. The random ids of generateId are modelled as counters, so the ids are fresh and bullets are visited in creation order.
- Shuffles. The shuffle of the sector list is the `sectors` parameter. The shuffle of removeExcessWeapons is a nondeterministic choice of which weapon to delete.
- checkWeaponPositions and checkWeaponsOutsideSafeZone. These are random collider-avoidance relocations, called from gameLoop, ensureMinimumWeapons and shrinkZone. So is the `Math.random() < 0.01` trigger. They only move existing weapons, and the model does not move them.
- Timer scheduling: setTimeout, setInterval and their delays. Each body is a method. `RunTimer` fires any pending one, in any order.
- The 5-second close-down after gameOver (forceRefresh, disconnect), the periodic weapon checks set up by reportCollider, and onDispose.
- Colyseus plumbing: schema replication, metadata, room ids and option handling. Broadcasts and sends are kept as logs.
- Client rendering: texts, textures, tweens and the pickup notification. The reloading text is kept only as its visibility, `reloadingShown`.
- Client guards on `currentPlayer` and `room` being present. The model assumes a joined scene; the player's rotation is the `angle` parameter.
- The client's zone messages (zoneShrink, zoneUpdate, zoneTimer), which overwrite nextShrinkTime. Only updateLocalTimer is modelled.
- Client.GameClient.OnAmmoUpdate: models the state update only; updateAmmoDisplay is rendering.
- BattleRoyale.Room.GameLoop: runs the latched win check, where the code's gameLoop (server/src/rooms/BattleRoyaleRoom.ts:502) calls checkWinCondition, which broadcasts gameOver and schedules another close-down on every tick while one player of several is alive. The as-written behaviour is `CheckWinCondition` and `Sweeps.GameOverRepeats` (see Findings).
- BattleRoyale.Room.Leave: runs the latched win check, where the code's onLeave (server/src/rooms/BattleRoyaleRoom.ts:487) calls checkWinCondition, which broadcasts gameOver again after the game is over.
- BattleRoyale.Room.ReportCollider: the code's guard only asks for `typeof === 'number'`, so it also stores NaN and Infinity. An infinite radius at a finite centre would block every bullet, and a NaN field would block none. The model's reals have no such values, so the model drops such a message.
- Integer width. Counters and health are unbounded integers; the source's numbers are doubles that stay far below 2^53 in play.

## Findings

| source | as written | input that shows it | evidently intended | confidence | as-written member | corrected member |
|---|---|---|---|---|---|---|
| server/src/rooms/BattleRoyaleRoom.ts:670-685 | checkWinCondition has no memory of an earlier gameOver. gameLoop calls it every 16 ms, so it broadcasts gameOver again on every tick until the room closes 5 s later. | Players "a" (alive) and "b" (dead); two calls broadcast gameOver("a") twice | gameOver is broadcast once per room | not executed | Sweeps.GameOverRepeats | Sweeps.AnnouncedOnce |

The row's Dafny halves:

- As written: `BattleRoyale.Room.CheckWinCondition` and `Sweeps.GameOverRepeats`.
- Corrected: `BattleRoyale.Room.CheckWinConditionOnce`, the latched check that `Leave` and `GameLoop` use, and `Sweeps.AnnouncedOnce`. `GameLoop` proves at most one gameOver ever.
