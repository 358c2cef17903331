/** The per-tick passes over the players map: safe-zone damage, bullet
    collisions and the win check. Each pass visits the players in insertion
    order (`order`) and applies its effects as it goes, exactly like the
    room's forEach loops, so the count in a PlayerEliminated broadcast sees
    the players already visited in the same pass. */
module Sweeps {
  import opened Wrappers
  import opened Weapons
  import opened Entities
  import opened Combat

  /** The part of the room state a pass changes. */
  datatype Sweep = Sweep(players: map<string, Player>, events: seq<Event>)

  /** What a pass checks each living player against. */
  datatype Hazard = OutsideSafeZone(radius: nat) | BulletHit(bullet: Bullet)

  predicate Distinct(ids: seq<string>)
  {
    forall i, j :: 0 <= i < j < |ids| ==> ids[i] != ids[j]
  }

  /** ids without one id (MapSchema delete on the player list). */
  function Without(ids: seq<string>, id: string): (r: seq<string>)
    ensures forall x :: x in r <==> x in ids && x != id
    ensures Distinct(ids) ==> Distinct(r)
  {
    if ids == [] then []
    else
      var rest := Without(ids[1..], id);
      if ids[0] == id then rest
      else
        assert Distinct(ids) ==> ids[0] !in rest;
        [ids[0]] + rest
  }

  predicate Strikes(h: Hazard, id: string, p: Player)
  {
    match h
    case OutsideSafeZone(r) => p.isAlive && OutsideZone(p, r)
    case BulletHit(b) => id != b.ownerId && p.isAlive && InHitRange(p, b)
  }

  function HazardDamage(h: Hazard): int
  {
    match h
    case OutsideSafeZone(_) => 1
    case BulletHit(b) => b.damage
  }

  /** Living players among `ids`, counted the way the inner forEach counts them. */
  function AliveIn(ps: map<string, Player>, ids: seq<string>): nat
  {
    if ids == [] then 0
    else
      var id := ids[|ids| - 1];
      AliveIn(ps, ids[..|ids| - 1]) + (if id in ps && ps[id].isAlive then 1 else 0)
  }

  /** The last living player in iteration order, "" if there is none. */
  function LastAlive(ps: map<string, Player>, ids: seq<string>): string
  {
    if ids == [] then ""
    else
      var id := ids[|ids| - 1];
      if id in ps && ps[id].isAlive then id else LastAlive(ps, ids[..|ids| - 1])
  }

  /** Damage d dealt to player id; an elimination is broadcast with the number
      of players still alive at that moment. */
  function Hurt(s: Sweep, order: seq<string>, id: string, d: int): Sweep
    requires id in s.players
  {
    var p := Wound(s.players[id], d);
    var ps := s.players[id := p];
    if p.health <= 0 then Sweep(ps, s.events + [PlayerEliminated(id, AliveIn(ps, order))])
    else Sweep(ps, s.events)
  }

  /** The first i steps of one pass of hazard h over the players. */
  function HazardSweep(s0: Sweep, order: seq<string>, h: Hazard, i: nat): (r: Sweep)
    requires i <= |order|
    ensures r.players.Keys == s0.players.Keys
  {
    if i == 0 then s0
    else
      var s := HazardSweep(s0, order, h, i - 1);
      var id := order[i - 1];
      if id in s.players && Strikes(h, id, s.players[id]) then Hurt(s, order, id, HazardDamage(h)) else s
  }

  /** Some player among the first i of the pass is struck by h in state s. */
  predicate StruckBefore(s: Sweep, order: seq<string>, h: Hazard, i: nat)
    requires i <= |order|
  {
    i > 0 && (StruckBefore(s, order, h, i - 1) || (order[i - 1] in s.players && Strikes(h, order[i - 1], s.players[order[i - 1]])))
  }

  /** Some player of the pass is struck by h in state s. */
  predicate AnyStruck(s: Sweep, order: seq<string>, h: Hazard)
  {
    StruckBefore(s, order, h, |order|)
  }

  /** StruckBefore says what its name says: some player among the first i. */
  lemma {:induction false} StruckBeforeExists(s: Sweep, order: seq<string>, h: Hazard, i: nat)
    requires i <= |order|
    ensures StruckBefore(s, order, h, i) <==>
      exists j :: 0 <= j < i && order[j] in s.players && Strikes(h, order[j], s.players[order[j]])
  {
    if i > 0 {
      StruckBeforeExists(s, order, h, i - 1);
    }
  }

  datatype Collision = Collision(sweep: Sweep, bullets: map<nat, Bullet>)

  /** checkCollisions over the bullets with id below k, in id (= insertion)
      order: each bullet is run against every player, and deleted once it
      has struck someone. The deletion does not stop the inner loop, so a
      bullet overlapping two players damages both. */
  function CollisionSweep(s0: Sweep, bs0: map<nat, Bullet>, order: seq<string>, k: nat): (r: Collision)
    ensures r.bullets.Keys <= bs0.Keys
  {
    if k == 0 then Collision(s0, bs0)
    else
      var c := CollisionSweep(s0, bs0, order, k - 1);
      if k - 1 in c.bullets then
        var h := BulletHit(c.bullets[k - 1]);
        Collision(HazardSweep(c.sweep, order, h, |order|),
                  if AnyStruck(c.sweep, order, h) then c.bullets - {k - 1} else c.bullets)
      else c
  }

  /** The broadcast checkWinCondition makes: gameOver when exactly one player
      is alive in a room of more than one. */
  function WinCheck(ps: map<string, Player>, order: seq<string>): Option<Event>
  {
    if AliveIn(ps, order) == 1 && |ps| > 1 then Some(GameOver(LastAlive(ps, order))) else None
  }

  /** What the latched win check broadcasts: the gameOver of WinCheck, once. */
  function Announcement(latched: bool, ps: map<string, Player>, order: seq<string>): (r: seq<Event>)
    ensures |r| <= 1 && (r != [] <==> !latched && WinCheck(ps, order).Some?)
    ensures r != [] ==> r[0].GameOver? && Some(r[0]) == WinCheck(ps, order)
  {
    if !latched && WinCheck(ps, order).Some? then [WinCheck(ps, order).value] else []
  }

  // ---- what a pass may do ----

  /** s extends s0 the way a damage pass does: same players, health never
      rises, dead players untouched, every player still Consistent, and the
      only broadcasts added are eliminations. */
  ghost predicate Progress(s0: Sweep, s: Sweep)
  {
    && s.players.Keys == s0.players.Keys
    && (forall id :: id in s.players ==> s.players[id].health <= s0.players[id].health)
    && (forall id :: id in s.players && !s0.players[id].isAlive ==> s.players[id] == s0.players[id])
    && (forall id :: id in s.players && Consistent(s0.players[id]) ==> Consistent(s.players[id]))
    && |s0.events| <= |s.events| && s.events[..|s0.events|] == s0.events
    && (forall j :: |s0.events| <= j < |s.events| ==> s.events[j].PlayerEliminated?)
  }

  lemma ProgressTrans(a: Sweep, b: Sweep, c: Sweep)
    requires Progress(a, b) && Progress(b, c)
    ensures Progress(a, c)
  {
    assert c.events[..|b.events|][..|a.events|] == c.events[..|a.events|];
  }

  /** One hit on a living player is a step of Progress. */
  lemma HurtProgress(s: Sweep, order: seq<string>, id: string, d: int)
    requires id in s.players && s.players[id].isAlive && d >= 0
    ensures Progress(s, Hurt(s, order, id, d))
  {
    var r := Hurt(s, order, id, d);
    if Consistent(s.players[id]) {
      WoundConsistent(s.players[id], d);
    }
    assert r.events[..|s.events|] == s.events;
  }

  lemma {:induction false} HazardSweepProgress(s0: Sweep, order: seq<string>, h: Hazard, i: nat)
    requires i <= |order| && HazardDamage(h) >= 0
    ensures Progress(s0, HazardSweep(s0, order, h, i))
  {
    if i == 0 {
      assert s0.events[..|s0.events|] == s0.events;
    } else {
      HazardSweepProgress(s0, order, h, i - 1);
      var s := HazardSweep(s0, order, h, i - 1);
      var id := order[i - 1];
      if id in s.players && Strikes(h, id, s.players[id]) {
        HurtProgress(s, order, id, HazardDamage(h));
        ProgressTrans(s0, s, Hurt(s, order, id, HazardDamage(h)));
      }
    }
  }

  /** A pass adds no gameOver broadcast. */
  lemma PassAddsNoGameOver(s0: Sweep, s: Sweep)
    requires Progress(s0, s)
    ensures GameOverCount(s.events) == GameOverCount(s0.events)
  {
    var added := s.events[|s0.events|..];
    assert s.events == s0.events + added;
    NoGameOverAdded(s0.events, added);
  }

  /** Each player is visited once: after the pass it has taken the hazard's
      damage exactly when the hazard struck it in the state before the pass. */
  lemma {:induction false} HazardSweepEffect(s0: Sweep, order: seq<string>, h: Hazard, i: nat, id: string)
    requires i <= |order| && Distinct(order) && id in s0.players
    ensures HazardSweep(s0, order, h, i).players[id] ==
      if id in order[..i] && Strikes(h, id, s0.players[id]) then Wound(s0.players[id], HazardDamage(h))
      else s0.players[id]
  {
    if i > 0 {
      HazardSweepEffect(s0, order, h, i - 1, id);
      var x := order[i - 1];
      assert order[..i] == order[..i - 1] + [x];
      if x == id {
        assert id !in order[..i - 1];
      }
    }
  }

  /** The broadcasts a pass adds after s0's are eliminations of players
      among `visited` that were alive before the pass and are dead after it. */
  ghost predicate EliminationsSound(s0: Sweep, r: Sweep, visited: seq<string>)
  {
    && |s0.events| <= |r.events| && r.events[..|s0.events|] == s0.events
    && forall j :: |s0.events| <= j < |r.events| ==>
         r.events[j].PlayerEliminated? && r.events[j].playerId in visited && r.events[j].playerId in s0.players
         && r.events[j].playerId in r.players
         && s0.players[r.events[j].playerId].isAlive && !r.players[r.events[j].playerId].isAlive
  }

  /** Every player among `visited` that the pass killed has its broadcast. */
  ghost predicate EliminationsComplete(s0: Sweep, r: Sweep, visited: seq<string>)
  {
    forall id :: id in visited && id in s0.players && id in r.players && s0.players[id].isAlive && !r.players[id].isAlive ==>
      exists j :: |s0.events| <= j < |r.events| && r.events[j].PlayerEliminated? && r.events[j].playerId == id
  }

  /** An elimination is broadcast for a player exactly when the pass killed it. */
  lemma {:induction false} HazardSweepEliminations(s0: Sweep, order: seq<string>, h: Hazard, i: nat)
    requires i <= |order| && Distinct(order)
    ensures EliminationsSound(s0, HazardSweep(s0, order, h, i), order[..i])
    ensures EliminationsComplete(s0, HazardSweep(s0, order, h, i), order[..i])
  {
    if i == 0 {
      assert s0.events[..|s0.events|] == s0.events;
    } else {
      HazardSweepEliminations(s0, order, h, i - 1);
      var s := HazardSweep(s0, order, h, i - 1);
      var x := order[i - 1];
      assert order[..i] == order[..i - 1] + [x];
      assert x !in order[..i - 1];
      if x in s.players && Strikes(h, x, s.players[x]) {
        HazardSweepEffect(s0, order, h, i - 1, x);
        HurtEliminations(s0, s, order, order[..i - 1], x, HazardDamage(h));
      } else if x in s0.players {
        HazardSweepEffect(s0, order, h, i - 1, x);
      }
    }
  }

  /** One step of a pass keeps both properties, visiting a fresh player x. */
  lemma HurtEliminations(s0: Sweep, s: Sweep, order: seq<string>, visited: seq<string>, x: string, d: int)
    requires x in s.players && x in s0.players && s.players[x] == s0.players[x] && s0.players[x].isAlive
    requires x !in visited && s.players.Keys == s0.players.Keys
    requires EliminationsSound(s0, s, visited) && EliminationsComplete(s0, s, visited)
    ensures EliminationsSound(s0, Hurt(s, order, x, d), visited + [x])
    ensures EliminationsComplete(s0, Hurt(s, order, x, d), visited + [x])
  {
    var r := Hurt(s, order, x, d);
    var n := |s.events|;
    if r.players[x].health <= 0 {
      assert r.events == s.events + [r.events[n]];
      assert r.events[..|s0.events|] == s.events[..|s0.events|];
      forall id | id in visited + [x] && id in s0.players && id in r.players && s0.players[id].isAlive && !r.players[id].isAlive
        ensures exists j :: |s0.events| <= j < |r.events| && r.events[j].PlayerEliminated? && r.events[j].playerId == id
      {
        if id != x {
          var j :| |s0.events| <= j < |s.events| && s.events[j].PlayerEliminated? && s.events[j].playerId == id;
          assert r.events[j] == s.events[j];
        } else {
          assert r.events[n].PlayerEliminated? && r.events[n].playerId == id;
        }
      }
    }
  }

  lemma {:induction false} CollisionBullets(s0: Sweep, bs0: map<nat, Bullet>, order: seq<string>, k: nat)
    ensures var r := CollisionSweep(s0, bs0, order, k);
      (forall id :: id in r.bullets ==> r.bullets[id] == bs0[id])
      && (forall id :: id in bs0 && id >= k ==> id in r.bullets)
  {
    if k > 0 {
      CollisionBullets(s0, bs0, order, k - 1);
    }
  }

  lemma {:induction false} CollisionProgress(s0: Sweep, bs0: map<nat, Bullet>, order: seq<string>, k: nat)
    requires forall id :: id in bs0 ==> bs0[id].damage >= 0
    ensures Progress(s0, CollisionSweep(s0, bs0, order, k).sweep)
  {
    if k == 0 {
      assert s0.events[..|s0.events|] == s0.events;
    } else {
      CollisionProgress(s0, bs0, order, k - 1);
      CollisionBullets(s0, bs0, order, k - 1);
      var c := CollisionSweep(s0, bs0, order, k - 1);
      if k - 1 in c.bullets {
        var h := BulletHit(c.bullets[k - 1]);
        HazardSweepProgress(c.sweep, order, h, |order|);
        ProgressTrans(s0, c.sweep, HazardSweep(c.sweep, order, h, |order|));
      }
    }
  }

  /** A bullet is deleted exactly when it struck someone in the state the
      loop had reached when it came to that bullet. */
  lemma {:induction false} CollisionDeletes(s0: Sweep, bs0: map<nat, Bullet>, order: seq<string>, k: nat, id: nat)
    requires id in bs0 && id < k
    ensures id !in CollisionSweep(s0, bs0, order, k).bullets <==>
      AnyStruck(CollisionSweep(s0, bs0, order, id).sweep, order, BulletHit(bs0[id]))
  {
    CollisionBullets(s0, bs0, order, id);
    if id < k - 1 {
      CollisionDeletes(s0, bs0, order, k - 1, id);
    }
  }

  // ---- the win check ----

  lemma {:induction false} NoneAlive(ps: map<string, Player>, ids: seq<string>)
    requires AliveIn(ps, ids) == 0
    ensures forall id :: id in ids && id in ps ==> !ps[id].isAlive
  {
    if ids != [] {
      NoneAlive(ps, ids[..|ids| - 1]);
      assert ids == ids[..|ids| - 1] + [ids[|ids| - 1]];
    }
  }

  /** Exactly one living player: LastAlive names it and nobody else lives. */
  lemma {:induction false} OneAlive(ps: map<string, Player>, ids: seq<string>)
    requires AliveIn(ps, ids) == 1
    ensures var w := LastAlive(ps, ids);
      w in ids && w in ps && ps[w].isAlive
      && forall id :: id in ids && id in ps && ps[id].isAlive ==> id == w
  {
    var pre := ids[..|ids| - 1];
    var x := ids[|ids| - 1];
    assert ids == pre + [x];
    if x in ps && ps[x].isAlive {
      NoneAlive(ps, pre);
    } else {
      OneAlive(ps, pre);
    }
  }

  /** Conversely, a sole living player among distinct ids is counted once. */
  lemma {:induction false} SoleSurvivor(ps: map<string, Player>, ids: seq<string>, w: string)
    requires Distinct(ids) && w in ids && w in ps && ps[w].isAlive
    requires forall id :: id in ids && id in ps && ps[id].isAlive ==> id == w
    ensures AliveIn(ps, ids) == 1 && LastAlive(ps, ids) == w
  {
    var pre := ids[..|ids| - 1];
    var x := ids[|ids| - 1];
    assert ids == pre + [x];
    if x == w {
      assert w !in pre;
      NoAliveIn(ps, pre);
    } else {
      SoleSurvivor(ps, pre, w);
    }
  }

  lemma {:induction false} NoAliveIn(ps: map<string, Player>, ids: seq<string>)
    requires forall id :: id in ids && id in ps ==> !ps[id].isAlive
    ensures AliveIn(ps, ids) == 0
  {
    if ids != [] {
      NoAliveIn(ps, ids[..|ids| - 1]);
    }
  }

  /** gameOver names the one living player, and is broadcast exactly when one
      player of several is alive. */
  lemma WinCheckWinner(ps: map<string, Player>, order: seq<string>)
    requires Distinct(order) && forall id :: id in ps <==> id in order
    ensures WinCheck(ps, order).Some? <==>
      |ps| > 1 && exists w :: w in ps && ps[w].isAlive && forall id :: id in ps && ps[id].isAlive ==> id == w
    ensures WinCheck(ps, order).Some? ==>
      var w := WinCheck(ps, order).value.winnerId;
      w in ps && ps[w].isAlive && forall id :: id in ps && ps[id].isAlive ==> id == w
  {
    if AliveIn(ps, order) == 1 {
      OneAlive(ps, order);
    }
    if |ps| > 1 && exists w :: w in ps && ps[w].isAlive && forall id :: id in ps && ps[id].isAlive ==> id == w {
      var w :| w in ps && ps[w].isAlive && forall id :: id in ps && ps[id].isAlive ==> id == w;
      SoleSurvivor(ps, order, w);
    }
  }

  /** A bullet lying inside two other players hurts them both in one tick,
      although it is deleted after the first hit. */
  lemma OneBulletTwoVictims()
    ensures var p := NewPlayer(100.0, 100.0);
      var s := Sweep(map["a" := p, "b" := p], []);
      var b := Bullet(100.0, 100.0, 0.0, "c", 10, 500);
      var r := CollisionSweep(s, map[0 := b], ["a", "b"], 1);
      r.bullets == map[] && r.sweep.players["a"].health == 90 && r.sweep.players["b"].health == 90
  {
    var p := NewPlayer(100.0, 100.0);
    var s := Sweep(map["a" := p, "b" := p], []);
    var b := Bullet(100.0, 100.0, 0.0, "c", 10, 500);
    assert Strikes(BulletHit(b), "a", p);
    assert ["a", "b"][0] == "a";
    assert AnyStruck(s, ["a", "b"], BulletHit(b));
    HazardSweepEffect(s, ["a", "b"], BulletHit(b), 2, "a");
    HazardSweepEffect(s, ["a", "b"], BulletHit(b), 2, "b");
  }

  /** Without a latch the check broadcasts again on the next tick: here one
      of two players is alive, and two checks give two gameOver messages. */
  lemma GameOverRepeats()
    ensures var ps := map["a" := NewPlayer(0.0, 0.0), "b" := NewPlayer(0.0, 0.0).(health := 0, isAlive := false)];
      var order := ["a", "b"];
      && WinCheck(ps, order) == Some(GameOver("a"))
      && GameOverCount(Announcement(false, ps, order) + Announcement(false, ps, order)) == 2
  {
    var ps := map["a" := NewPlayer(0.0, 0.0), "b" := NewPlayer(0.0, 0.0).(health := 0, isAlive := false)];
    var order := ["a", "b"];
    assert AliveIn(ps, order[..1]) == 1;
    assert LastAlive(ps, order) == "a";
    var once := Announcement(false, ps, order);
    assert once == [GameOver("a")];
    GameOverCountAppend(once, once);
  }

  /** With the latch, the first check that finds a winner sets it and every
      later check is silent, however the players change in between: a log
      without gameOver gains at most one. */
  lemma AnnouncedOnce(es: seq<Event>, ps1: map<string, Player>, order1: seq<string>, ps2: map<string, Player>, order2: seq<string>)
    requires GameOverCount(es) == 0
    ensures var first := Announcement(false, ps1, order1);
      GameOverCount(es + first + Announcement(first != [], ps2, order2)) <= 1
  {
    var first := Announcement(false, ps1, order1);
    var second := Announcement(first != [], ps2, order2);
    GameOverCountAppend(es + first, second);
    GameOverCountAppend(es, first);
    if first != [] {
      assert first == [first[0]];
      assert second == [];
    } else if second != [] {
      assert second == [second[0]];
    }
  }
}
