/** How generateWeapons(count) spreads `count` new weapons: the four quadrants
    and the centre each take min(minPerQuadrant, remaining) in turn, and what
    is left goes round-robin over a shuffled list of the eight sectors. */
module Allocation {
  import opened Entities
  import opened Zone

  datatype Quadrant = Quadrant(name: string, sectorStart: int, sectorEnd: int)

  const Quadrants: seq<Quadrant> := [
    Quadrant("Nord-Ouest", 0, 1),
    Quadrant("Nord-Est", 2, 3),
    Quadrant("Sud-Est", 4, 5),
    Quadrant("Sud-Ouest", 6, 7),
    Quadrant("Centre", -1, -1)
  ]

  function Min(a: int, b: int): int { if a <= b then a else b }

  /** At least 3 per quadrant from 15 weapons on, else max(1, floor(count / 5)). */
  function MinPerQuadrant(count: nat): nat
  {
    if count >= 15 then 3 else Max(1, count / 5)
  }

  /** `remainingCount` when the loop reaches quadrant q (q = 5: after all five). */
  function Remaining(count: nat, q: nat): (r: nat)
    requires q <= 5
    ensures r <= count
    decreases q, 0
  {
    if q == 0 then count
    else Remaining(count, q - 1) - Share(count, q - 1)
  }

  /** `quadrantCount` of quadrant q. */
  function Share(count: nat, q: nat): (s: nat)
    requires q < 5
    ensures s <= Remaining(count, q) && s <= MinPerQuadrant(count)
    decreases q, 2
  {
    Min(MinPerQuadrant(count), Remaining(count, q))
  }

  /** The i-th weapon of a quadrant: the centre's get the central band, the
      others alternate between the quadrant's two sectors. */
  function QuadrantSlot(q: Quadrant, i: nat): Slot
  {
    if q.name == "Centre" then Centre
    else Sector(q.sectorStart + (if i % 2 == 0 then 0 else 1))
  }

  function QuadrantSlots(q: Quadrant, n: nat): seq<Slot>
  {
    seq(n, i requires 0 <= i => QuadrantSlot(q, i))
  }

  /** The slots the first q quadrants ask for, in loop order. */
  function QuadrantPlan(count: nat, q: nat): seq<Slot>
    requires q <= 5
  {
    if q == 0 then [] else QuadrantPlan(count, q - 1) + QuadrantSlots(Quadrants[q - 1], Share(count, q - 1))
  }

  /** The leftover weapons, spread over the shuffled sector list. */
  function RemainderSlots(sectors: seq<int>, n: nat): seq<Slot>
    requires |sectors| == 8
  {
    seq(n, i requires 0 <= i => Sector(sectors[i % 8]))
  }

  /** Every slot generateWeapons(count) asks the planner for, in order. */
  function Plan(count: nat, sectors: seq<int>): seq<Slot>
    requires |sectors| == 8
  {
    QuadrantPlan(count, 5) + RemainderSlots(sectors, Remaining(count, 5))
  }

  /** m is m0 plus the weapons generateWeaponInSector stores for `slots`,
      under the fresh ids start, start + 1, ...; `place` stands for the
      randomised position and type (and the collider retry) of each one. */
  ghost predicate Stocked(m0: map<nat, WeaponItem>, m: map<nat, WeaponItem>, start: nat, slots: seq<Slot>, place: (Slot, nat) -> Placement)
  {
    && (forall id :: id in m <==> id in m0 || start <= id < start + |slots|)
    && (forall id :: id in m ==>
          m[id] == if start <= id < start + |slots| then ItemFor(place(slots[id - start], id)) else m0[id])
  }

  lemma StockedNone(m0: map<nat, WeaponItem>, start: nat, place: (Slot, nat) -> Placement)
    ensures Stocked(m0, m0, start, [], place)
  {
  }

  lemma StockedSnoc(m0: map<nat, WeaponItem>, m: map<nat, WeaponItem>, start: nat, slots: seq<Slot>, slot: Slot, place: (Slot, nat) -> Placement)
    requires Stocked(m0, m, start, slots, place)
    ensures Stocked(m0, m[start + |slots| := ItemFor(place(slot, start + |slots|))], start, slots + [slot], place)
  {
    var m' := m[start + |slots| := ItemFor(place(slot, start + |slots|))];
    forall id | id in m'
      ensures m'[id] == if start <= id < start + |slots| + 1 then ItemFor(place((slots + [slot])[id - start], id)) else m0[id]
    {
      if start <= id < start + |slots| {
        assert (slots + [slot])[id - start] == slots[id - start];
      }
    }
  }

  lemma StockedAppend(m0: map<nat, WeaponItem>, m1: map<nat, WeaponItem>, m2: map<nat, WeaponItem>, start: nat, mid: nat, xs: seq<Slot>, ys: seq<Slot>, place: (Slot, nat) -> Placement)
    requires mid == start + |xs|
    requires Stocked(m0, m1, start, xs, place) && Stocked(m1, m2, mid, ys, place)
    ensures Stocked(m0, m2, start, xs + ys, place)
  {
    forall id | id in m2
      ensures m2[id] == if start <= id < start + |xs + ys| then ItemFor(place((xs + ys)[id - start], id)) else m0[id]
    {
      if start + |xs| <= id < start + |xs| + |ys| {
        assert (xs + ys)[id - start] == ys[id - (start + |xs|)];
      } else if start <= id < start + |xs| {
        assert (xs + ys)[id - start] == xs[id - start];
      }
    }
  }

  /** What ensureMinimumWeapons makes of the pool w0, whose fresh ids start
      at `start`: below 15 weapons it is topped up to exactly 15 by the
      weapons generateWeapons places, above 20 it is trimmed to exactly 20
      of its own weapons, and otherwise it is left alone. */
  ghost predicate Restocked(w0: map<nat, WeaponItem>, w: map<nat, WeaponItem>, start: nat, sectors: seq<int>, place: (Slot, nat) -> Placement)
    requires |sectors| == 8
  {
    && (|w0| < MinWeapons ==> |w| == MinWeapons && Stocked(w0, w, start, Plan(MinWeapons - |w0|, sectors), place))
    && (|w0| > MaxWeapons ==> |w| == MaxWeapons && w.Keys <= w0.Keys && forall id :: id in w ==> w[id] == w0[id])
    && (MinWeapons <= |w0| <= MaxWeapons ==> w == w0)
  }

  /** The ids start, start + 1, ..., start + n - 1. */
  function IdRange(start: nat, n: nat): (r: set<nat>)
    ensures forall id :: id in r <==> start <= id < start + n
  {
    if n == 0 then {} else IdRange(start, n - 1) + {start + n - 1}
  }

  lemma {:induction false} IdRangeSize(start: nat, n: nat)
    ensures |IdRange(start, n)| == n
  {
    if n > 0 {
      var below := IdRange(start, n - 1);
      IdRangeSize(start, n - 1);
      assert start + n - 1 !in below;
      assert |below + {start + n - 1}| == |below| + 1;
    }
  }

  /** The ids of a stocked pool: the old ones and the fresh range. */
  lemma StockedKeys(m0: map<nat, WeaponItem>, m: map<nat, WeaponItem>, start: nat, slots: seq<Slot>, place: (Slot, nat) -> Placement)
    requires Stocked(m0, m, start, slots, place)
    ensures m.Keys == m0.Keys + IdRange(start, |slots|)
  {
    forall id
      ensures id in m.Keys <==> id in m0.Keys + IdRange(start, |slots|)
    {
    }
  }

  /** Fresh ids above every existing one: the pool grows by |slots|. */
  lemma StockedSize(m0: map<nat, WeaponItem>, m: map<nat, WeaponItem>, start: nat, slots: seq<Slot>, place: (Slot, nat) -> Placement)
    requires forall id :: id in m0 ==> id < start
    requires Stocked(m0, m, start, slots, place)
    ensures |m| == |m0| + |slots|
  {
    var ids := IdRange(start, |slots|);
    StockedKeys(m0, m, start, slots, place);
    assert m0.Keys !! ids;
    IdRangeSize(start, |slots|);
    assert |m.Keys| == |m0.Keys| + |ids|;
  }

  /** One turn of the quadrant loop. */
  lemma QuadrantStep(count: nat, q: nat)
    requires q < 5
    ensures Share(count, q) == Min(MinPerQuadrant(count), Remaining(count, q))
    ensures Remaining(count, q + 1) == Remaining(count, q) - Share(count, q)
    ensures QuadrantPlan(count, q + 1) == QuadrantPlan(count, q) + QuadrantSlots(Quadrants[q], Share(count, q))
  {
  }

  lemma QuadrantSlotsSnoc(q: Quadrant, i: nat)
    ensures QuadrantSlots(q, i + 1) == QuadrantSlots(q, i) + [QuadrantSlot(q, i)]
  {
  }

  lemma RemainderSlotsSnoc(sectors: seq<int>, i: nat)
    requires |sectors| == 8
    ensures RemainderSlots(sectors, i + 1) == RemainderSlots(sectors, i) + [Sector(sectors[i % 8])]
  {
  }

  /** n weapons in the inner band, as after a shrink. */
  function InnerSlots(n: nat): seq<Slot>
  {
    seq(n, i requires 0 <= i => Inner)
  }

  lemma {:induction false} QuadrantPlanLength(count: nat, q: nat)
    requires q <= 5
    ensures |QuadrantPlan(count, q)| + Remaining(count, q) == count
  {
    if q > 0 {
      QuadrantPlanLength(count, q - 1);
    }
  }

  /** generateWeapons(count) asks for exactly `count` weapons. */
  lemma PlanLength(count: nat, sectors: seq<int>)
    requires |sectors| == 8
    ensures |Plan(count, sectors)| == count
  {
    QuadrantPlanLength(count, 5);
  }

  /** From 15 weapons on, each quadrant and the centre get exactly 3 and the
      rest, count - 15, is spread round-robin over the sectors. */
  lemma LargeAllocation(count: nat)
    requires count >= 15
    ensures forall q :: 0 <= q < 5 ==> Share(count, q) == 3
    ensures Remaining(count, 5) == count - 15
  {
    assert Remaining(count, 1) == count - 3;
    assert Remaining(count, 2) == count - 6;
    assert Remaining(count, 3) == count - 9;
    assert Remaining(count, 4) == count - 12;
  }

  /** Below 15 weapons but at least 5: floor(count / 5) each and count mod 5 left over. */
  lemma MediumAllocation(count: nat)
    requires 5 <= count < 15
    ensures forall q :: 0 <= q < 5 ==> Share(count, q) == count / 5
    ensures Remaining(count, 5) == count % 5
  {
    var m := count / 5;
    assert Remaining(count, 1) == count - m;
    assert Remaining(count, 2) == count - 2 * m;
    assert Remaining(count, 3) == count - 3 * m;
    assert Remaining(count, 4) == count - 4 * m;
  }

  /** Fewer than 5 weapons: one each in the first `count` quadrants, none left. */
  lemma SmallAllocation(count: nat)
    requires count < 5
    ensures forall q :: 0 <= q < 5 ==> Share(count, q) == (if q < count then 1 else 0)
    ensures Remaining(count, 5) == 0
  {
    assert Remaining(count, 1) == Max(0, count - 1);
    assert Remaining(count, 2) == Max(0, count - 2);
    assert Remaining(count, 3) == Max(0, count - 3);
    assert Remaining(count, 4) == Max(0, count - 4);
  }

  /** Every sector slot names one of the eight sectors. */
  lemma PlanSectorsInRange(count: nat, sectors: seq<int>)
    requires |sectors| == 8 && forall i :: 0 <= i < 8 ==> 0 <= sectors[i] < 8
    ensures forall i :: 0 <= i < |Plan(count, sectors)| && Plan(count, sectors)[i].Sector? ==>
      0 <= Plan(count, sectors)[i].index < 8
  {
    QuadrantPlanSectors(count, 5);
  }

  lemma {:induction false} QuadrantPlanSectors(count: nat, q: nat)
    requires q <= 5
    ensures forall i :: 0 <= i < |QuadrantPlan(count, q)| && QuadrantPlan(count, q)[i].Sector? ==>
      0 <= QuadrantPlan(count, q)[i].index < 8
  {
    if q > 0 {
      QuadrantPlanSectors(count, q - 1);
    }
  }
}
