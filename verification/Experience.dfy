/** How the experience of a slain creature is split among those who damaged it. Ratios are exact. */
module Experience {
  import opened Arithmetic

  type Id = nat

  /** An entry of the damage map, or of the experience map. */
  datatype Entry = Entry(id: Id, points: int)

  // ---------- ordered maps as lists of entries ----------

  function Total(s: seq<Entry>): int {
    if s == [] then 0 else Total(s[..|s| - 1]) + s[|s| - 1].points
  }

  /** What the list holds for one id. */
  function Held(s: seq<Entry>, id: Id): int {
    if s == [] then 0 else Held(s[..|s| - 1], id) + if s[|s| - 1].id == id then s[|s| - 1].points else 0
  }

  predicate Has(s: seq<Entry>, id: Id) {
    exists k :: 0 <= k < |s| && s[k].id == id
  }

  predicate Ascending(s: seq<Entry>) {
    forall j, k :: 0 <= j < k < |s| ==> s[j].id < s[k].id
  }

  /** map[id] += points, in the order of the ids. */
  function Added(s: seq<Entry>, id: Id, points: int): seq<Entry> {
    if s == [] then [Entry(id, points)]
    else
      var front, last := s[..|s| - 1], s[|s| - 1];
      if last.id < id then s + [Entry(id, points)]
      else if last.id == id then front + [Entry(id, last.points + points)]
      else Added(front, id, points) + [last]
  }

  lemma Snoc(s: seq<Entry>, e: Entry)
    ensures Total(s + [e]) == Total(s) + e.points
    ensures forall id :: Held(s + [e], id) == Held(s, id) + if e.id == id then e.points else 0
  {
    assert (s + [e])[..|s|] == s;
  }

  lemma AddedMeans(s: seq<Entry>, id: Id, points: int)
    requires Ascending(s)
    ensures Ascending(Added(s, id, points))
    ensures forall a :: Has(Added(s, id, points), a) <==> Has(s, a) || a == id
    ensures Total(Added(s, id, points)) == Total(s) + points
    ensures forall a :: Held(Added(s, id, points), a) == Held(s, a) + if a == id then points else 0
  {
    AddedKeys(s, id, points);
    AddedSums(s, id, points);
  }

  lemma {:induction false} AddedSums(s: seq<Entry>, id: Id, points: int)
    ensures Total(Added(s, id, points)) == Total(s) + points
    ensures forall a :: Held(Added(s, id, points), a) == Held(s, a) + if a == id then points else 0
    decreases |s|
  {
    hide Total, Held;
    if s == [] {
      assert s + [Entry(id, points)] == [Entry(id, points)];
      Snoc(s, Entry(id, points));
    } else {
      var front, last := s[..|s| - 1], s[|s| - 1];
      assert s == front + [last];
      Snoc(front, last);
      if last.id < id {
        Snoc(s, Entry(id, points));
      } else if last.id == id {
        Snoc(front, Entry(id, last.points + points));
      } else {
        AddedSums(front, id, points);
        Snoc(Added(front, id, points), last);
      }
    }
  }

  lemma {:induction false} AddedKeys(s: seq<Entry>, id: Id, points: int)
    requires Ascending(s)
    ensures Ascending(Added(s, id, points))
    ensures forall a :: Has(Added(s, id, points), a) <==> Has(s, a) || a == id
    decreases |s|
  {
    hide Has;
    if s == [] {
      HasSnoc([], Entry(id, points));
      assert [] + [Entry(id, points)] == [Entry(id, points)];
    } else {
      var front, last := s[..|s| - 1], s[|s| - 1];
      assert s == front + [last];
      HasSnoc(front, last);
      if last.id < id {
        HasSnoc(s, Entry(id, points));
      } else if last.id == id {
        HasSnoc(front, Entry(id, last.points + points));
      } else {
        AddedKeys(front, id, points);
        HasSnoc(Added(front, id, points), last);
        StaysAscending(Added(front, id, points), front, id, last);
      }
    }
  }

  lemma StaysAscending(s: seq<Entry>, front: seq<Entry>, id: Id, last: Entry)
    requires Ascending(s) && Ascending(front + [last]) && id < last.id
    requires forall a :: Has(s, a) <==> Has(front, a) || a == id
    ensures Ascending(s + [last])
  {
    forall k | 0 <= k < |s| ensures s[k].id < last.id {
      assert Has(s, s[k].id);
      if s[k].id != id {
        var j :| 0 <= j < |front| && front[j].id == s[k].id;
        assert (front + [last])[j].id < (front + [last])[|front|].id;
      }
    }
  }

  lemma HasSnoc(s: seq<Entry>, e: Entry)
    ensures forall a :: Has(s + [e], a) <==> Has(s, a) || a == e.id
  {
    forall a ensures Has(s + [e], a) <==> Has(s, a) || a == e.id {
      if Has(s, a) {
        var k :| 0 <= k < |s| && s[k].id == a;
        assert (s + [e])[k].id == a;
      }
      if a == e.id {
        assert (s + [e])[|s|].id == a;
      }
    }
  }

  /** An id that comes once holds its own entry. */
  lemma HeldOnce(s: seq<Entry>, k: nat)
    requires Ascending(s) && k < |s|
    ensures Held(s, s[k].id) == s[k].points
  {
    var front, last := s[..|s| - 1], s[|s| - 1];
    if k == |s| - 1 {
      HeldNone(front, last.id);
    } else {
      HeldOnce(front, k);
    }
  }

  lemma HeldNone(s: seq<Entry>, id: Id)
    requires forall k :: 0 <= k < |s| ==> s[k].id != id
    ensures Held(s, id) == 0
  {
    if s != [] {
      HeldNone(s[..|s| - 1], id);
    }
  }

  // ---------- shares ----------

  /** getGainedExperience: the share of one attacker in whole points. */
  function Share(damage: seq<Entry>, lost: nat, id: Id): int {
    if Total(damage) == 0 then 0 else Held(damage, id) * lost / Total(damage)
  }

  predicate Positive(damage: seq<Entry>) {
    forall k :: 0 <= k < |damage| ==> damage[k].points > 0
  }

  /** What is handed out for the attackers in s that `counts` admits, to receivers that `to` admits. */
  ghost function HandedOut(s: seq<Entry>, damage: seq<Entry>, lost: nat, counts: Id -> bool, to: Id -> bool): int {
    if s == [] then 0
    else
      var id := s[|s| - 1].id;
      HandedOut(s[..|s| - 1], damage, lost, counts, to) + if counts(id) && to(id) then Share(damage, lost, id) else 0
  }

  ghost function All(): Id -> bool {
    (id: Id) => true
  }

  ghost function LedTo(leader: Id -> Id, r: Id): Id -> bool {
    (id: Id) => leader(id) == r
  }

  /** Rounding down loses less than one point per attacker. */
  lemma {:induction false} FloorsOfParts(s: seq<Entry>, damage: seq<Entry>, lost: nat)
    requires Total(damage) > 0 && Positive(s)
    requires forall k :: 0 <= k < |s| ==> Held(damage, s[k].id) == s[k].points
    ensures var total, shares := Total(damage), HandedOut(s, damage, lost, All(), All());
            total * shares <= Total(s) * lost <= total * shares + total * |s|
            && (s != [] ==> Total(s) * lost < total * shares + total * |s|)
    decreases |s|
  {
    hide Held;
    if s != [] {
      var front, e, total := s[..|s| - 1], s[|s| - 1], Total(damage);
      FloorsOfParts(front, damage, lost);
      Quotient(e.points * lost, total);
      AddProducts(Total(front), e.points, lost);
      AddFactors(total, HandedOut(front, damage, lost, All(), All()), Share(damage, lost, e.id));
      AddFactors(total, |front|, 1);
      assert All()(e.id);
    }
  }

  lemma AddFactors(d: int, a: int, b: int)
    ensures d * (a + b) == d * a + d * b
  {
  }

  lemma Scaled(total: int, lost: int, shares: int, n: int)
    requires total > 0 && total * shares <= total * lost < total * shares + total * n
    ensures 0 <= lost - shares < n
  {
    AddFactors(total, shares, n);
    Order(total, lost, shares);
    Order(total, lost, shares + n);
    Order(total, shares + n, lost);
  }

  lemma ShareNonNegative(damage: seq<Entry>, lost: nat, k: nat)
    requires Positive(damage) && Ascending(damage) && k < |damage|
    ensures Share(damage, lost, damage[k].id) >= 0
  {
    HeldOnce(damage, k);
    TotalNonNegative(damage);
    if Total(damage) != 0 {
      Product(damage[k].points, lost);
      Quotient(damage[k].points * lost, Total(damage));
    }
  }

  lemma TotalNonNegative(damage: seq<Entry>)
    requires Positive(damage)
    ensures Total(damage) >= |damage|
  {
    if damage != [] {
      TotalNonNegative(damage[..|damage| - 1]);
    }
  }

  /** Leaving attackers out only takes away. */
  lemma {:induction false} FewerShares(s: seq<Entry>, damage: seq<Entry>, lost: nat, counts: Id -> bool)
    requires forall k :: 0 <= k < |s| ==> Share(damage, lost, s[k].id) >= 0
    ensures HandedOut(s, damage, lost, counts, All()) <= HandedOut(s, damage, lost, All(), All())
    ensures (forall k :: 0 <= k < |s| ==> counts(s[k].id)) ==>
              HandedOut(s, damage, lost, counts, All()) == HandedOut(s, damage, lost, All(), All())
    decreases |s|
  {
    hide Share;
    if s != [] {
      FewerShares(s[..|s| - 1], damage, lost, counts);
      assert All()(s[|s| - 1].id);
    }
  }

  /** The experience handed out never exceeds what was lost; and it falls short by less than one point per
      attacker if every attacker counts. */
  lemma NeverTooMuch(damage: seq<Entry>, lost: nat, counts: Id -> bool)
    requires Ascending(damage) && Positive(damage) && damage != []
    ensures HandedOut(damage, damage, lost, counts, All()) <= lost
    ensures (forall k :: 0 <= k < |damage| ==> counts(damage[k].id)) ==>
              lost - HandedOut(damage, damage, lost, counts, All()) < |damage|
  {
    hide Held, Share, Total, HandedOut;
    TotalNonNegative(damage);
    forall k | 0 <= k < |damage|
      ensures Held(damage, damage[k].id) == damage[k].points && Share(damage, lost, damage[k].id) >= 0
    {
      HeldOnce(damage, k);
      ShareNonNegative(damage, lost, k);
    }
    FloorsOfParts(damage, damage, lost);
    Scaled(Total(damage), lost, HandedOut(damage, damage, lost, All(), All()), |damage|);
    FewerShares(damage, damage, lost, counts);
  }

  // ---------- the victim ----------

  class Creature {
    const id: Id
    var damageMap: seq<Entry>

    /** The map is ordered by attacker, and only attackers with damage are in it. */
    ghost predicate Valid()
      reads this
    {
      Ascending(damageMap) && Positive(damageMap)
    }

    constructor (id: Id)
      ensures this.id == id && damageMap == [] && Valid()
    {
      this.id, damageMap := id, [];
    }

    /** addDamagePoints: what an attacker did adds up; nothing else changes. */
    method AddDamagePoints(attacker: Id, points: int)
      requires Valid()
      modifies this
      ensures Valid()
      ensures forall a :: Held(damageMap, a) == old(Held(damageMap, a)) + if a == attacker && points > 0 then points else 0
      ensures forall a :: Has(damageMap, a) <==> old(Has(damageMap, a)) || (a == attacker && points > 0)
      ensures Total(damageMap) == old(Total(damageMap)) + if points > 0 then points else 0
    {
      if points <= 0 {
        return;
      }
      AddedMeans(damageMap, attacker, points);
      AddedPositive(damageMap, attacker, points);
      damageMap := Added(damageMap, attacker, points);
    }

    /** The loop of getDamageRatio. */
    method DamageOf(attacker: Id) returns (attackerDamage: int, totalDamage: int)
      ensures totalDamage == Total(damageMap) && attackerDamage == Held(damageMap, attacker)
    {
      totalDamage, attackerDamage := 0, 0;
      var k := 0;
      while k < |damageMap|
        invariant 0 <= k <= |damageMap|
        invariant totalDamage == Total(damageMap[..k]) && attackerDamage == Held(damageMap[..k], attacker)
      {
        var e := damageMap[k];
        assert damageMap[..k + 1] == damageMap[..k] + [e];
        Snoc(damageMap[..k], e);
        totalDamage := totalDamage + e.points;
        if e.id == attacker {
          attackerDamage := attackerDamage + e.points;
        }
        k := k + 1;
      }
      assert damageMap[..k] == damageMap;
    }

    /** getGainedExperience of the base class: floor(ratio * lost). */
    method GetGainedExperience(attacker: Id, lost: nat) returns (gain: int)
      requires Valid()
      ensures gain == Share(damageMap, lost, attacker)
      ensures damageMap == [] ==> gain == 0
      ensures damageMap != [] ==> Total(damageMap) > 0 && gain == Held(damageMap, attacker) * lost / Total(damageMap)
    {
      var attackerDamage, totalDamage := DamageOf(attacker);
      TotalNonNegative(damageMap);
      HeldNonNegative(damageMap, attacker);
      var ratio := 0.0;
      if totalDamage != 0 {
        ratio := attackerDamage as real / totalDamage as real;
        FloorOfRatio(attackerDamage, totalDamage, lost);
      }
      gain := (ratio * lost as real).Floor;
    }

    /** The attackers that get something: they are still in the game and not the victim. */
    ghost function Counts(exist: set<Id>): Id -> bool {
      (a: Id) => a in exist && a != id
    }

    /** The experience loop of onDeath. `exist` are the creatures in the game; `leader` leads from a
        creature to the one that gets its experience: itself, or the leader of a party that shares. Every
        receiver gets the shares of those it leads, so merging changes nothing about the sum. */
    method ShareExperience(exist: set<Id>, leader: Id -> Id, lost: nat) returns (experienceMap: seq<Entry>)
      requires Valid()
      ensures Ascending(experienceMap)
      ensures forall r :: Held(experienceMap, r) == HandedOut(damageMap, damageMap, lost, Counts(exist), LedTo(leader, r))
      ensures Total(experienceMap) == HandedOut(damageMap, damageMap, lost, Counts(exist), All())
      ensures damageMap != [] ==> Total(experienceMap) <= lost
      ensures damageMap != [] && (forall k :: 0 <= k < |damageMap| ==> damageMap[k].id in exist && damageMap[k].id != id) ==>
                lost < Total(experienceMap) + |damageMap|
      ensures forall r :: (forall k :: 0 <= k < |damageMap| && leader(damageMap[k].id) == r ==>
                             damageMap[k].id == id || damageMap[k].id !in exist) ==> Held(experienceMap, r) == 0
    {
      hide Total, Held, Added, Share, HandedOut;
      experienceMap := [];
      NothingYet(damageMap, lost, Counts(exist));
      var k := 0;
      while k < |damageMap|
        invariant 0 <= k <= |damageMap| && Ascending(experienceMap)
        invariant forall r :: Held(experienceMap, r) == HandedOut(damageMap[..k], damageMap, lost, Counts(exist), LedTo(leader, r))
        invariant Total(experienceMap) == HandedOut(damageMap[..k], damageMap, lost, Counts(exist), All())
      {
        var attacker := damageMap[k].id;
        OneMore(damageMap, k, lost, Counts(exist), leader);
        if attacker in exist && attacker != id {
          var gain := GetGainedExperience(attacker, lost);
          AddedMeans(experienceMap, leader(attacker), gain);
          experienceMap := Added(experienceMap, leader(attacker), gain);
        }
        k := k + 1;
      }
      assert damageMap[..k] == damageMap;
      if damageMap != [] {
        NeverTooMuch(damageMap, lost, Counts(exist));
      }
      NobodyElse(damageMap, damageMap, lost, Counts(exist), leader);
    }
  }

  /** Who leads no attacker that counts gets nothing. */
  lemma {:induction false} NobodyElse(s: seq<Entry>, damage: seq<Entry>, lost: nat, counts: Id -> bool, leader: Id -> Id)
    ensures forall r :: (forall k :: 0 <= k < |s| && leader(s[k].id) == r ==> !counts(s[k].id)) ==>
              HandedOut(s, damage, lost, counts, LedTo(leader, r)) == 0
  {
    hide Share;
    if s != [] {
      NobodyElse(s[..|s| - 1], damage, lost, counts, leader);
    }
  }

  /** A single attacker gets all of it, another one nothing. */
  lemma SoleAttacker(points: int, lost: nat, a: Id, other: Id)
    requires points > 0 && other != a
    ensures Share([Entry(a, points)], lost, a) == lost && Share([Entry(a, points)], lost, other) == 0
  {
    assert Total([Entry(a, points)]) == points && Held([Entry(a, points)], a) == points by { Snoc([], Entry(a, points)); }
    assert [Entry(a, points)][..0] == [];
    HeldNone([Entry(a, points)], other);
    QuotientIs(points * lost, points, lost);
    QuotientIs(0 * lost, points, 0);
  }

  lemma AddedPositive(s: seq<Entry>, id: Id, points: int)
    requires Positive(s) && points > 0
    ensures Positive(Added(s, id, points))
    decreases |s|
  {
    if s != [] && s[|s| - 1].id > id {
      AddedPositive(s[..|s| - 1], id, points);
    }
  }

  lemma HeldNonNegative(s: seq<Entry>, id: Id)
    requires Positive(s)
    ensures Held(s, id) >= 0
  {
    if s != [] {
      HeldNonNegative(s[..|s| - 1], id);
    }
  }

  lemma NothingYet(damage: seq<Entry>, lost: nat, counts: Id -> bool)
    ensures Total([]) == 0 && (forall r :: Held([], r) == 0) && damage[..0] == []
    ensures forall to: Id -> bool :: HandedOut([], damage, lost, counts, to) == 0
  {
  }

  lemma OneMore(damage: seq<Entry>, k: nat, lost: nat, counts: Id -> bool, leader: Id -> Id)
    requires k < |damage|
    ensures var id := damage[k].id;
            var gain := if counts(id) then Share(damage, lost, id) else 0;
            HandedOut(damage[..k + 1], damage, lost, counts, All()) == HandedOut(damage[..k], damage, lost, counts, All()) + gain
            && forall r :: HandedOut(damage[..k + 1], damage, lost, counts, LedTo(leader, r))
                           == HandedOut(damage[..k], damage, lost, counts, LedTo(leader, r)) + if leader(id) == r then gain else 0
  {
    hide Share;
    assert damage[..k + 1][..k] == damage[..k];
    assert All()(damage[k].id);
  }

  lemma FloorOfRatio(d: nat, total: nat, lost: nat)
    requires total > 0
    ensures (d as real / total as real * lost as real).Floor == d * lost / total
  {
    var q := d * lost / total;
    Quotient(d * lost, total);
    AddFactors(total, q, 1);
    RatioTimes(d as real, total as real, lost as real);
    ProductAsReal(d, lost);
    ProductAsReal(total, q);
    ProductAsReal(total, q + 1);
    assert (total * q) as real <= (d * lost) as real < (total * (q + 1)) as real;
    Between(total as real, d as real / total as real * lost as real, d as real * lost as real, q as real, (q + 1) as real);
    FloorIs(d as real / total as real * lost as real, q, total as real);
  }

  lemma Between(t: real, r: real, p: real, a: real, b: real)
    requires t * r == p && t * a <= p < t * b
    ensures t * a <= t * r < t * b
  {
  }

  lemma FloorIs(r: real, q: int, t: real)
    requires t > 0.0 && t * (q as real) <= t * r < t * ((q + 1) as real)
    ensures r.Floor == q
  {
    RealOrder(q as real, r, t);
    RealOrder(r, (q + 1) as real, t);
  }

  lemma RatioTimes(d: real, t: real, l: real)
    requires t > 0.0
    ensures t * (d / t * l) == d * l
  {
    assert t * (d / t) == d;
    assert t * (d / t * l) == (t * (d / t)) * l;
  }

  lemma ProductAsReal(a: int, b: int)
    ensures (a * b) as real == a as real * b as real
  {
  }

  lemma RealOrder(x: real, y: real, t: real)
    requires t > 0.0
    ensures x <= y <==> t * x <= t * y
    ensures x < y <==> t * x < t * y
  {
  }
}
