/** The condition list of a creature and the modifiers its conditions put on speed, skills and stats:
    whatever is added when a condition starts or is merged is taken back when it ends. */
module Modifiers {

  const SKILL_COUNT := 13
  const STAT_COUNT := 4
  const STAT_SOULPOINTS := 2

  const HASTE := 0x10
  const PARALYZE := 0x20
  const ATTRIBUTES := 0x8_0000

  datatype Effect =
    | SpeedChange(speedDelta: int)
    | Bonuses(skills: seq<int>, skillsPercent: seq<int>, stats: seq<int>, statsPercent: seq<int>)
    | Other

  /** ticks == -1 stands for a condition without end. */
  datatype Condition = Condition(ctype: int, id: int, subId: nat, ticks: int, endTime: int, effect: Effect)

  predicate SameKey(c: Condition, d: Condition) {
    c.ctype == d.ctype && c.id == d.id && c.subId == d.subId
  }

  /** The class of a condition goes with its type. */
  predicate Typed(c: Condition) {
    (c.effect.SpeedChange? <==> c.ctype == HASTE || c.ctype == PARALYZE)
    && (c.effect.Bonuses? <==> c.ctype == ATTRIBUTES)
    && (c.effect.Bonuses? ==> |c.effect.skills| == |c.effect.skillsPercent| == SKILL_COUNT
                              && |c.effect.stats| == |c.effect.statsPercent| == STAT_COUNT)
  }

  // ---------- what a condition contributes ----------

  datatype Part = Speed | Skill(i: int) | Stat(i: int)

  function At(s: seq<int>, i: int): int {
    if 0 <= i < |s| then s[i] else 0
  }

  /** Bonuses reach players only. */
  function Delta(c: Condition, p: Part, isPlayer: bool): int {
    match c.effect
    case SpeedChange(d) => if p.Speed? then d else 0
    case Bonuses(skills, _, stats, _) =>
      if !isPlayer then 0
      else (match p case Speed => 0 case Skill(i) => At(skills, i) case Stat(i) => At(stats, i))
    case Other => 0
  }

  function Sum(s: seq<Condition>, p: Part, isPlayer: bool): int {
    if s == [] then 0 else Sum(s[..|s| - 1], p, isPlayer) + Delta(s[|s| - 1], p, isPlayer)
  }

  lemma SumSnoc(s: seq<Condition>, c: Condition, p: Part, isPlayer: bool)
    ensures Sum(s + [c], p, isPlayer) == Sum(s, p, isPlayer) + Delta(c, p, isPlayer)
  {
    assert (s + [c])[..|s|] == s;
  }

  lemma {:induction false} SumConcat(s: seq<Condition>, t: seq<Condition>, p: Part, isPlayer: bool)
    ensures Sum(s + t, p, isPlayer) == Sum(s, p, isPlayer) + Sum(t, p, isPlayer)
    decreases |t|
  {
    hide Delta;
    if t == [] {
      assert s + t == s;
    } else {
      var front, last := t[..|t| - 1], t[|t| - 1];
      assert s + t == (s + front) + [last];
      SumSnoc(s + front, last, p, isPlayer);
      SumConcat(s, front, p, isPlayer);
    }
  }

  function Without(s: seq<Condition>, k: int): seq<Condition>
    requires 0 <= k < |s|
  {
    s[..k] + s[k + 1..]
  }

  lemma SumAround(s: seq<Condition>, k: nat, c: Condition, p: Part, isPlayer: bool)
    requires k < |s|
    ensures Sum(Without(s, k), p, isPlayer) == Sum(s, p, isPlayer) - Delta(s[k], p, isPlayer)
    ensures Sum(s[k := c], p, isPlayer) == Sum(s, p, isPlayer) - Delta(s[k], p, isPlayer) + Delta(c, p, isPlayer)
  {
    hide Delta;
    var a, b := s[..k], s[k + 1..];
    assert s == (a + [s[k]]) + b && s[k := c] == (a + [c]) + b;
    SumConcat(a + [s[k]], b, p, isPlayer);
    SumConcat(a + [c], b, p, isPlayer);
    SumConcat(a, b, p, isPlayer);
    SumSnoc(a, s[k], p, isPlayer);
    SumSnoc(a, c, p, isPlayer);
  }

  predicate UniqueKeys(s: seq<Condition>) {
    forall j, k :: 0 <= j < k < |s| ==> !SameKey(s[j], s[k])
  }

  predicate AllTyped(s: seq<Condition>) {
    forall k :: 0 <= k < |s| ==> Typed(s[k])
  }

  // ---------- the creature ----------

  class Creature {
    const isPlayer: bool
    /** What speed, skills and stats are changed by apart from conditions, such as equipment. */
    const baseSpeed: int
    const baseSkills: seq<int>
    const baseStats: seq<int>

    var conditions: seq<Condition>
    var varSpeed: int
    var varSkills: seq<int>
    var varStats: seq<int>

    constructor (isPlayer: bool, speed: int, skills: seq<int>, stats: seq<int>)
      requires |skills| == SKILL_COUNT && |stats| == STAT_COUNT
      ensures Valid() && conditions == [] && this.isPlayer == isPlayer
      ensures varSpeed == speed && varSkills == skills && varStats == stats
    {
      this.isPlayer := isPlayer;
      baseSpeed, baseSkills, baseStats := speed, skills, stats;
      conditions, varSpeed, varSkills, varStats := [], speed, skills, stats;
    }

    ghost function Base(p: Part): int {
      match p
      case Speed => baseSpeed
      case Skill(i) => At(baseSkills, i)
      case Stat(i) => At(baseStats, i)
    }

    ghost function Var(p: Part): int
      reads this
    {
      match p
      case Speed => varSpeed
      case Skill(i) => At(varSkills, i)
      case Stat(i) => At(varStats, i)
    }

    ghost predicate Sized()
      reads this
    {
      |varSkills| == SKILL_COUNT && |varStats| == STAT_COUNT
    }

    /** Every modifier is what it would be without conditions plus what the active conditions add. */
    ghost predicate Balanced()
      reads this
    {
      forall p :: Var(p) == Base(p) + Sum(conditions, p, isPlayer)
    }

    ghost predicate Valid()
      reads this
    {
      Sized() && UniqueKeys(conditions) && AllTyped(conditions) && Balanced()
    }

    /** Nothing active: every modifier is back where it was. */
    lemma Baseline()
      requires Valid() && conditions == []
      ensures forall p :: Var(p) == Base(p)
    {
    }

    // ---------- changing the modifiers ----------

    /** Game::changeSpeed. */
    method ChangeSpeed(delta: int)
      modifies this`varSpeed
      ensures varSpeed == old(varSpeed) + delta
    {
      varSpeed := varSpeed + delta;
    }

    /** updateSkills with sign 1, the skill loop of endCondition with sign -1. */
    method AddSkills(skills: seq<int>, sign: int)
      requires Sized() && |skills| == SKILL_COUNT
      modifies this`varSkills
      ensures |varSkills| == SKILL_COUNT
      ensures forall i :: 0 <= i < SKILL_COUNT ==> varSkills[i] == old(varSkills)[i] + sign * skills[i]
    {
      var i := 0;
      while i < SKILL_COUNT
        invariant 0 <= i <= SKILL_COUNT && |varSkills| == SKILL_COUNT
        invariant forall j :: 0 <= j < SKILL_COUNT ==>
                    varSkills[j] == old(varSkills)[j] + if j < i then sign * skills[j] else 0
      {
        if skills[i] != 0 {
          varSkills := varSkills[i := varSkills[i] + sign * skills[i]];
        }
        i := i + 1;
      }
    }

    method AddStats(stats: seq<int>, sign: int)
      requires Sized() && |stats| == STAT_COUNT
      modifies this`varStats
      ensures |varStats| == STAT_COUNT
      ensures forall i :: 0 <= i < STAT_COUNT ==> varStats[i] == old(varStats)[i] + sign * stats[i]
    {
      var i := 0;
      while i < STAT_COUNT
        invariant 0 <= i <= STAT_COUNT && |varStats| == STAT_COUNT
        invariant forall j :: 0 <= j < STAT_COUNT ==>
                    varStats[j] == old(varStats)[j] + if j < i then sign * stats[j] else 0
      {
        if stats[i] != 0 {
          varStats := varStats[i := varStats[i] + sign * stats[i]];
        }
        i := i + 1;
      }
    }

    /** Applies the effect of a condition once (sign 1) or takes it back (sign -1). */
    method Apply(c: Condition, sign: int)
      requires Sized() && Typed(c) && (sign == 1 || sign == -1)
      modifies this`varSpeed, this`varSkills, this`varStats
      ensures Sized()
      ensures forall p :: Var(p) == old(Var(p)) + sign * Delta(c, p, isPlayer)
    {
      match c.effect {
        case SpeedChange(d) => ChangeSpeed(sign * d);
        case Bonuses(skills, _, stats, _) =>
          if isPlayer {
            AddSkills(skills, sign);
            AddStats(stats, sign);
          }
        case Other =>
      }
    }

    // ---------- starting, merging, ending ----------

    /** startCondition: a speed condition without a delta gets the rolled one, percentages are turned into
        numbers, and the effect is applied. */
    method Start(condition: Condition, now: int, roll: int, skillBonus: (int, int) -> int, statBonus: (int, int) -> int)
      returns (c: Condition)
      requires Sized() && Typed(condition)
      modifies this`varSpeed, this`varSkills, this`varStats
      ensures Sized() && Typed(c) && SameKey(c, condition)
      ensures forall p :: Var(p) == old(Var(p)) + Delta(c, p, isPlayer)
      ensures c == Started(condition, isPlayer, now, roll, skillBonus, statBonus)
    {
      c := condition.(effect := Settled(condition.effect, isPlayer, roll, skillBonus, statBonus));
      if c.ticks > 0 {
        c := c.(endTime := c.ticks + now);
      }
      Apply(c, 1);
    }

    /** The addCondition of a condition that is already active. */
    method Merge(current: Condition, add: Condition, now: int, roll: int, skillBonus: (int, int) -> int, statBonus: (int, int) -> int)
      returns (c: Condition)
      requires Sized() && Typed(current) && Typed(add) && SameKey(current, add)
      modifies this`varSpeed, this`varSkills, this`varStats
      ensures Sized() && Typed(c) && SameKey(c, current)
      ensures forall p :: Var(p) == old(Var(p)) - Delta(current, p, isPlayer) + Delta(c, p, isPlayer)
      ensures c == Merged(current, add, isPlayer, now, roll, skillBonus, statBonus)
    {
      c := current;
      if add.effect.SpeedChange? {
        if current.ticks == -1 && add.ticks > 0 {
          return;
        }
        c := c.(ticks := add.ticks, endTime := add.ticks + now, effect := Settled(add.effect, isPlayer, roll, skillBonus, statBonus));
        var change := c.effect.speedDelta - current.effect.speedDelta;
        if change != 0 {
          ChangeSpeed(change);
        }
      } else if Replaces(current, add, now) {
        c := c.(ticks := add.ticks, endTime := add.ticks + now);
        if add.effect.Bonuses? {
          Apply(current, -1);
          c := c.(effect := Settled(add.effect, isPlayer, roll, skillBonus, statBonus));
          Apply(c, 1);
        }
      }
    }

    // ---------- the list ----------

    /** getCondition(type, id, subId): the index, or the length. */
    method Find(c: Condition) returns (k: nat)
      ensures k == KeyIndex(conditions, c)
    {
      k := 0;
      assert conditions[0..] == conditions;
      while k < |conditions| && !SameKey(conditions[k], c)
        invariant k <= |conditions|
        invariant KeyIndex(conditions, c) == k + KeyIndex(conditions[k..], c)
      {
        assert conditions[k..][1..] == conditions[k + 1..];
        k := k + 1;
      }
    }

    /** Takes the condition at k off the list and ends it. */
    method EndAt(k: nat)
      requires Valid() && k < |conditions|
      modifies this`conditions, this`varSpeed, this`varSkills, this`varStats
      ensures Valid() && conditions == Without(old(conditions), k)
    {
      var c := conditions[k];
      ghost var before := conditions;
      conditions := conditions[..k] + conditions[k + 1..];
      Apply(c, -1);
      forall p ensures Var(p) == Base(p) + Sum(conditions, p, isPlayer) {
        SumAround(before, k, c, p, isPlayer);
      }
      WithoutKeeps(before, k);
    }

    /** The removal loops: every condition that matches ends, the others stay in order. */
    method RemoveWhere(matches: Condition -> bool)
      requires Valid()
      modifies this`conditions, this`varSpeed, this`varSkills, this`varStats
      ensures Valid()
      ensures conditions == Filtered(old(conditions), matches)
    {
      var k := 0;
      ghost var was := conditions;
      while k < |conditions|
        invariant Valid() && 0 <= k <= |conditions|
        invariant conditions[..k] + Filtered(conditions[k..], matches) == Filtered(was, matches)
        decreases |conditions| - k
      {
        ghost var here := conditions;
        assert here[k..][0] == here[k] && here[k..][1..] == here[k + 1..];
        if matches(conditions[k]) {
          EndAt(k);
          assert conditions[..k] == here[..k] && conditions[k..] == here[k + 1..];
        } else {
          assert here[..k + 1] == here[..k] + [here[k]];
          assert here[..k] + ([here[k]] + Filtered(here[k + 1..], matches)) == here[..k + 1] + Filtered(here[k + 1..], matches);
          k := k + 1;
        }
      }
      assert conditions[..k] + [] == conditions;
    }

    /** removeCondition(type). A paralysis is not taken off while the creature is walking. */
    method RemoveType(ctype: int, force: bool, walkDelay: int)
      requires Valid()
      modifies this`conditions, this`varSpeed, this`varSkills, this`varStats
      ensures Valid()
      ensures conditions == if !force && ctype == PARALYZE && walkDelay > 0 then old(conditions)
                            else Filtered(old(conditions), OfType(ctype))
    {
      if !force && ctype == PARALYZE && walkDelay > 0 {
        return;
      }
      RemoveWhere(OfType(ctype));
    }

    method MergeAt(k: nat, add: Condition, now: int, roll: int, skillBonus: (int, int) -> int, statBonus: (int, int) -> int)
      requires Valid() && Typed(add) && k < |conditions| && SameKey(conditions[k], add)
      modifies this`conditions, this`varSpeed, this`varSkills, this`varStats
      ensures Valid()
      ensures conditions == old(conditions)[k := Merged(old(conditions)[k], add, isPlayer, now, roll, skillBonus, statBonus)]
    {
      hide Sum;
      ghost var before := conditions;
      var c := Merge(conditions[k], add, now, roll, skillBonus, statBonus);
      conditions := conditions[k := c];
      forall p ensures Var(p) == Base(p) + Sum(conditions, p, isPlayer) {
        SumAround(before, k, c, p, isPlayer);
      }
      ReplaceKeeps(before, k, c);
    }

    method Append(condition: Condition, now: int, roll: int, skillBonus: (int, int) -> int, statBonus: (int, int) -> int)
      requires Valid() && Typed(condition) && forall j :: 0 <= j < |conditions| ==> !SameKey(conditions[j], condition)
      modifies this`conditions, this`varSpeed, this`varSkills, this`varStats
      ensures Valid()
      ensures conditions == old(conditions) + [Started(condition, isPlayer, now, roll, skillBonus, statBonus)]
    {
      hide Sum;
      ghost var before := conditions;
      var c := Start(condition, now, roll, skillBonus, statBonus);
      conditions := conditions + [c];
      forall p ensures Var(p) == Base(p) + Sum(conditions, p, isPlayer) {
        SumSnoc(before, c, p, isPlayer);
      }
      AppendKeeps(before, c, condition);
    }

    /** addCondition: the condition is merged into the one with its key or started and appended; haste and
        paralysis drive each other out. */
    method AddCondition(condition: Condition, force: bool, walkDelay: int, suppressed: int -> bool, now: int, roll: int,
                        skillBonus: (int, int) -> int, statBonus: (int, int) -> int)
      returns (added: bool)
      requires Valid() && Typed(condition)
      modifies this`conditions, this`varSpeed, this`varSkills, this`varStats
      ensures Valid()
      ensures added == !(!force && walkDelay > 0 && condition.ctype == HASTE && Has(old(conditions), PARALYZE, suppressed, now))
      ensures conditions == if !added then old(conditions)
                            else TakenIn(old(conditions), condition, isPlayer, walkDelay, suppressed, now, roll, skillBonus, statBonus)
    {
      hide Valid, Filtered, Started, Merged, KeyIndex, Has;
      if !force && condition.ctype == HASTE && Has(conditions, PARALYZE, suppressed, now) {
        if walkDelay > 0 {
          return false;
        }
      }
      var k := Find(condition);
      KeyIndexFinds(conditions, condition);
      if k < |conditions| {
        MergeAt(k, condition, now, roll, skillBonus, statBonus);
        return true;
      }
      Append(condition, now, roll, skillBonus, statBonus);
      if condition.ctype == PARALYZE && Has(conditions, HASTE, suppressed, now) {
        RemoveType(HASTE, false, walkDelay);
      } else if condition.ctype == HASTE && Has(conditions, PARALYZE, suppressed, now) {
        RemoveType(PARALYZE, false, walkDelay);
      }
      return true;
    }

    /** The ticks of one condition go down. */
    method TickAt(k: nat, interval: nat)
      requires Valid() && k < |conditions|
      modifies this`conditions
      ensures Valid() && conditions == old(conditions)[k := Ticked(old(conditions)[k], interval)]
    {
      var c := Ticked(conditions[k], interval);
      ghost var before := conditions;
      conditions := conditions[k := c];
      forall p ensures Var(p) == Base(p) + Sum(conditions, p, isPlayer) {
        SumAround(before, k, c, p, isPlayer);
      }
      ReplaceKeeps(before, k, c);
    }

    /** executeConditions: time passes for every condition, and those whose time is up end. */
    method ExecuteConditions(interval: nat, now: int)
      requires Valid()
      modifies this`conditions, this`varSpeed, this`varSkills, this`varStats
      ensures Valid()
      ensures conditions == Executed(old(conditions), interval, now)
    {
      var k := 0;
      ghost var was := conditions;
      while k < |conditions|
        invariant Valid() && 0 <= k <= |conditions|
        invariant conditions[..k] + Executed(conditions[k..], interval, now) == Executed(was, interval, now)
        decreases |conditions| - k
      {
        ghost var here := conditions;
        assert here[k..][0] == here[k] && here[k..][1..] == here[k + 1..];
        var c := Ticked(conditions[k], interval);
        TickAt(k, interval);
        if !Alive(c, now) {
          EndAt(k);
          assert conditions[..k] == here[..k] && conditions[k..] == here[k + 1..];
        } else {
          assert conditions[..k + 1] == here[..k] + [c] && conditions[k + 1..] == here[k + 1..];
          assert here[..k] + ([c] + Executed(here[k + 1..], interval, now)) == conditions[..k + 1] + Executed(here[k + 1..], interval, now);
          k := k + 1;
        }
      }
      assert conditions[..k] + [] == conditions;
    }

    /** Ending all conditions puts every modifier back where it was before the first one. */
    method RemoveAll()
      requires Valid()
      modifies this`conditions, this`varSpeed, this`varSkills, this`varStats
      ensures Valid() && conditions == []
      ensures varSpeed == baseSpeed
      ensures forall i :: 0 <= i < SKILL_COUNT ==> varSkills[i] == At(baseSkills, i)
      ensures forall i :: 0 <= i < STAT_COUNT ==> varStats[i] == At(baseStats, i)
    {
      RemoveWhere(Everything());
      AllFiltered(old(conditions));
      Baseline();
      assert Var(Speed) == Base(Speed);
      forall i | 0 <= i < SKILL_COUNT ensures varSkills[i] == At(baseSkills, i) {
        assert Var(Skill(i)) == Base(Skill(i));
      }
      forall i | 0 <= i < STAT_COUNT ensures varStats[i] == At(baseStats, i) {
        assert Var(Stat(i)) == Base(Stat(i));
      }
    }

    /** Any run of operations. */
    method Run(ops: seq<Operation>)
      requires Valid() && forall k :: 0 <= k < |ops| && ops[k].Add? ==> Typed(ops[k].condition)
      modifies this`conditions, this`varSpeed, this`varSkills, this`varStats
      ensures Valid()
      ensures forall p :: Var(p) == Base(p) + Sum(conditions, p, isPlayer)
      ensures forall j, k :: 0 <= j < k < |conditions| ==>
                conditions[j].ctype != conditions[k].ctype || conditions[j].id != conditions[k].id || conditions[j].subId != conditions[k].subId
    {
      var k := 0;
      while k < |ops|
        invariant 0 <= k <= |ops| && Valid()
      {
        match ops[k] {
          case Add(c, force, walkDelay, suppressed, now, roll, skillBonus, statBonus) =>
            var _ := AddCondition(c, force, walkDelay, suppressed, now, roll, skillBonus, statBonus);
          case Remove(matches) => RemoveWhere(matches);
          case Execute(interval, now) => ExecuteConditions(interval, now);
        }
        k := k + 1;
      }
    }
  }

  datatype Operation =
    | Add(condition: Condition, force: bool, walkDelay: int, suppressed: int -> bool, addedAt: int, roll: int,
          skillBonus: (int, int) -> int, statBonus: (int, int) -> int)
    | Remove(matches: Condition -> bool)
    | Execute(interval: nat, now: int)

  // ---------- effects with their numbers settled ----------

  /** A missing speed delta is rolled; percentages become numbers, for players, except for soul points. */
  function Settled(e: Effect, isPlayer: bool, roll: int, skillBonus: (int, int) -> int, statBonus: (int, int) -> int): Effect {
    match e
    case SpeedChange(d) => SpeedChange(if d == 0 then roll else d)
    case Bonuses(skills, skillsPercent, stats, statsPercent) =>
      if !isPlayer then e
      else Bonuses(WithPercent(skills, skillsPercent, skillBonus, -1), skillsPercent,
                   WithPercent(stats, statsPercent, statBonus, STAT_SOULPOINTS), statsPercent)
    case Other => Other
  }

  function WithPercent(values: seq<int>, percents: seq<int>, bonus: (int, int) -> int, except: int): (r: seq<int>)
    ensures |r| == |values|
  {
    seq(|values|, i requires 0 <= i < |values| => if At(percents, i) == 0 || i == except then values[i] else bonus(i, percents[i]))
  }

  /** A started condition. */
  function Started(c: Condition, isPlayer: bool, now: int, roll: int, skillBonus: (int, int) -> int, statBonus: (int, int) -> int): Condition {
    c.(effect := Settled(c.effect, isPlayer, roll, skillBonus, statBonus), endTime := if c.ticks > 0 then c.ticks + now else c.endTime)
  }

  /** An active condition with another one of its key merged into it. */
  function Merged(c: Condition, add: Condition, isPlayer: bool, now: int, roll: int, skillBonus: (int, int) -> int, statBonus: (int, int) -> int): Condition {
    if if add.effect.SpeedChange? then c.ticks == -1 && add.ticks > 0 else !Replaces(c, add, now) then c
    else c.(ticks := add.ticks, endTime := add.ticks + now,
            effect := if add.effect.Other? then c.effect else Settled(add.effect, isPlayer, roll, skillBonus, statBonus))
  }

  /** updateCondition: a shorter condition does not replace a longer one. */
  predicate Replaces(c: Condition, add: Condition, now: int) {
    c.ctype == add.ctype && !(c.ticks == -1 && add.ticks > 0) && !(add.ticks >= 0 && c.endTime > now + add.ticks)
  }

  function Ticked(c: Condition, interval: nat): Condition {
    if c.ticks == -1 then c else c.(ticks := if c.ticks - interval < 0 then 0 else c.ticks - interval)
  }

  predicate Alive(c: Condition, now: int) {
    c.ticks == -1 || c.endTime >= now
  }

  // ---------- lists ----------

  function KeyIndex(s: seq<Condition>, c: Condition): (k: nat)
    ensures k <= |s|
  {
    if s == [] || SameKey(s[0], c) then 0 else 1 + KeyIndex(s[1..], c)
  }

  lemma KeyIndexFinds(s: seq<Condition>, c: Condition)
    ensures var k := KeyIndex(s, c);
            (k < |s| ==> SameKey(s[k], c)) && forall j :: 0 <= j < k ==> !SameKey(s[j], c)
  {
    if s != [] && !SameKey(s[0], c) {
      KeyIndexFinds(s[1..], c);
      assert forall j :: 0 < j < |s| ==> s[j] == s[1..][j - 1];
    }
  }

  /** hasCondition for the main id: a running condition of the type, unless the type is suppressed. */
  predicate Has(s: seq<Condition>, ctype: int, suppressed: int -> bool, now: int) {
    !suppressed(ctype) && exists k :: 0 <= k < |s| && s[k].ctype == ctype && s[k].subId == 0
                                      && (s[k].endTime >= now || s[k].ticks == -1)
  }

  /** onAddCondition: haste and paralysis drive each other out; a walking creature keeps its paralysis for
      now. */
  function DrivenOut(s: seq<Condition>, ctype: int, walkDelay: int, suppressed: int -> bool, now: int): seq<Condition> {
    if ctype == PARALYZE && Has(s, HASTE, suppressed, now) then Filtered(s, OfType(HASTE))
    else if ctype == HASTE && Has(s, PARALYZE, suppressed, now) && walkDelay <= 0 then Filtered(s, OfType(PARALYZE))
    else s
  }

  /** The list after a condition has been taken in. */
  function TakenIn(s: seq<Condition>, c: Condition, isPlayer: bool, walkDelay: int, suppressed: int -> bool, now: int, roll: int,
                   skillBonus: (int, int) -> int, statBonus: (int, int) -> int): seq<Condition> {
    var k := KeyIndex(s, c);
    if k < |s| then s[k := Merged(s[k], c, isPlayer, now, roll, skillBonus, statBonus)]
    else DrivenOut(s + [Started(c, isPlayer, now, roll, skillBonus, statBonus)], c.ctype, walkDelay, suppressed, now)
  }

  function OfType(ctype: int): Condition -> bool {
    (c: Condition) => c.ctype == ctype
  }

  function Everything(): Condition -> bool {
    (c: Condition) => true
  }

  function Filtered(s: seq<Condition>, matches: Condition -> bool): seq<Condition> {
    if s == [] then [] else (if matches(s[0]) then [] else [s[0]]) + Filtered(s[1..], matches)
  }

  function Executed(s: seq<Condition>, interval: nat, now: int): seq<Condition> {
    if s == [] then []
    else
      var c := Ticked(s[0], interval);
      (if Alive(c, now) then [c] else []) + Executed(s[1..], interval, now)
  }

  lemma AllFiltered(s: seq<Condition>)
    ensures Filtered(s, Everything()) == []
  {
    if s != [] {
      AllFiltered(s[1..]);
    }
  }

  lemma WithoutKeeps(s: seq<Condition>, k: nat)
    requires k < |s| && UniqueKeys(s) && AllTyped(s)
    ensures UniqueKeys(Without(s, k)) && AllTyped(Without(s, k))
  {
    var t := Without(s, k);
    assert forall j :: 0 <= j < |t| ==> t[j] == s[if j < k then j else j + 1];
  }

  lemma ReplaceKeeps(s: seq<Condition>, k: nat, c: Condition)
    requires k < |s| && UniqueKeys(s) && AllTyped(s) && Typed(c) && SameKey(c, s[k])
    ensures UniqueKeys(s[k := c]) && AllTyped(s[k := c])
  {
  }

  lemma AppendKeeps(s: seq<Condition>, c: Condition, like: Condition)
    requires UniqueKeys(s) && AllTyped(s) && Typed(c) && SameKey(c, like)
    requires forall j :: 0 <= j < |s| ==> !SameKey(s[j], like)
    ensures UniqueKeys(s + [c]) && AllTyped(s + [c])
  {
  }
}
