/** What merging, starting, driving out and running down mean for one condition and for the list, in terms of
    types, times and numbers. */
module ModifierLaws {
  import opened Modifiers

  // ---------- merging ----------

  function Max(a: int, b: int): int {
    if a < b then b else a
  }

  /** Merging never shortens a condition: effects other than speed end at the later of the two times. */
  lemma MergedEnds(c: Condition, add: Condition, isPlayer: bool, now: int, roll: int, skillBonus: (int, int) -> int,
                   statBonus: (int, int) -> int)
    requires SameKey(c, add) && !add.effect.SpeedChange? && c.ticks != -1 && add.ticks >= 0
    ensures var merged := Merged(c, add, isPlayer, now, roll, skillBonus, statBonus);
            && merged.endTime == Max(c.endTime, now + add.ticks)
            && (c.endTime > now + add.ticks ==> merged == c)
            && (c.endTime <= now + add.ticks ==> merged.ticks == add.ticks)
  {
  }

  /** A condition without end stays as it is against one that ends, whatever its effect. */
  lemma EndlessStays(c: Condition, add: Condition, isPlayer: bool, now: int, roll: int, skillBonus: (int, int) -> int,
                     statBonus: (int, int) -> int)
    requires SameKey(c, add) && c.ticks == -1 && add.ticks > 0
    ensures Merged(c, add, isPlayer, now, roll, skillBonus, statBonus) == c
  {
  }

  /** A condition without end takes the place of one that ends. */
  lemma EndlessReplaces(c: Condition, add: Condition, isPlayer: bool, now: int, roll: int, skillBonus: (int, int) -> int,
                        statBonus: (int, int) -> int)
    requires SameKey(c, add) && add.ticks == -1
    ensures Merged(c, add, isPlayer, now, roll, skillBonus, statBonus).ticks == -1
  {
  }

  /** A change of speed always takes over the new time and the new change, shorter or not, unless the old one
      has no end and the new one has. */
  lemma SpeedTakesOver(c: Condition, add: Condition, isPlayer: bool, now: int, roll: int, skillBonus: (int, int) -> int,
                       statBonus: (int, int) -> int)
    requires SameKey(c, add) && Typed(c) && Typed(add) && add.effect.SpeedChange? && !(c.ticks == -1 && add.ticks > 0)
    ensures var merged := Merged(c, add, isPlayer, now, roll, skillBonus, statBonus);
            && merged.ticks == add.ticks && merged.endTime == now + add.ticks
            && Delta(merged, Speed, isPlayer) == (if add.effect.speedDelta != 0 then add.effect.speedDelta else roll)
  {
  }

  // ---------- what starts ----------

  /** What a started speed condition adds. */
  lemma SpeedStarted(c: Condition, isPlayer: bool, now: int, roll: int, skillBonus: (int, int) -> int, statBonus: (int, int) -> int,
                     p: Part)
    requires c.effect.SpeedChange?
    ensures Delta(Started(c, isPlayer, now, roll, skillBonus, statBonus), p, isPlayer)
         == if p != Speed then 0 else if c.effect.speedDelta != 0 then c.effect.speedDelta else roll
  {
  }

  /** What a started attribute condition adds to a player: for each of the thirteen skills the number it
      carries, or the bonus for its percentage; likewise for the stats, but never a percentage of soul points,
      the third stat; nothing to speed, and nothing to others than players. */
  lemma BonusesStarted(c: Condition, isPlayer: bool, now: int, roll: int, skillBonus: (int, int) -> int,
                       statBonus: (int, int) -> int, i: nat)
    requires c.effect.Bonuses? && Typed(c)
    ensures var started := Started(c, isPlayer, now, roll, skillBonus, statBonus);
            && Delta(started, Speed, isPlayer) == 0
            && (i < 13 ==> Delta(started, Skill(i), isPlayer)
                           == if !isPlayer then 0
                              else if c.effect.skillsPercent[i] == 0 then c.effect.skills[i]
                              else skillBonus(i, c.effect.skillsPercent[i]))
            && (i < 4 ==> Delta(started, Stat(i), isPlayer)
                          == if !isPlayer then 0
                             else if c.effect.statsPercent[i] == 0 || i == 2 then c.effect.stats[i]
                             else statBonus(i, c.effect.statsPercent[i]))
  {
    var e := Started(c, isPlayer, now, roll, skillBonus, statBonus).effect;
    if isPlayer {
      assert e.skills == WithPercent(c.effect.skills, c.effect.skillsPercent, skillBonus, -1);
      assert e.stats == WithPercent(c.effect.stats, c.effect.statsPercent, statBonus, STAT_SOULPOINTS);
      if i < 13 {
        assert e.skills[i] == if At(c.effect.skillsPercent, i) == 0 then c.effect.skills[i] else skillBonus(i, c.effect.skillsPercent[i]);
      }
      if i < 4 {
        assert e.stats[i] == if At(c.effect.statsPercent, i) == 0 || i == 2 then c.effect.stats[i] else statBonus(i, c.effect.statsPercent[i]);
      }
    }
  }

  /** A started condition with time left ends that much later than now; one without end has no end time to
      keep to. */
  lemma StartedEnds(c: Condition, isPlayer: bool, now: int, roll: int, skillBonus: (int, int) -> int, statBonus: (int, int) -> int)
    ensures var started := Started(c, isPlayer, now, roll, skillBonus, statBonus);
            SameKey(started, c) && started.ticks == c.ticks && (c.ticks > 0 ==> started.endTime == now + c.ticks)
  {
  }

  // ---------- running down ----------

  /** After an execution exactly those conditions are left that have no end or whose end has not passed. */
  lemma {:induction false} ExecutedKeeps(s: seq<Condition>, interval: nat, now: int, key: Condition)
    ensures (exists k :: 0 <= k < |Executed(s, interval, now)| && SameKey(Executed(s, interval, now)[k], key)) <==>
            exists k :: 0 <= k < |s| && SameKey(s[k], key) && (s[k].ticks == -1 || s[k].endTime >= now)
    decreases |s|
  {
    if s != [] {
      var rest := Executed(s[1..], interval, now);
      ExecutedKeeps(s[1..], interval, now, key);
      KeyInTail(s, now, key);
      if s[0].ticks == -1 || s[0].endTime >= now {
        KeyInCons(Ticked(s[0], interval), rest, key);
        assert Executed(s, interval, now) == [Ticked(s[0], interval)] + rest;
      } else {
        assert Executed(s, interval, now) == rest;
      }
    }
  }

  lemma KeyInTail(s: seq<Condition>, now: int, key: Condition)
    requires s != []
    ensures (exists k :: 0 <= k < |s| && SameKey(s[k], key) && (s[k].ticks == -1 || s[k].endTime >= now)) <==>
            (SameKey(s[0], key) && (s[0].ticks == -1 || s[0].endTime >= now))
            || exists k :: 0 <= k < |s[1..]| && SameKey(s[1..][k], key) && (s[1..][k].ticks == -1 || s[1..][k].endTime >= now)
  {
    forall k | 0 < k < |s|
      ensures s[k] == s[1..][k - 1]
    {
    }
    if k :| 0 <= k < |s[1..]| && SameKey(s[1..][k], key) && (s[1..][k].ticks == -1 || s[1..][k].endTime >= now) {
      assert s[k + 1] == s[1..][k];
    }
  }

  lemma KeyInCons(c: Condition, rest: seq<Condition>, key: Condition)
    ensures (exists k :: 0 <= k < |[c] + rest| && SameKey(([c] + rest)[k], key)) <==>
            SameKey(c, key) || exists k :: 0 <= k < |rest| && SameKey(rest[k], key)
  {
    if k :| 0 <= k < |rest| && SameKey(rest[k], key) {
      assert ([c] + rest)[k + 1] == rest[k];
    }
    if SameKey(c, key) {
      assert ([c] + rest)[0] == c;
    }
    if k :| 0 <= k < |[c] + rest| && SameKey(([c] + rest)[k], key) {
      if k > 0 {
        assert rest[k - 1] == ([c] + rest)[k];
      }
    }
  }

  /** What an execution does to one condition: its end stays, and its remaining time goes down to zero at
      most, unless it has no end. */
  lemma TickedMeans(c: Condition, interval: nat)
    ensures var t := Ticked(c, interval);
            && SameKey(t, c) && t.endTime == c.endTime && t.effect == c.effect
            && (c.ticks == -1 ==> t.ticks == -1)
            && (c.ticks >= interval ==> t.ticks == c.ticks - interval)
            && (-1 != c.ticks < interval ==> t.ticks == 0)
  {
  }

  // ---------- haste and paralysis ----------

  /** What is left after filtering: everything that does not match, in order. */
  lemma {:induction false} FilteredMembers(s: seq<Condition>, matches: Condition -> bool, c: Condition)
    ensures c in Filtered(s, matches) <==> c in s && !matches(c)
    decreases |s|
  {
    if s != [] {
      FilteredMembers(s[1..], matches, c);
      assert s == [s[0]] + s[1..];
    }
  }

  /** A condition of the type that still runs, under the main id. */
  predicate Running(s: seq<Condition>, ctype: int, now: int) {
    exists k :: 0 <= k < |s| && s[k].ctype == ctype && s[k].subId == 0 && (s[k].ticks == -1 || s[k].endTime >= now)
  }

  /** Paralysis (type 32) drives out a running haste (type 16), and haste a running paralysis unless the
      creature is walking; nothing else is driven out. */
  lemma DrivesOut(s: seq<Condition>, ctype: int, walkDelay: int, suppressed: int -> bool, now: int, c: Condition)
    ensures c in DrivenOut(s, ctype, walkDelay, suppressed, now) <==>
            && c in s
            && !(c.ctype == 16 && ctype == 32 && !suppressed(16) && Running(s, 16, now))
            && !(c.ctype == 32 && ctype == 16 && !suppressed(32) && Running(s, 32, now) && walkDelay <= 0)
  {
    FilteredMembers(s, OfType(HASTE), c);
    FilteredMembers(s, OfType(PARALYZE), c);
  }

  /** Taking in a condition other than haste and paralysis ends no active condition and makes none of them end
      sooner: each stays at its place, with an end no earlier than before. */
  lemma NothingShortened(s: seq<Condition>, c: Condition, isPlayer: bool, walkDelay: int, suppressed: int -> bool, now: int, roll: int,
                         skillBonus: (int, int) -> int, statBonus: (int, int) -> int)
    requires AllTyped(s) && Typed(c) && c.ctype != 16 && c.ctype != 32 && c.ticks > 0
    ensures var t := TakenIn(s, c, isPlayer, walkDelay, suppressed, now, roll, skillBonus, statBonus);
            && |s| <= |t| <= |s| + 1
            && (forall j :: 0 <= j < |s| ==> SameKey(t[j], s[j]) && t[j].endTime >= s[j].endTime && (s[j].ticks == -1 ==> t[j].ticks == -1))
            && exists j :: 0 <= j < |t| && SameKey(t[j], c) && (t[j].ticks == -1 || t[j].endTime >= now + c.ticks)
  {
    hide Started, Merged, KeyIndex, DrivenOut;
    var k := KeyIndex(s, c);
    KeyIndexFinds(s, c);
    var t := TakenIn(s, c, isPlayer, walkDelay, suppressed, now, roll, skillBonus, statBonus);
    if k < |s| {
      if s[k].ticks == -1 {
        EndlessStays(s[k], c, isPlayer, now, roll, skillBonus, statBonus);
      } else {
        MergedEnds(s[k], c, isPlayer, now, roll, skillBonus, statBonus);
      }
      MergedKey(s[k], c, isPlayer, now, roll, skillBonus, statBonus);
      assert SameKey(t[k], c);
    } else {
      var started := Started(c, isPlayer, now, roll, skillBonus, statBonus);
      StartedEnds(c, isPlayer, now, roll, skillBonus, statBonus);
      NotDrivenOut(s + [started], c.ctype, walkDelay, suppressed, now);
      assert t == s + [started] && SameKey(t[|s|], c);
    }
  }

  lemma MergedKey(c: Condition, add: Condition, isPlayer: bool, now: int, roll: int, skillBonus: (int, int) -> int,
                  statBonus: (int, int) -> int)
    ensures SameKey(Merged(c, add, isPlayer, now, roll, skillBonus, statBonus), c)
  {
  }

  lemma NotDrivenOut(s: seq<Condition>, ctype: int, walkDelay: int, suppressed: int -> bool, now: int)
    requires ctype != 16 && ctype != 32
    ensures DrivenOut(s, ctype, walkDelay, suppressed, now) == s
  {
  }

  /** Any other condition adds nothing. */
  lemma OthersAddNothing(c: Condition, isPlayer: bool, now: int, roll: int, skillBonus: (int, int) -> int, statBonus: (int, int) -> int,
                         p: Part)
    requires Typed(c) && c.ctype != 16 && c.ctype != 32 && c.ctype != 524288
    ensures Delta(Started(c, isPlayer, now, roll, skillBonus, statBonus), p, isPlayer) == 0
  {
  }

  /** The conditions that the operations are for: haste (16) and paralysis (32) change the speed, attribute
      conditions (0x80000) carry thirteen skills and four stats with their percentages, and no others do
      either. */
  lemma TypedMeans(c: Condition)
    ensures Typed(c) <==>
            match c.effect
            case SpeedChange(_) => c.ctype == 16 || c.ctype == 32
            case Bonuses(skills, skillsPercent, stats, statsPercent) =>
              c.ctype == 524288 && |skills| == |skillsPercent| == 13 && |stats| == |statsPercent| == 4
            case Other => c.ctype != 16 && c.ctype != 32 && c.ctype != 524288
  {
  }
}
