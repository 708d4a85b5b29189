/** ConditionDamage over its lifetime: the entries of damage over time, their clock, and which of them
    are dealt before the condition expires. The clock stands still within one call. */
module DamageRun {
  import opened Arithmetic
  import D = DamageList

  datatype IntervalInfo = IntervalInfo(timeLeft: int, value: int, interval: int)

  /** EVENT_CREATURE_THINK_INTERVAL. */
  const THINK_INTERVAL := 1000

  function Max(a: int, b: int): int {
    if a < b then b else a
  }

  function Values(list: seq<IntervalInfo>): seq<int> {
    if list == [] then [] else [list[0].value] + Values(list[1..])
  }

  function TimeLeft(list: seq<IntervalInfo>): int {
    if list == [] then 0 else list[0].timeLeft + TimeLeft(list[1..])
  }

  function Intervals(list: seq<IntervalInfo>): int {
    if list == [] then 0 else list[0].interval + Intervals(list[1..])
  }

  function Negated(s: seq<int>): (r: seq<int>)
    ensures |r| == |s| && forall k :: 0 <= k < |s| ==> r[k] == -s[k]
  {
    if s == [] then [] else [-s[0]] + Negated(s[1..])
  }

  /** One fresh entry per value. */
  function Entries(values: seq<int>, time: int): (r: seq<IntervalInfo>)
    ensures |r| == |values|
  {
    if values == [] then [] else [IntervalInfo(time, values[0], time)] + Entries(values[1..], time)
  }

  function Repeated(value: int, n: int): seq<int> {
    if n <= 0 then [] else Repeated(value, n - 1) + [value]
  }

  lemma EntriesTail(values: seq<int>, t: int)
    ensures values != [] ==> Entries(values, t)[0].value == values[0] && Entries(values, t)[1..] == Entries(values[1..], t)
  {
  }

  lemma EntriesSnoc(values: seq<int>, v: int, time: int)
    ensures Entries(values + [v], time) == Entries(values, time) + [IntervalInfo(time, v, time)]
  {
    if values == [] {
      assert values + [v] == [v] && Entries([], time) == [];
    } else {
      assert (values + [v])[1..] == values[1..] + [v];
      EntriesSnoc(values[1..], v, time);
    }
  }

  lemma EntriesOf(values: seq<int>, time: int)
    ensures Values(Entries(values, time)) == values
    ensures TimeLeft(Entries(values, time)) == |values| * time
    ensures Intervals(Entries(values, time)) == |values| * time
    ensures forall k :: 0 <= k < |values| ==> Entries(values, time)[k].timeLeft == time
  {
    if values != [] {
      EntriesOf(values[1..], time);
      assert |values| * time == |values[1..]| * time + time;
    }
  }

  // ---------- what a run deals ----------

  /** The entry at the front counts down; at zero it is dealt and leaves. What it overran is not carried
      over to the next entry. */
  function Ticked(list: seq<IntervalInfo>, dt: int): seq<IntervalInfo> {
    if list == [] then []
    else if list[0].timeLeft - dt <= 0 then list[1..]
    else [list[0].(timeLeft := list[0].timeLeft - dt)] + list[1..]
  }

  /** In a damage field the entry at the front starts anew instead of leaving. */
  function Paused(list: seq<IntervalInfo>, dt: int): seq<IntervalInfo> {
    if list == [] then []
    else if list[0].timeLeft - dt <= 0 then [list[0].(timeLeft := list[0].interval)] + list[1..]
    else [list[0].(timeLeft := list[0].timeLeft - dt)] + list[1..]
  }

  function Hit(list: seq<IntervalInfo>, dt: int): seq<int> {
    if list != [] && list[0].timeLeft - dt <= 0 then [list[0].value] else []
  }

  /** What executions at the given times deal until the first one past endTime, which still deals. */
  function Dealt(list: seq<IntervalInfo>, times: seq<int>, endTime: int, dt: int): seq<int>
    decreases |times|
  {
    if times == [] then []
    else Hit(list, dt) + if endTime >= times[0] then Dealt(Ticked(list, dt), times[1..], endTime, dt) else []
  }

  lemma NoTimes(list: seq<IntervalInfo>, endTime: int, dt: int)
    ensures Dealt(list, [], endTime, dt) == []
  {
  }

  lemma Once(list: seq<IntervalInfo>, times: seq<int>, endTime: int, dt: int)
    requires times != []
    ensures Dealt(list, times, endTime, dt)
         == Hit(list, dt) + if endTime >= times[0] then Dealt(Ticked(list, dt), times[1..], endTime, dt) else []
  {
  }

  lemma NothingToTick(list: seq<IntervalInfo>, dt: int)
    ensures list == [] ==> Ticked(list, dt) == [] && Hit(list, dt) == []
  {
  }

  /** How many executions an entry stays at the front. */
  function Rounds(timeLeft: int, dt: int): (k: nat)
    requires dt > 0
    ensures k >= 1 && (timeLeft <= dt || (k - 1) * dt < timeLeft <= k * dt)
  {
    if timeLeft <= dt then 1
    else
      RoundUp(timeLeft, dt);
      (timeLeft + dt - 1) / dt
  }

  lemma RoundUp(t: int, dt: int)
    requires dt > 0 && t > dt
    ensures var k := (t + dt - 1) / dt; k >= 1 && (k - 1) * dt < t <= k * dt
  {
    var x := t + dt - 1;
    Quotient(x, dt);
    Distribute(dt, 1, x / dt);
  }

  function Steps(list: seq<IntervalInfo>, dt: int): nat
    requires dt > 0
  {
    if list == [] then 0 else Rounds(list[0].timeLeft, dt) + Steps(list[1..], dt)
  }

  lemma RoundsAre(t: int, dt: int, k: int)
    requires dt > 0 && t > 0 && (k - 1) * dt < t <= k * dt
    ensures Rounds(t, dt) == k
  {
    var r := Rounds(t, dt);
    Order(dt, r, k);
    Order(dt, k, r);
    Distribute(dt, 1, k);
    Distribute(dt, 1, r);
  }

  lemma TickedSteps(list: seq<IntervalInfo>, dt: int)
    requires dt > 0 && list != []
    ensures Steps(Ticked(list, dt), dt) == Steps(list, dt) - 1
    ensures Hit(list, dt) + Values(Ticked(list, dt)) == Values(list)
  {
    var t := list[0].timeLeft;
    if t > dt {
      var k := Rounds(t, dt);
      Distribute(dt, 1, k);
      Distribute(dt, 1, k - 1);
      RoundsAre(t - dt, dt, k - 1);
      assert Ticked(list, dt)[1..] == list[1..];
    } else {
      assert Rounds(t, dt) == 1;
    }
  }

  lemma {:induction false} NothingLeft(times: seq<int>, endTime: int, dt: int)
    ensures Dealt([], times, endTime, dt) == []
    decreases |times|
  {
    if times != [] {
      NothingLeft(times[1..], endTime, dt);
    }
  }

  /** Entries are dealt in order, none of them twice. */
  lemma {:induction false} DealtInOrder(list: seq<IntervalInfo>, times: seq<int>, endTime: int, dt: int)
    requires dt > 0
    ensures Dealt(list, times, endTime, dt) <= Values(list)
    decreases |times|
  {
    if times != [] {
      if list == [] {
        NothingLeft(times, endTime, dt);
      } else {
        TickedSteps(list, dt);
        DealtInOrder(Ticked(list, dt), times[1..], endTime, dt);
      }
    }
  }

  /** Nothing is lost: the run is long enough and every execution before the last one needed comes in
      time. */
  ghost predicate InTime(steps: nat, times: seq<int>, endTime: int) {
    steps <= |times| && forall j :: 0 <= j < steps - 1 ==> times[j] <= endTime
  }

  /** For any entries and any execution times: all entries are dealt exactly when the executions they need
      come in time. */
  lemma {:induction false} AllDealt(list: seq<IntervalInfo>, times: seq<int>, endTime: int, dt: int)
    requires dt > 0
    ensures Dealt(list, times, endTime, dt) == Values(list) <==> InTime(Steps(list, dt), times, endTime)
    decreases |times|
  {
    hide Ticked, Hit, Rounds;
    if list == [] {
      NothingLeft(times, endTime, dt);
    } else {
      TickedSteps(list, dt);
      if times != [] {
        if endTime >= times[0] {
          hide InTime;
          AllDealt(Ticked(list, dt), times[1..], endTime, dt);
          InTimeLater(Steps(list, dt), times, endTime);
          Cancel(Hit(list, dt), Dealt(Ticked(list, dt), times[1..], endTime, dt), Values(Ticked(list, dt)));
        } else {
          var rest := Ticked(list, dt);
          assert Hit(list, dt) == Values(list) <==> Values(rest) == [];
        }
      }
    }
  }

  lemma Cancel(a: seq<int>, b: seq<int>, c: seq<int>)
    ensures a + b == a + c <==> b == c
  {
    if a + b == a + c {
      assert b == (a + b)[|a|..] == (a + c)[|a|..] == c;
    }
  }

  lemma InTimeLater(steps: nat, times: seq<int>, endTime: int)
    requires steps >= 1 && times != [] && times[0] <= endTime
    ensures InTime(steps, times, endTime) <==> InTime(steps - 1, times[1..], endTime)
  {
    if InTime(steps - 1, times[1..], endTime) {
      forall j | 0 <= j < steps - 1 ensures times[j] <= endTime {
        if j > 0 {
          assert times[1..][j - 1] == times[j];
        }
      }
    }
  }

  // ---------- an exact clock ----------

  /** n executions, one every dt after `start`. */
  function Every(start: int, dt: int, n: nat): (times: seq<int>)
    ensures |times| == n && forall j :: 0 <= j < n ==> times[j] == start + (j + 1) * dt
  {
    seq(n, j requires 0 <= j < n => start + (j + 1) * dt)
  }

  /** On an exact clock only the last but one execution matters. */
  lemma ExactClock(list: seq<IntervalInfo>, start: int, endTime: int, dt: int, n: nat)
    requires dt > 0 && list != [] && n >= Steps(list, dt)
    requires start <= endTime
    ensures Dealt(list, Every(start, dt, n), endTime, dt) == Values(list)
       <==> (Steps(list, dt) - 1) * dt <= endTime - start
  {
    hide Steps, Dealt, Values;
    var k, times := Steps(list, dt), Every(start, dt, n);
    AllDealt(list, times, endTime, dt);
    if (k - 1) * dt <= endTime - start {
      forall j | 0 <= j < k - 1 ensures times[j] <= endTime {
        Order(dt, j + 1, k - 1);
      }
    } else if k >= 2 {
      assert times[k - 2] == start + (k - 1) * dt;
    }
  }

  predicate Divides(dt: int, list: seq<IntervalInfo>)
    requires dt > 0
  {
    forall k :: 0 <= k < |list| ==> list[k].timeLeft > 0 && list[k].timeLeft % dt == 0
  }

  lemma RoundsFill(t: int, dt: int)
    requires dt > 0 && t > 0 && t % dt == 0
    ensures Rounds(t, dt) * dt == t
  {
    var q := t / dt;
    assert t == dt * q;
    Distribute(dt, 1, q);
    Order(dt, q, 0);
    RoundsAre(t, dt, q);
  }

  lemma {:induction false} StepsFillTheTime(list: seq<IntervalInfo>, dt: int)
    requires dt > 0 && Divides(dt, list)
    ensures Steps(list, dt) * dt == TimeLeft(list)
  {
    hide Rounds;
    if list != [] {
      RoundsFill(list[0].timeLeft, dt);
      StepsFillTheTime(list[1..], dt);
      AddProducts(Rounds(list[0].timeLeft, dt), Steps(list[1..], dt), dt);
    }
  }

  /** The time to the end covers what the entries still need. */
  predicate Covered(list: seq<IntervalInfo>, now: int, endTime: int) {
    TimeLeft(list) <= endTime - now
  }

  /** The execution interval divides the time of every entry: each execution on time keeps the end of the
      condition ahead of what is still to come ... */
  lemma CoverageKept(list: seq<IntervalInfo>, now: int, endTime: int, dt: int)
    requires dt > 0 && list != [] && Divides(dt, list) && Covered(list, now, endTime)
    ensures Divides(dt, Ticked(list, dt)) && Covered(Ticked(list, dt), now + dt, endTime) && now + dt <= endTime
  {
    var t := list[0].timeLeft;
    FrontStep(t, dt);
    RestDivides(list, dt);
    NonNegativeTime(list[1..], dt);
    hide Divides;
    if t > dt {
      FrontCounted(list, dt, t - dt);
    }
  }

  /** The time that is left of an entry after a step that does not end it. */
  lemma FrontStep(t: int, dt: int)
    requires dt > 0 && t > 0 && t % dt == 0
    ensures t >= dt && (t > dt ==> (t - dt) % dt == 0)
  {
    Quotient(t, dt);
    Distribute(dt, 1, t / dt);
    if t > dt {
      QuotientIs(t - dt, dt, t / dt - 1);
    }
  }

  lemma RestDivides(list: seq<IntervalInfo>, dt: int)
    requires dt > 0 && list != [] && Divides(dt, list)
    ensures Divides(dt, list[1..]) && list[0].timeLeft > 0 && list[0].timeLeft % dt == 0
  {
    assert forall k :: 0 <= k < |list[1..]| ==> list[1..][k] == list[k + 1];
  }

  lemma FrontCounted(list: seq<IntervalInfo>, dt: int, left: int)
    requires dt > 0 && list != [] && left > 0 && left % dt == 0 && Divides(dt, list[1..])
    ensures Divides(dt, [list[0].(timeLeft := left)] + list[1..])
    ensures TimeLeft([list[0].(timeLeft := left)] + list[1..]) == left + TimeLeft(list[1..])
  {
    var counted := [list[0].(timeLeft := left)] + list[1..];
    assert counted[1..] == list[1..];
    assert forall k :: 1 <= k < |counted| ==> counted[k] == list[1..][k - 1];
  }

  lemma NonNegativeTime(list: seq<IntervalInfo>, dt: int)
    requires dt > 0 && Divides(dt, list)
    ensures TimeLeft(list) >= 0
  {
    if list != [] {
      NonNegativeTime(list[1..], dt);
    }
  }

  /** ... so nothing is lost. */
  lemma NothingLost(list: seq<IntervalInfo>, start: int, endTime: int, dt: int, n: nat)
    requires dt > 0 && Divides(dt, list) && TimeLeft(list) <= endTime - start && n >= Steps(list, dt)
    ensures Dealt(list, Every(start, dt, n), endTime, dt) == Values(list)
  {
    hide Steps, Dealt, Divides;
    if list == [] {
      NothingLeft(Every(start, dt, n), endTime, dt);
    } else {
      NonNegativeTime(list, dt);
      StepsFillTheTime(list, dt);
      AddProducts(Steps(list, dt) - 1, 1, dt);
      ExactClock(list, start, endTime, dt, n);
    }
  }

  /** n equal entries of a condition that was given spare time: nothing is lost exactly when rounding every
      entry up to whole executions costs no more than one execution and the spare time. */
  lemma EqualEntries(values: seq<int>, time: int, start: int, spare: nat, dt: int, n: nat)
    requires dt > 0 && time > 0 && values != []
    requires n >= |values| * Rounds(time, dt)
    ensures Dealt(Entries(values, time), Every(start, dt, n), start + |values| * time + spare, dt) == values
       <==> |values| * (Rounds(time, dt) * dt - time) <= dt + spare
  {
    hide Steps, Dealt, Rounds, Entries;
    var list, m, c := Entries(values, time), |values|, Rounds(time, dt);
    EntriesOf(values, time);
    EqualSteps(values, time, dt);
    Product(m, time);
    ExactClock(list, start, start + m * time + spare, dt, n);
    AddProducts(m * c - 1, 1, dt);
    Spread(m, c, dt, time);
  }

  /** What is dealt of the values in all, if all wait (delayed) or the first is dealt at the start. */
  function DealtInAll(values: seq<int>, t: int, delayed: bool, now: int, dt: int, n: nat): seq<int> {
    var list := Entries(values, t);
    if values == [] then []
    else if delayed then Dealt(list, Every(now, dt, n), now + Intervals(list), dt)
    else [values[0]] + Dealt(list[1..], Every(now, dt, n), now + Intervals(list), dt)
  }

  /** Rounding the waiting entries up to whole executions costs no more than one execution, plus the time
      of the entry dealt at the start. */
  predicate RoundingFits(values: int, t: int, delayed: bool, dt: int)
    requires dt > 0
  {
    (if delayed then values else values - 1) * (Rounds(t, dt) * dt - t) <= dt + if delayed then 0 else t
  }

  /** It is everything, in order, exactly when the rounding fits. */
  lemma WholeRun(values: seq<int>, t: int, delayed: bool, now: int, dt: int, n: nat)
    requires dt > 0 && t > 0 && values != [] && n >= Steps(Entries(values, t), dt)
    ensures DealtInAll(values, t, delayed, now, dt, n) == values
       <==> RoundingFits(|values|, t, delayed, dt)
  {
    hide Rounds, Dealt, Entries, Steps, RoundingFits;
    EntriesOf(values, t);
    EqualSteps(values, t, dt);
    if delayed {
      EqualEntries(values, t, now, 0, dt, n);
      FitMeans(|values|, t, delayed, dt);
    } else {
      AllButFirst(values, t, now, dt, n);
    }
  }

  lemma AllButFirst(values: seq<int>, t: int, now: int, dt: int, n: nat)
    requires dt > 0 && t > 0 && values != [] && n >= |values| * Rounds(t, dt)
    ensures [values[0]] + Dealt(Entries(values, t)[1..], Every(now, dt, n), now + |values| * t, dt) == values
       <==> RoundingFits(|values|, t, false, dt)
  {
    hide Rounds, Dealt, Entries, Steps, RoundingFits, Every;
    var rest := values[1..];
    assert values == [values[0]] + rest;
    EntriesTail(values, t);
    AddProducts(|rest|, 1, t);
    AddProducts(|rest|, 1, Rounds(t, dt));
    Cancel([values[0]], Dealt(Entries(rest, t), Every(now, dt, n), now + |values| * t, dt), rest);
    FitMeans(|values|, t, false, dt);
    if rest == [] {
      NoEntries(t);
      NothingLeft(Every(now, dt, n), now + |values| * t, dt);
    } else {
      EqualEntries(rest, t, now, t, dt, n);
    }
  }

  lemma FitMeans(values: int, t: int, delayed: bool, dt: int)
    requires dt > 0 && t > 0
    ensures delayed ==> (RoundingFits(values, t, delayed, dt) <==> values * (Rounds(t, dt) * dt - t) <= dt)
    ensures !delayed ==> (RoundingFits(values, t, delayed, dt) <==> (values - 1) * (Rounds(t, dt) * dt - t) <= dt + t)
    ensures !delayed && values == 1 ==> RoundingFits(values, t, delayed, dt)
  {
  }

  lemma NegatedMembers(s: seq<int>)
    ensures forall v :: v in Negated(s) <==> 0 - v in s
  {
    if s != [] {
      NegatedMembers(s[1..]);
    }
  }

  /** In a damage field no entry is ever used up: the front one is dealt again every `interval`. */
  lemma FieldsGoOn(list: seq<IntervalInfo>, dt: int)
    requires list != []
    ensures Values(Paused(list, dt)) == Values(list) && Intervals(Paused(list, dt)) == Intervals(list)
    ensures Paused(list, dt)[0].timeLeft == if Hit(list, dt) == [list[0].value] then list[0].interval else list[0].timeLeft - dt
    ensures Hit(list, dt) == [] <==> list[0].timeLeft > dt
  {
    assert Paused(list, dt)[1..] == list[1..];
  }

  lemma NegatedTotal(s: seq<int>)
    ensures D.Total(Negated(s)) == -D.Total(s)
  {
    if s != [] {
      assert Negated(s)[..|s| - 1] == Negated(s[..|s| - 1]);
      NegatedTotal(s[..|s| - 1]);
    }
  }

  /** Amount, list and clock together: where nothing is lost to the rounding, a victim loses exactly the
      amount if and only if it has room for each value of the list once. */
  lemma WholeAmountDealt(amount: nat, start: int, t: int, delayed: bool, now: int, dt: int, n: nat)
    requires dt > 0 && t > 0 && start >= 1
    requires RoundingFits(|D.Generated(amount, start)|, t, delayed, dt)
    requires n >= Steps(Entries(Negated(D.Generated(amount, start)), t), dt)
    ensures D.Total(DealtInAll(Negated(D.Generated(amount, start)), t, delayed, now, dt, n)) == 0 - amount
       <==> 2 * amount >= start * (start + 1)
  {
    hide Steps, D.Generated, D.Total, DealtInAll, Entries, Rounds, Negated, RoundingFits;
    var list := D.Generated(amount, start);
    D.DamageListShape(amount, start);
    D.DamageListExact(amount, start);
    assert start in list;
    NegatedTotal(list);
    WholeRun(Negated(list), t, delayed, now, dt, n);
  }

  /** Nothing is lost to the rounding when the executions divide the entries. */
  lemma EvenFits(values: int, t: int, delayed: bool, dt: int)
    requires dt > 0 && t > 0 && t % dt == 0
    ensures RoundingFits(values, t, delayed, dt)
  {
    RoundsFill(t, dt);
  }

  lemma Spread(m: int, c: int, d: int, t: int)
    ensures m * (c * d - t) == (m * c) * d - m * t
  {
  }

  lemma EqualSteps(values: seq<int>, time: int, dt: int)
    requires dt > 0
    ensures Steps(Entries(values, time), dt) == |values| * Rounds(time, dt)
  {
    hide Rounds;
    if values != [] {
      EqualSteps(values[1..], time, dt);
      AddProducts(|values[1..]|, 1, Rounds(time, dt));
    }
  }

  /** Entries of 1500 ms against executions every 1000 ms: of four entries the last is lost. */
  lemma SlowEntriesAreLost()
    ensures Dealt(Entries([-4, -3, -2, -1], 1500), Every(0, 1000, 8), 6000, 1000) != [-4, -3, -2, -1]
  {
    RoundsAre(1500, 1000, 2);
    EqualEntries([-4, -3, -2, -1], 1500, 0, 0, 1000, 8);
  }

  // ---------- the condition itself ----------

  class ConditionDamage {
    var ticks: int
    var endTime: int
    var damageList: seq<IntervalInfo>
    var periodDamage: int
    var periodDamageTick: int
    var tickInterval: int
    var minDamage: int
    var maxDamage: int
    var startDamage: int
    var delayed: bool
    /** The damage handed to doDamage so far. */
    var dealt: seq<int>

    constructor ()
      ensures ticks == 0 && endTime == 0 && damageList == [] && periodDamage == 0 && periodDamageTick == 0
      ensures tickInterval == 2000 && minDamage == maxDamage == startDamage == 0 && !delayed && dealt == []
    {
      ticks, endTime, damageList, periodDamage, periodDamageTick, tickInterval := 0, 0, [], 0, 0, 2000;
      minDamage, maxDamage, startDamage, delayed, dealt := 0, 0, 0, false, [];
    }

    method SetTicks(newTicks: int, now: int)
      modifies this`ticks, this`endTime
      ensures ticks == newTicks && endTime == now + newTicks
    {
      ticks := newTicks;
      endTime := ticks + now;
    }

    /** addDamage. A periodic condition takes no rounds. */
    method AddDamage(rounds: int, time: int, value: int, now: int) returns (ok: bool)
      modifies this`ticks, this`endTime, this`damageList, this`periodDamage, this`tickInterval
      ensures ok == (rounds == -1 || old(periodDamage) <= 0)
      ensures rounds == -1 ==> periodDamage == value && ticks == -1 && tickInterval == Max(time, THINK_INTERVAL)
                               && damageList == old(damageList) && endTime == old(endTime)
      ensures rounds != -1 ==> periodDamage == old(periodDamage) && tickInterval == old(tickInterval)
      ensures !ok ==> damageList == old(damageList) && ticks == old(ticks) && endTime == old(endTime)
      ensures rounds != -1 && ok ==>
                damageList == old(damageList) + Entries(Repeated(value, rounds), if time < 1000 then 1000 else time)
                && |damageList| == |old(damageList)| + (if rounds < 0 then 0 else rounds)
                && forall k :: |old(damageList)| <= k < |damageList| ==>
                     var t := if time < 1000 then 1000 else time; damageList[k] == IntervalInfo(t, value, t)
      ensures rounds != -1 && ok && old(ticks) >= 0 ==>
                ticks == old(ticks) + Max(0, rounds) * (if time < 1000 then 1000 else time)
                && endTime == if rounds > 0 then now + ticks else old(endTime)
    {
      var t := Max(time, THINK_INTERVAL);
      if rounds == -1 {
        periodDamage := value;
        tickInterval := t;
        ticks := -1;
        return true;
      }
      if periodDamage > 0 {
        return false;
      }
      var i := 0;
      assert Entries([], t) == [];
      while i < rounds
        invariant 0 <= i <= Max(0, rounds) && periodDamage == old(periodDamage) && tickInterval == old(tickInterval)
        invariant damageList == old(damageList) + Entries(Repeated(value, i), t)
        invariant old(ticks) >= 0 ==> ticks == old(ticks) + i * t
                                      && endTime == if i > 0 then now + ticks else old(endTime)
      {
        damageList := damageList + [IntervalInfo(t, value, t)];
        EntriesSnoc(Repeated(value, i), value, t);
        Product(i, t);
        assert (i + 1) * t == i * t + t;
        if ticks != -1 {
          SetTicks(ticks + t, now);
        }
        i := i + 1;
      }
      AllAlike(value, rounds, t);
      return true;
    }

    /** The start value init works with for the given amount. */
    function Start(amount: nat): int
      reads this
    {
      if startDamage > maxDamage then maxDamage
      else if startDamage == 0 then D.DefaultStart(amount)
      else startDamage
    }

    /** The values init fills an empty condition with. */
    function Generated(amount: nat): seq<int>
      reads this
    {
      if amount == 0 then [] else Negated(D.Generated(amount, Start(amount)))
    }

    /** The values are the negated numbers from 1 to the start value: the one set, the greatest damage if
        that is less, or a twentieth of the amount, rounded up. They hurt most at first and take at least
        the amount. */
    lemma ValuesAre(amount: nat)
      requires amount > 0
      ensures var first := if maxDamage < startDamage then maxDamage
                           else if startDamage == 0 then (amount + 19) / 20 else startDamage;
              && (forall v :: v in Generated(amount) <==> 1 <= 0 - v <= first)
              && (forall i, j :: 0 <= i < j < |Generated(amount)| ==> Generated(amount)[i] <= Generated(amount)[j])
              && (first >= 1 ==> D.Total(Generated(amount)) <= 0 - amount)
    {
      hide D.Total, Negated;
      var list := D.Generated(amount, Start(amount));
      if Start(amount) >= 1 {
        hide D.Generated;
        D.DamageListShape(amount, Start(amount));
        NegatedTotal(list);
      }
      NegatedMembers(list);
    }

    /** init. `amount` is the random number between minDamage and maxDamage. */
    method Init(amount: nat, now: int) returns (ok: bool)
      requires tickInterval >= 0
      modifies this`ticks, this`endTime, this`damageList, this`periodDamage, this`tickInterval, this`startDamage
      ensures periodDamage == old(periodDamage) && tickInterval == old(tickInterval)
      ensures ok == (periodDamage != 0 || damageList != [])
      ensures old(periodDamage) != 0 || old(damageList) != [] ==>
                damageList == old(damageList) && ticks == old(ticks) && endTime == old(endTime)
      ensures old(periodDamage) == 0 && old(damageList) == [] ==>
                damageList == Entries(old(Generated(amount)), Max(tickInterval, THINK_INTERVAL))
                && ticks == Intervals(damageList) && ticks >= 0 && endTime == now + ticks
    {
      if periodDamage != 0 {
        return true;
      }
      if damageList == [] {
        SetTicks(0, now);
        if amount != 0 {
          if startDamage > maxDamage {
            startDamage := maxDamage;
          } else if startDamage == 0 {
            startDamage := D.DefaultStart(amount);
          }
          var list := D.GenerateDamageList(amount, startDamage);
          AddAll(list, now);
        }
      }
      return damageList != [];
    }

    /** The loop of init over the generated values. */
    method AddAll(list: seq<int>, now: int)
      requires periodDamage == 0 && damageList == [] && ticks == 0 && endTime == now && tickInterval >= 0
      modifies this`ticks, this`endTime, this`damageList, this`periodDamage, this`tickInterval
      ensures periodDamage == 0 && tickInterval == old(tickInterval)
      ensures damageList == Entries(Negated(list), Max(tickInterval, THINK_INTERVAL))
      ensures ticks == Intervals(damageList) && ticks >= 0 && endTime == now + ticks
    {
      var t := Max(tickInterval, THINK_INTERVAL);
      var values := Negated(list);
      var k := 0;
      assert Entries([], t) == [];
      while k < |list|
        invariant 0 <= k <= |list| && periodDamage == 0 && tickInterval == old(tickInterval)
        invariant damageList == Entries(values[..k], t)
        invariant ticks == k * t && endTime == now + ticks
      {
        Product(k, t);
        assert (k + 1) * t == k * t + t;
        assert values[..k + 1] == values[..k] + [values[k]];
        EntriesSnoc(values[..k], values[k], t);
        assert Repeated(values[k], 1) == [values[k]] by { assert Repeated(values[k], 0) == []; }
        assert Entries([values[k]], t) == [IntervalInfo(t, values[k], t)] by { assert Entries([values[k]][1..], t) == []; }
        var _ := AddDamage(1, tickInterval, -list[k], now);
        k := k + 1;
      }
      assert values[..k] == values;
      EntriesOf(values, t);
      Product(k, t);
    }

    /** getNextDamage: the front entry leaves unless the condition is endless. */
    method GetNextDamage() returns (found: bool, damage: int)
      modifies this`damageList
      ensures found == (periodDamage != 0 || old(damageList) != [])
      ensures periodDamage != 0 ==> damage == periodDamage && damageList == old(damageList)
      ensures periodDamage == 0 && old(damageList) != [] ==>
                damage == old(damageList)[0].value
                && damageList == if ticks != -1 then old(damageList)[1..] else old(damageList)
      ensures !found ==> damageList == old(damageList)
    {
      damage := 0;
      if periodDamage != 0 {
        return true, periodDamage;
      } else if damageList != [] {
        damage := damageList[0].value;
        if ticks != -1 {
          damageList := damageList[1..];
        }
        return true, damage;
      }
      return false, damage;
    }

    /** startCondition. `hit` is what doDamage answers; a condition that answers false is not kept. A
        condition without delay deals its first entry at once. */
    method StartCondition(amount: nat, hit: bool, now: int) returns (ok: bool)
      requires tickInterval >= 0
      modifies this`ticks, this`endTime, this`damageList, this`periodDamage, this`tickInterval, this`startDamage, this`dealt
      ensures tickInterval == old(tickInterval) && periodDamage == old(periodDamage)
      ensures var generated := periodDamage == 0 && old(damageList) == [];
              var list := if generated then Entries(old(Generated(amount)), Max(tickInterval, THINK_INTERVAL)) else old(damageList);
              var some := periodDamage != 0 || list != [];
              ok == (some && (delayed || hit))
              && (generated ==> ticks == Intervals(list) && ticks >= 0 && endTime == now + ticks)
              && (!generated ==> ticks == old(ticks) && endTime == if ticks > 0 then ticks + now else old(endTime))
              && damageList == (if some && !delayed && periodDamage == 0 && ticks != -1 then list[1..] else list)
              && dealt == old(dealt) + if !some || delayed then [] else if periodDamage != 0 then [periodDamage] else [list[0].value]
    {
      hide Entries;
      if ticks > 0 {
        endTime := ticks + now;
      }
      ok := Init(amount, now);
      if !ok {
        return;
      }
      if !delayed {
        var found, damage := GetNextDamage();
        if found {
          dealt := dealt + [damage];
          ok := hit;
        }
      }
    }

    /** executeCondition. `remove` is what onTickCondition leaves in bRemove; outside damage fields that is
        ticks != -1. The answer says whether the condition lives on. */
    method ExecuteCondition(interval: int, remove: bool, now: int) returns (alive: bool)
      modifies this`ticks, this`endTime, this`damageList, this`periodDamageTick, this`dealt
      ensures periodDamage == 0 ==>
                damageList == (if remove then Ticked(old(damageList), interval) else Paused(old(damageList), interval))
                && dealt == old(dealt) + Hit(old(damageList), interval)
                && periodDamageTick == old(periodDamageTick)
      ensures periodDamage != 0 ==>
                damageList == old(damageList)
                && (var due := old(periodDamageTick) + interval >= tickInterval;
                    dealt == old(dealt) + (if due then [periodDamage] else [])
                    && periodDamageTick == if due then 0 else old(periodDamageTick) + interval)
      ensures var still := periodDamage == 0 && old(damageList) != [] && !remove;
              endTime == old(endTime) + (if still && old(ticks) > 0 then interval else 0)
              && ticks == if old(ticks) == -1 then -1 else Max(0, old(ticks) - if still then 0 else interval)
      ensures alive == (ticks == -1 || endTime >= now)
    {
      var dt := interval;
      if periodDamage != 0 {
        periodDamageTick := periodDamageTick + dt;
        if periodDamageTick >= tickInterval {
          periodDamageTick := 0;
          dealt := dealt + [periodDamage];
        }
      } else if damageList != [] {
        var front := damageList[0];
        front := front.(timeLeft := front.timeLeft - dt);
        if front.timeLeft <= 0 {
          if remove {
            damageList := damageList[1..];
          } else {
            damageList := [front.(timeLeft := front.interval)] + damageList[1..];
          }
          dealt := dealt + [front.value];
        } else {
          damageList := [front] + damageList[1..];
        }
        if !remove {
          if ticks > 0 {
            endTime := endTime + dt;
          }
          dt := 0;
        }
      }
      if ticks == -1 {
        return true;
      }
      ticks := Max(0, ticks - dt);
      return endTime >= now;
    }

    /** A whole run outside damage fields: executed at the given times until the condition expires. */
    method Run(times: seq<int>, interval: int) returns (alive: bool)
      requires periodDamage == 0 && ticks != -1
      modifies this`ticks, this`endTime, this`damageList, this`periodDamageTick, this`dealt
      ensures dealt == old(dealt) + Dealt(old(damageList), times, endTime, interval)
      ensures endTime == old(endTime)
      ensures alive ==> forall j :: 0 <= j < |times| ==> times[j] <= endTime
    {
      hide Dealt, Ticked, Hit;
      alive := true;
      var j := 0;
      assert times[0..] == times;
      assert old(damageList) == damageList;
      while alive && j < |times|
        invariant 0 <= j <= |times| && periodDamage == 0 && ticks != -1 && endTime == old(endTime)
        invariant alive ==> dealt + Dealt(damageList, times[j..], endTime, interval)
                            == old(dealt) + Dealt(old(damageList), times, endTime, interval)
        invariant !alive ==> dealt == old(dealt) + Dealt(old(damageList), times, endTime, interval)
        invariant alive ==> forall i :: 0 <= i < j ==> times[i] <= endTime
        decreases |times| - j
      {
        ghost var list, before := damageList, dealt;
        alive := ExecuteCondition(interval, true, times[j]);
        assert times[j..][1..] == times[j + 1..];
        assert damageList == Ticked(list, interval) && dealt == before + Hit(list, interval) by { NothingToTick(list, interval); }
        Once(list, times[j..], endTime, interval);
        assert before + (Hit(list, interval) + Dealt(damageList, times[j + 1..], endTime, interval))
            == dealt + Dealt(damageList, times[j + 1..], endTime, interval);
        j := j + 1;
      }
      if alive {
        assert times[j..] == [];
        NoTimes(damageList, endTime, interval);
      }
    }

    /** From the start to the end, executions every `interval` on an exact clock. The damage dealt is the
        generated list, in order and complete, exactly when the rounding fits. */
    method Lifetime(amount: nat, now: int, interval: int, n: nat) returns (ok: bool)
      requires periodDamage == 0 && damageList == [] && tickInterval >= 0 && dealt == []
      requires interval > 0 && n >= Steps(Entries(Generated(amount), Max(tickInterval, THINK_INTERVAL)), interval)
      modifies this
      ensures ok == (old(Generated(amount)) != [])
      ensures ok ==>
                var values, t := old(Generated(amount)), if old(tickInterval) < 1000 then 1000 else old(tickInterval);
                dealt == values <==> RoundingFits(|values|, t, delayed, interval)
    {
      hide Steps, Dealt, Entries, RoundingFits, Every, Intervals;
      ghost var values := Generated(amount);
      ghost var t := Max(tickInterval, THINK_INTERVAL);
      EntriesTail(values, t);
      NoEntries(t);
      ok := StartCondition(amount, true, now);
      if ok {
        WholeRun(values, t, delayed, now, interval, n);
        var _ := Run(Every(now, interval, n), interval);
      }
    }
  }

  lemma AllAlike(value: int, n: int, t: int)
    ensures |Entries(Repeated(value, n), t)| == Max(0, n)
    ensures forall k :: 0 <= k < Max(0, n) ==> Entries(Repeated(value, n), t)[k] == IntervalInfo(t, value, t)
    decreases Max(0, n)
  {
    if n > 0 {
      AllAlike(value, n - 1, t);
      EntriesSnoc(Repeated(value, n - 1), value, t);
    }
  }

  lemma NoEntries(t: int)
    ensures Entries([], t) == []
  {
  }
}
