/** ConditionDamage::generateDamageList: how an amount of damage over time is cut into falling values.
    The comparisons are done in exact rationals. */
module DamageList {
  import opened Arithmetic

  function AbsReal(x: real): real {
    if x < 0.0 then -x else x
  }

  function Abs(x: int): nat {
    if x < 0 then -x else x
  }

  /** x1 < x2: one more i brings the sum closer to med. A division by med == 0 gives infinity on both
      sides, and infinity is not smaller than itself. */
  predicate OneMoreIsCloser(sum: int, i: int, med: int) {
    med != 0 &&
    AbsReal(1.0 - (sum as real + i as real) / med as real) < AbsReal(1.0 - sum as real / med as real)
  }

  /** In whole numbers: more than half an i is missing. */
  lemma CloserMeansHalfMissing(sum: int, i: int, med: int)
    requires sum > 0 && i > 0 && med >= 0
    ensures OneMoreIsCloser(sum, i, med) <==> 2 * (med - sum) > i
  {
    hide AbsReal;
    if med > 0 {
      CloserAsReals(med as real, sum as real, i as real);
      TwiceAsReal(med, sum);
    }
  }

  lemma TwiceAsReal(med: int, sum: int)
    ensures 2.0 * (med as real - sum as real) == (2 * (med - sum)) as real
  {
  }

  lemma CloserAsReals(m: real, s: real, i: real)
    requires m > 0.0 && i > 0.0
    ensures AbsReal(1.0 - (s + i) / m) < AbsReal(1.0 - s / m) <==> 2.0 * (m - s) > i
  {
    hide AbsReal;
    DistanceTimes(s + i, m);
    DistanceTimes(s, m);
    ScaledLess(AbsReal(1.0 - (s + i) / m), AbsReal(1.0 - s / m), m);
    Nearer(m, s, i);
  }

  lemma Nearer(m: real, s: real, i: real)
    requires i > 0.0
    ensures AbsReal(m - (s + i)) < AbsReal(m - s) <==> 2.0 * (m - s) > i
  {
  }

  /** The relative distance of a from m, times m, is the distance. */
  lemma DistanceTimes(a: real, m: real)
    requires m > 0.0
    ensures AbsReal(1.0 - a / m) * m == AbsReal(m - a)
  {
    var q := a / m;
    assert q * m == a;
    assert (1.0 - q) * m == m - q * m;
    ScaledAbs(1.0 - q, m);
  }

  lemma ScaledAbs(x: real, m: real)
    requires m > 0.0
    ensures AbsReal(x) * m == AbsReal(x * m)
  {
    if x < 0.0 {
      assert x * m < 0.0;
      assert (-x) * m == -(x * m);
    } else {
      assert x * m >= 0.0;
    }
  }

  lemma ScaledLess(x: real, y: real, m: real)
    requires m > 0.0
    ensures x < y <==> x * m < y * m
  {
  }

  // ---------- the list in closed form ----------

  function Repeat(v: int, k: nat): seq<int> {
    if k == 0 then [] else Repeat(v, k - 1) + [v]
  }

  /** How often the value i comes: as often as brings the sum nearest to med, but at least once. */
  function Copies(sum: int, i: int, med: int): (k: nat)
    requires i > 0
  {
    if 2 * (med - sum) <= 3 * i then 1 else (2 * (med - sum) + i - 1) / (2 * i)
  }

  /** The sum after all copies of i. */
  function After(sum: int, i: int, med: int): int
    requires i > 0
  {
    sum + Copies(sum, i, med) * i
  }

  /** The goal after the value i: the share of the amount that start + 1 - i of start rounds stand for. */
  function Goal(amount: nat, start: int, i: int): int
    requires start > 0
  {
    (start + 1 - i) * amount / start
  }

  function From(amount: nat, start: int, i: int, sum: int): seq<int>
    requires i <= start
    decreases i
  {
    if i <= 0 then []
    else
      var goal := Goal(amount, start, i);
      Repeat(i, Copies(sum, i, goal)) + From(amount, start, i - 1, After(sum, i, goal))
  }

  function Generated(amount: int, start: int): seq<int> {
    From(Abs(amount), start, start, 0)
  }

  lemma CopiesIsLeast(sum: int, i: int, med: int, j: nat)
    requires i > 0 && j >= 1
    ensures 2 * (med - (sum + j * i)) > i <==> j < Copies(sum, i, med)
  {
    var d, k := 2 * (med - sum), Copies(sum, i, med);
    TwiceProduct(i, j);
    if d <= 3 * i {
      Order(2 * i, 1, j + 1);
      Order(2 * i, 1, j);
    } else {
      Quotient(d + i - 1, 2 * i);
      Order(2 * i, j, k);
    }
  }

  lemma TwiceProduct(i: int, j: int)
    ensures (2 * i) * j == 2 * (j * i)
  {
  }

  /** generateDamageList(amount, start, list). */
  method GenerateDamageList(amount: int, start: int) returns (list: seq<int>)
    ensures list == Generated(amount, start)
  {
    hide Copies, After, Repeat;
    list := [];
    var a := Abs(amount);
    var sum := 0;
    var i := start;
    while i > 0
      invariant i <= start && sum >= 0
      invariant list + From(a, start, i, sum) == Generated(amount, start)
    {
      var n := start + 1 - i;
      var med := (n * a) / start;
      ghost var before, sum0 := list, sum;
      Product(n, a);
      Quotient(n * a, start);
      list, sum := Fill(list, sum, i, med);
      assert before + (Repeat(i, Copies(sum0, i, med)) + From(a, start, i - 1, sum)) == list + From(a, start, i - 1, sum);
      i := i - 1;
    }
  }

  /** The do-while loop of one round. */
  method Fill(list0: seq<int>, sum0: nat, i: int, med: nat) returns (list: seq<int>, sum: nat)
    requires i > 0
    ensures sum == After(sum0, i, med)
    ensures list == list0 + Repeat(i, Copies(sum0, i, med))
  {
    hide OneMoreIsCloser, Copies;
    list, sum := list0 + [i], sum0 + i;
    ghost var j := 1;
    assert Repeat(i, 1) == [i] by { assert Repeat(i, 0) == []; }
    AtLeastOne(sum0, i, med);
    CloserMeansHalfMissing(sum, i, med);
    CopiesIsLeast(sum0, i, med, j);
    while OneMoreIsCloser(sum, i, med)
      invariant 1 <= j <= Copies(sum0, i, med)
      invariant sum == sum0 + j * i && sum > 0
      invariant list == list0 + Repeat(i, j)
      invariant OneMoreIsCloser(sum, i, med) <==> j < Copies(sum0, i, med)
      decreases Copies(sum0, i, med) - j
    {
      sum := sum + i;
      list := list + [i];
      j := j + 1;
      CloserMeansHalfMissing(sum, i, med);
      CopiesIsLeast(sum0, i, med, j);
    }
  }

  // ---------- what the list is good for ----------

  function Total(s: seq<int>): int {
    if s == [] then 0 else Total(s[..|s| - 1]) + s[|s| - 1]
  }

  /** The running sum after the last entry that is at least v. */
  function TotalFrom(s: seq<int>, v: int): int {
    if s == [] then 0 else TotalFrom(s[..|s| - 1], v) + if s[|s| - 1] >= v then s[|s| - 1] else 0
  }

  lemma TotalConcat(s: seq<int>, t: seq<int>, v: int)
    ensures Total(s + t) == Total(s) + Total(t)
    ensures TotalFrom(s + t, v) == TotalFrom(s, v) + TotalFrom(t, v)
  {
    if t == [] {
      assert s + t == s;
    } else {
      assert (s + t)[..|s + t| - 1] == s + t[..|t| - 1];
      TotalConcat(s, t[..|t| - 1], v);
    }
  }

  lemma TotalRepeat(i: int, k: nat, v: int)
    ensures Total(Repeat(i, k)) == k * i
    ensures TotalFrom(Repeat(i, k), v) == if i >= v then k * i else 0
    ensures forall x :: x in Repeat(i, k) <==> x == i && k > 0
  {
    hide Total, TotalFrom;
    NoTotal();
    if k > 0 {
      TotalRepeat(i, k - 1, v);
      OneMoreTotal(Repeat(i, k - 1), i, v);
      assert (k - 1) * i + i == k * i;
    }
  }

  lemma OneMoreTotal(s: seq<int>, x: int, v: int)
    ensures Total(s + [x]) == Total(s) + x
    ensures TotalFrom(s + [x], v) == TotalFrom(s, v) + if x >= v then x else 0
  {
    assert (s + [x])[..|s|] == s;
  }

  predicate NonIncreasing(s: seq<int>) {
    forall p, q :: 0 <= p < q < |s| ==> s[p] >= s[q]
  }

  /** The list never rises and holds exactly the values 1 to start. */
  lemma {:induction false} FallingAndComplete(amount: nat, start: int, i: int, sum: int)
    requires i <= start
    ensures NonIncreasing(From(amount, start, i, sum))
    ensures forall v :: v in From(amount, start, i, sum) <==> 1 <= v <= i
    decreases i
  {
    if i > 0 {
      hide Copies, After, Goal;
      var goal := Goal(amount, start, i);
      var front, rest := Repeat(i, Copies(sum, i, goal)), From(amount, start, i - 1, After(sum, i, goal));
      OneRound(sum, i, goal, 0);
      FallingAndComplete(amount, start, i - 1, After(sum, i, goal));
      RunThenLower(i, front, rest);
    }
  }

  lemma RunThenLower(i: int, front: seq<int>, rest: seq<int>)
    requires forall x :: x in front <==> x == i
    requires NonIncreasing(rest) && forall x :: x in rest ==> x < i
    ensures NonIncreasing(front + rest)
  {
    forall p, q | 0 <= p < q < |front + rest| ensures (front + rest)[p] >= (front + rest)[q] {
      if q < |front| {
        assert front[p] in front && front[q] in front;
      } else {
        assert rest[q - |front|] in rest;
        if p < |front| {
          assert front[p] in front;
        }
      }
    }
  }

  /** What one round adds. */
  lemma OneRound(sum: int, i: int, med: int, v: int)
    requires i > 0
    ensures Copies(sum, i, med) >= 1
    ensures 2 * (med - After(sum, i, med)) <= i
    ensures After(sum, i, med) == sum + i || (After(sum, i, med) > sum + i && 2 * (After(sum, i, med) - med) < i)
    ensures var front := Repeat(i, Copies(sum, i, med));
            (forall x :: x in front <==> x == i) && Total(front) == After(sum, i, med) - sum
            && TotalFrom(front, v) == if i >= v then After(sum, i, med) - sum else 0
  {
    hide Repeat, Total, TotalFrom;
    var k := Copies(sum, i, med);
    AtLeastOne(sum, i, med);
    TotalRepeat(i, k, v);
    CopiesIsLeast(sum, i, med, k);
    if k > 1 {
      CopiesIsLeast(sum, i, med, k - 1);
      assert (k - 1) * i == k * i - i by { Distribute(i, 1, k); }
      Product(k - 2, i);
      assert k * i == (k - 2) * i + 2 * i;
    }
  }

  lemma AtLeastOne(sum: int, i: int, med: int)
    requires i > 0
    ensures Copies(sum, i, med) >= 1
  {
    var d := 2 * (med - sum);
    if d > 3 * i {
      Quotient(d + i - 1, 2 * i);
      Order(2 * i, (d + i - 1) / (2 * i), 1);
    }
  }

  /** Between the amount and what the least possible list adds on top. */
  lemma {:induction false} TotalBounds(amount: nat, start: int, i: int, sum: int)
    requires 0 <= i <= start && start > 0
    requires i < start ==> sum <= Goal(amount, start, i + 1) + Above(start, i)
    requires i == start ==> sum == 0
    requires i == 0 ==> sum >= amount
    ensures amount <= sum + Total(From(amount, start, i, sum)) <= amount + Above(start, 0)
    decreases i
  {
    hide Copies, After, Goal, Total, TotalFrom, Repeat;
    GoalEnds(amount, start);
    if i > 0 {
      var goal := Goal(amount, start, i);
      var next := After(sum, i, goal);
      OneRound(sum, i, goal, 0);
      GoalGrows(amount, start, i);
      TotalBounds(amount, start, i - 1, next);
      TotalConcat(Repeat(i, Copies(sum, i, goal)), From(amount, start, i - 1, next), 0);
    } else {
      assert Total([]) == 0 by { NoTotal(); }
    }
  }

  lemma NoTotal()
    ensures Total([]) == 0 && forall v :: TotalFrom([], v) == 0
  {
  }

  /** start + (start - 1) + ... + (i + 1). */
  function Above(start: int, i: int): nat
    decreases start - i
  {
    if i >= start || i < 0 then 0 else i + 1 + Above(start, i + 1)
  }

  lemma GoalEnds(amount: nat, start: int)
    requires start > 0
    ensures Goal(amount, start, 1) == amount && Goal(amount, start, start + 1) == 0
  {
    QuotientIs(start * amount, start, amount);
    assert (start + 1 - 1) * amount == start * amount;
    assert (start + 1 - (start + 1)) * amount == 0;
  }

  lemma GoalGrows(amount: nat, start: int, i: int)
    requires 0 < i <= start
    ensures Goal(amount, start, i + 1) <= Goal(amount, start, i)
    ensures amount >= start * start ==> Goal(amount, start, i + 1) + start <= Goal(amount, start, i)
  {
    var x := (start + 1 - (i + 1)) * amount;
    assert (start + 1 - i) * amount == x + amount;
    Grows(x, amount, start);
  }

  lemma Grows(x: int, amount: nat, d: int)
    requires d > 0
    ensures x / d <= (x + amount) / d
    ensures amount >= d * d ==> x / d + d <= (x + amount) / d
  {
    var p, q := x / d, (x + amount) / d;
    Quotient(x, d);
    Quotient(x + amount, d);
    Order(d, q, p);
    if amount >= d * d {
      Order(d, q, p + d);
      assert d * (p + d) == d * p + d * d;
    }
  }

  /** The gap between the sum and the goal is at most half the value, after every value. */
  predicate Near(amount: nat, start: int, i: int, sum: int)
    requires start > 0
  {
    -i <= 2 * (sum - Goal(amount, start, i)) <= i
  }

  lemma {:induction false} StaysNear(amount: nat, start: int, i: int, sum: int, v: int)
    requires 0 < v <= i <= start && amount >= start * start
    requires if i == start then sum == 0 else Near(amount, start, i + 1, sum)
    ensures Near(amount, start, v, sum + TotalFrom(From(amount, start, i, sum), v))
    decreases i
  {
    hide Copies, After, Goal, Total, TotalFrom, Repeat;
    var goal := Goal(amount, start, i);
    var next := After(sum, i, goal);
    GoalGrows(amount, start, i);
    GoalEnds(amount, start);
    OneRound(sum, i, goal, v);
    assert Near(amount, start, i, next);
    var rest := From(amount, start, i - 1, next);
    TotalConcat(Repeat(i, Copies(sum, i, goal)), rest, v);
    if v < i {
      StaysNear(amount, start, i - 1, next, v);
    } else {
      FallingAndComplete(amount, start, i - 1, next);
      assert forall k :: 0 <= k < |rest| ==> rest[k] in rest;
      NothingFrom(rest, v);
    }
  }

  lemma NothingFrom(s: seq<int>, v: int)
    requires forall k :: 0 <= k < |s| ==> s[k] < v
    ensures TotalFrom(s, v) == 0
  {
    if s != [] {
      NothingFrom(s[..|s| - 1], v);
    }
  }

  lemma AllFrom(s: seq<int>, v: int)
    requires forall k :: 0 <= k < |s| ==> s[k] >= v
    ensures TotalFrom(s, v) == Total(s)
  {
    if s != [] {
      AllFrom(s[..|s| - 1], v);
    }
  }

  /** For every amount and every start value: a falling list of exactly the values 1 to start, never less
      than the amount and above it by no more than 1 + 2 + ... + start. */
  lemma DamageListShape(amount: int, start: int)
    requires start >= 1
    ensures var list := Generated(amount, start);
            NonIncreasing(list) && (forall v :: v in list <==> 1 <= v <= start) &&
            Abs(amount) <= Total(list) && 2 * Total(list) <= 2 * Abs(amount) + start * (start + 1)
  {
    hide Total, NonIncreasing, Generated, From, Above;
    assert Generated(amount, start) == From(Abs(amount), start, start, 0) by { GeneratedIs(amount, start); }
    AboveIs(start, start);
    FallingAndComplete(Abs(amount), start, start, 0);
    TotalBounds(Abs(amount), start, start, 0);
  }

  lemma GeneratedIs(amount: int, start: int)
    ensures Generated(amount, start) == From(Abs(amount), start, start, 0)
  {
  }

  lemma {:induction false} AboveIs(start: int, k: int)
    requires 0 <= k <= start
    ensures 2 * Above(start, start - k) == start * (start + 1) - (start - k) * (start - k + 1)
    decreases k
  {
    if k > 0 {
      AboveIs(start, k - 1);
      var i := start - k;
      assert (i + 1) * (i + 2) == i * (i + 1) + 2 * (i + 1);
    }
  }

  /** Each value comes at least once. */
  lemma {:induction false} AtLeastEach(amount: nat, start: int, i: int, sum: int)
    requires 0 <= i <= start && start > 0
    ensures 2 * Total(From(amount, start, i, sum)) >= i * (i + 1)
    decreases i
  {
    hide Copies, After, Goal, Total, TotalFrom, Repeat;
    if i > 0 {
      var goal := Goal(amount, start, i);
      OneRound(sum, i, goal, 0);
      AtLeastEach(amount, start, i - 1, After(sum, i, goal));
      TotalConcat(Repeat(i, Copies(sum, i, goal)), From(amount, start, i - 1, After(sum, i, goal)), 0);
      assert i * (i + 1) == (i - 1) * i + 2 * i;
    } else {
      NoTotal();
    }
  }

  /** If the amount has room for each value once, the goal after the value i leaves room for those below i. */
  lemma RoomBelow(amount: nat, start: int, i: int)
    requires 0 < i <= start && 2 * amount >= start * (start + 1)
    ensures 2 * Goal(amount, start, i) + (i - 1) * (i + 1) <= 2 * amount
  {
    var left := amount - Goal(amount, start, i);
    hide Goal;
    MissingShare(amount, start, i);
    ShareOfRoom(start, start + 1, i - 1, left, amount);
    Enlarge(i - 1, i + 1, start + 1);
  }

  lemma ShareOfRoom(d: nat, e: nat, k: nat, left: int, amount: nat)
    requires d > 0 && 2 * amount >= d * e && d * left >= k * amount
    ensures 2 * left >= k * e
  {
    Enlarge(k, d * e, 2 * amount);
    assert d * (2 * left) == 2 * (d * left);
    assert k * (2 * amount) == 2 * (k * amount);
    assert k * (d * e) == d * (k * e);
    Order(d, 2 * left, k * e);
  }

  lemma MissingShare(amount: nat, start: int, i: int)
    requires 0 < i <= start
    ensures start * (amount - Goal(amount, start, i)) >= (i - 1) * amount
  {
    Quotient((start + 1 - i) * amount, start);
    assert (start + 1 - i) * amount == start * amount - (i - 1) * amount;
    Distribute(start, Goal(amount, start, i), amount);
  }

  lemma Enlarge(k: nat, x: int, y: int)
    requires x <= y
    ensures k * x <= k * y
  {
  }

  /** As long as the values still to come fit into the amount, they fit after the next value, too. */
  lemma {:induction false} NeverAbove(amount: nat, start: int, i: int, sum: int)
    requires 0 <= i <= start && start > 0 && 2 * amount >= start * (start + 1)
    requires 2 * sum + i * (i + 1) <= 2 * amount
    ensures sum + Total(From(amount, start, i, sum)) <= amount
    decreases i
  {
    hide Copies, After, Goal, Total, TotalFrom, Repeat;
    if i > 0 {
      var goal := Goal(amount, start, i);
      var next := After(sum, i, goal);
      OneRound(sum, i, goal, 0);
      RoomBelow(amount, start, i);
      assert i * (i + 1) == (i - 1) * i + 2 * i && (i - 1) * (i + 1) == (i - 1) * i + i - 1;
      NeverAbove(amount, start, i - 1, next);
      TotalConcat(Repeat(i, Copies(sum, i, goal)), From(amount, start, i - 1, next), 0);
    } else {
      NoTotal();
    }
  }

  /** No damage is added exactly when 1 + 2 + ... + start fits into the amount: 1 split from 2 on costs 3. */
  lemma DamageListExact(amount: int, start: int)
    requires start >= 1
    ensures Total(Generated(amount, start)) == Abs(amount) <==> 2 * Abs(amount) >= start * (start + 1)
  {
    DamageListShape(amount, start);
    AtLeastEach(Abs(amount), start, start, 0);
    if 2 * Abs(amount) >= start * (start + 1) {
      NeverAbove(Abs(amount), start, start, 0);
    }
  }

  /** From start * start on, the running sum after each value is within half that value of the proportional
      share. */
  lemma DamageListNear(amount: int, start: int, v: int)
    requires 1 <= v <= start && Abs(amount) >= start * start
    ensures -v <= 2 * (TotalFrom(Generated(amount, start), v) - (start + 1 - v) * Abs(amount) / start) <= v
  {
    StaysNear(Abs(amount), start, start, 0, v);
    hide TotalFrom, Generated;
  }

  /** An amount of 1 with start value 2 costs 3. */
  lemma SmallAmountsCostMore()
    ensures Total(Generated(1, 2)) == 3
  {
    hide Repeat, Total, Copies, After, Goal;
    SmallGoals();
    SmallCopies();
    TotalRepeat(2, 1, 0);
    TotalRepeat(1, 1, 0);
    assert From(1, 2, 0, 3) == [];
    assert From(1, 2, 1, 2) == Repeat(1, 1) + [];
    TotalConcat(Repeat(1, 1), [], 0);
    assert Generated(1, 2) == Repeat(2, 1) + From(1, 2, 1, 2);
    TotalConcat(Repeat(2, 1), From(1, 2, 1, 2), 0);
    NoTotal();
  }

  lemma SmallGoals()
    ensures Goal(1, 2, 2) == 0 && Goal(1, 2, 1) == 1
  {
  }

  lemma SmallCopies()
    ensures Copies(0, 2, 0) == 1 && After(0, 2, 0) == 2 && Copies(2, 1, 1) == 1 && After(2, 1, 1) == 3
  {
  }

  /** The start value init chooses when none is given: ceil(amount / 20.0), at least 1. */
  function DefaultStart(amount: nat): nat {
    if amount == 0 then 1 else (amount + 19) / 20
  }

  /** With the default start value no damage is added up to an amount of 760 and for 780, and always
      above. */
  lemma DefaultStartExact(amount: nat)
    requires amount >= 1
    ensures Total(Generated(amount, DefaultStart(amount))) == amount <==> amount <= 760 || amount == 780
  {
    hide Generated, Total;
    var k := DefaultStart(amount);
    Quotient(amount + 19, 20);
    RoomForEach(k);
    DamageListExact(amount, k);
  }

  lemma RoomForEach(k: nat)
    ensures k >= 40 ==> k * (k + 1) > 40 * k
    ensures 1 <= k <= 38 ==> k * (k + 1) <= 40 * (k - 1) + 2
  {
    if k >= 40 {
      Order(k, 40, k + 1);
    } else if 1 <= k <= 38 {
      assert (k - 1) * (38 - k) == 40 * k - k * (k + 1) - 38;
      Product(k - 1, 38 - k);
    }
  }
}
