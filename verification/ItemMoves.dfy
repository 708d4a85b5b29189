/** What adding, removing, updating and replacing an item does to a forest, and what every such change
    keeps: the links stay a forest and every cached weight stays the weight of what is inside. */
module ItemMoves {
  import opened Bytes
  import opened ItemForest

  // ---------- 32-bit differences ----------

  /** Conversion of a uint32_t to int32_t. */
  function AsInt32(w: nat): (r: int)
    requires w < WORD
    ensures Wrap(r) == w
  {
    if w < 0x8000_0000 then w else w - WORD
  }

  /** The argument of updateItemWeight when a weight changes from old to new. */
  function Difference(was: nat, now: nat): int
    requires was < WORD && now < WORD
  {
    AsInt32(Wrap(-AsInt32(was) + now))
  }

  lemma WrapSame(x: int, y: int, k: int)
    requires Wrap(x) == Wrap(y)
    ensures Wrap(k + x) == Wrap(k + y)
  {
    WrapShift(x, k);
    WrapShift(y, k);
  }

  lemma WrapDifference(was: nat, now: nat)
    requires was < WORD && now < WORD
    ensures Wrap(Difference(was, now)) == Wrap(now - was)
    ensures Wrap(-AsInt32(was)) == Wrap(0 - was)
  {
    var a := AsInt32(was);
    assert a == was || a == was - WORD;
    WrapPeriod(0 - was);
    WrapPeriod(now - was);
    assert Wrap(-a + now) == Wrap(now - was);
  }

  lemma WrapTwice(x: int)
    ensures Wrap(Wrap(x)) == Wrap(x)
  {
  }

  lemma WrapPeriod(x: int)
    ensures Wrap(x + WORD) == Wrap(x)
  {
  }

  // ---------- the invariant ----------

  ghost predicate Inv(f: Forest, d: Depths) {
    Valid(f, d) && Weighed(f, d)
  }

  /** Changing cached weights changes no link. */
  lemma {:induction false} SameLinksAbove(f: Forest, f': Forest, d: Depths, a: Handle, y: Handle)
    requires f.parent == f'.parent
    ensures Above(f, d, a, y) == Above(f', d, a, y)
    decreases Depth(d, y)
  {
    if y in f.parent && Depth(d, f.parent[y]) < Depth(d, y) {
      SameLinksAbove(f, f', d, a, f.parent[y]);
    }
  }

  lemma SameLinksInside(f: Forest, f': Forest, d: Depths, h: Handle)
    requires f.parent == f'.parent && f.info.Keys == f'.info.Keys
    ensures Inside(f, d, h) == Inside(f', d, h)
  {
    forall y | y in f.info
      ensures Above(f, d, h, y) == Above(f', d, h, y)
    {
      SameLinksAbove(f, f', d, h, y);
    }
  }

  lemma SameLinksHolds(f: Forest, f': Forest, c: Handle, list: seq<Handle>)
    requires f.parent == f'.parent && Holds(f, c, list)
    ensures Holds(f', c, list)
  {
  }

  lemma SameLinksValid(f: Forest, f': Forest, d: Depths)
    requires Valid(f, d) && f.parent == f'.parent && f.items == f'.items
    requires f.info.Keys == f'.info.Keys && f.total.Keys == f'.total.Keys
    ensures Valid(f', d)
  {
    hide Holds;
    forall h | h in f'.items
      ensures Holds(f', h, f'.items[h])
    {
      SameLinksHolds(f, f', h, f.items[h]);
    }
  }

  /** All cached weights are right, except that those of the containers around c lack delta. */
  ghost predicate WeighedBut(f: Forest, d: Depths, c: Handle, delta: int) {
    forall h :: h in f.total ==>
      f.total[h] == Wrap(Sum(f, Inside(f, d, h)) - if Above(f, d, h, c) then delta else 0)
  }

  /** updateItemWeight puts exactly such a state right. */
  lemma Settle(f: Forest, d: Depths, c: Handle, delta: int, diff: int)
    requires Valid(f, d) && WeighedBut(f, d, c, delta) && Wrap(diff) == Wrap(delta)
    ensures Inv(Reweighed(f, d, c, diff), d)
  {
    hide Wrap, Sum, Inside, Above, Own, Valid;
    var f' := Reweighed(f, d, c, diff);
    SameLinksValid(f, f', d);
    forall h | h in f'.total
      ensures f'.total[h] == Wrap(Sum(f', Inside(f', d, h)))
    {
      SettleOne(f, f', d, c, delta, diff, h);
    }
  }

  lemma SettleOne(f: Forest, f': Forest, d: Depths, c: Handle, delta: int, diff: int, h: Handle)
    requires f' == Reweighed(f, d, c, diff) && h in f.total
    requires f.total[h] == Wrap(Sum(f, Inside(f, d, h)) - if Above(f, d, h, c) then delta else 0)
    requires Wrap(diff) == Wrap(delta)
    ensures f'.total[h] == Wrap(Sum(f', Inside(f', d, h)))
  {
    hide Wrap, Sum, Inside, Above;
    SameLinksInside(f, f', d, h);
    SumFrame(f, f', Inside(f, d, h));
    if Above(f, d, h, c) {
      var s := Sum(f, Inside(f, d, h));
      WrapShift(s - delta, diff);
      WrapSame(diff, delta, s - delta);
    }
  }

  /** getWeight is the weight of the whole subtree. */
  lemma WeightIsSubtree(f: Forest, d: Depths, x: Handle)
    requires Inv(f, d) && x in f.info
    ensures Weight(f, x) == Wrap(Sum(f, Subtree(f, d, x)))
  {
    hide Wrap, Mirrored, Ranked, Above;
    SubtreeSum(f, d, x);
    if x in f.total {
      WrapShift(Sum(f, Inside(f, d, x)), Own(f, x));
    } else {
      NothingInside(f, d, x);
      OwnWraps(f, x);
    }
  }

  lemma SubtreeSum(f: Forest, d: Depths, x: Handle)
    ensures Sum(f, Subtree(f, d, x)) == Own(f, x) + Sum(f, Inside(f, d, x))
  {
    SumUnion(f, {x}, Inside(f, d, x));
    SumWithout(f, {x}, x);
    assert {x} - {x} == {};
  }

  lemma OwnWraps(f: Forest, x: Handle)
    ensures Own(f, x) == Wrap(Own(f, x) + 0)
  {
  }

  lemma NothingInside(f: Forest, d: Depths, x: Handle)
    requires Valid(f, d) && x in f.info && x !in f.items
    ensures Inside(f, d, x) == {}
  {
    forall y | y in f.info && y != x
      ensures !Above(f, d, x, y)
    {
      NotAboveAnything(f, d, x, y);
    }
  }

  lemma {:induction false} NotAboveAnything(f: Forest, d: Depths, x: Handle, y: Handle)
    requires Valid(f, d) && y in f.info && x !in f.items && y != x
    ensures !Above(f, d, x, y)
    decreases d[y]
  {
    if y in f.parent {
      NotAboveAnything(f, d, x, f.parent[y]);
    }
  }

  // ---------- adding ----------

  /** x, a root that does not hold c, becomes element i of c. */
  ghost function Added(f: Forest, d: Depths, c: Handle, i: nat, x: Handle): Forest {
    Reweighed(Linked(f, c, i, x), DepthsLinked(f, d, c, x), c, AsInt32(Weight(f, x)))
  }

  /** Linking x leaves the containers around c short of the weight of x's subtree, on top of whatever
      they were short of before. */
  lemma LinkWeighsBut(f: Forest, d: Depths, c: Handle, i: nat, x: Handle, short: int)
    requires Valid(f, d) && WeighedBut(f, d, c, short) && CanLink(f, d, c, x) && i <= |f.items[c]|
    ensures Valid(Linked(f, c, i, x), DepthsLinked(f, d, c, x))
    ensures WeighedBut(Linked(f, c, i, x), DepthsLinked(f, d, c, x), c, short + Sum(f, Subtree(f, d, x)))
  {
    hide Wrap, Sum, Inside, Above, Mirrored, Own, Ranked, DepthsLinked, CanLink, Subtree;
    var f', d' := Linked(f, c, i, x), DepthsLinked(f, d, c, x);
    LinkValid(f, d, c, i, x);
    forall h | h in f'.total
      ensures f'.total[h] == Wrap(Sum(f', Inside(f', d', h)) - if Above(f', d', h, c) then short + Sum(f, Subtree(f, d, x)) else 0)
    {
      LinkSum(f, d, c, i, x, h);
    }
  }

  lemma LinkSum(f: Forest, d: Depths, c: Handle, i: nat, x: Handle, h: Handle)
    requires Valid(f, d) && CanLink(f, d, c, x) && i <= |f.items[c]| && h in f.info
    requires Ranked(Linked(f, c, i, x), DepthsLinked(f, d, c, x))
    ensures var f', d' := Linked(f, c, i, x), DepthsLinked(f, d, c, x);
            && Above(f', d', h, c) == Above(f, d, h, c)
            && Sum(f', Inside(f', d', h)) == Sum(f, Inside(f, d, h)) + if Above(f, d, h, c) then Sum(f, Subtree(f, d, x)) else 0
  {
    var f', d' := Linked(f, c, i, x), DepthsLinked(f, d, c, x);
    LinkInside(f, d, c, i, x, h);
    LinkAbove(f, d, c, i, x, h, c);
    SumFrame(f, f', Inside(f', d', h));
    if Above(f, d, h, c) {
      SumUnion(f, Inside(f, d, h), Subtree(f, d, x));
    }
  }

  /** Adding keeps the invariant. */
  lemma AddKeeps(f: Forest, d: Depths, c: Handle, i: nat, x: Handle)
    requires Inv(f, d) && CanLink(f, d, c, x) && i <= |f.items[c]|
    ensures Inv(Added(f, d, c, i, x), DepthsLinked(f, d, c, x))
  {
    LinkWeighsBut(f, d, c, i, x, 0);
    WeightIsSubtree(f, d, x);
    Settle(Linked(f, c, i, x), DepthsLinked(f, d, c, x), c, Sum(f, Subtree(f, d, x)), AsInt32(Weight(f, x)));
  }

  // ---------- removing ----------

  /** Element i leaves c; the weights are brought up to date before the links are cut. */
  ghost function Removed(f: Forest, d: Depths, c: Handle, i: nat): Forest {
    if c !in f.items || i >= |f.items[c]| then f
    else Unlinked(Reweighed(f, d, c, -AsInt32(Weight(f, f.items[c][i]))), c, i)
  }

  /** What a container loses when x leaves c. */
  lemma UnlinkSum(f: Forest, d: Depths, c: Handle, i: nat, h: Handle)
    requires Valid(f, d) && c in f.items && i < |f.items[c]| && h in f.info
    ensures var x := f.items[c][i];
            var f', d' := Unlinked(f, c, i), DepthsUnlinked(f, d, x);
            Sum(f', Inside(f', d', h)) == Sum(f, Inside(f, d, h)) + if Above(f', d', h, c) then 0 - Sum(f, Subtree(f, d, x)) else 0
  {
    hide Wrap, Sum, Inside, Above, Mirrored, Own, Ranked, DepthsLinked, DepthsUnlinked, Subtree, Linked, Unlinked;
    var x := f.items[c][i];
    var f', d' := Unlinked(f, c, i), DepthsUnlinked(f, d, x);
    UnlinkTotals(f, c, i);
    UnlinkThenLink(f, d, c, i);
    UnlinkSubtree(f, d, c, i);
    SameOwn(f, f', Subtree(f, d, x));
    LinkSum(f', d', c, i, x, h);
  }

  lemma UnlinkWeighs(f: Forest, d: Depths, c: Handle, i: nat)
    requires Inv(f, d) && c in f.items && i < |f.items[c]|
    ensures var x := f.items[c][i];
            Valid(Unlinked(f, c, i), DepthsUnlinked(f, d, x))
            && WeighedBut(Unlinked(f, c, i), DepthsUnlinked(f, d, x), c, 0 - Sum(f, Subtree(f, d, x)))
  {
    hide Wrap, Sum, Inside, Above, Mirrored, Own, Ranked, DepthsUnlinked, Subtree, Unlinked;
    var x := f.items[c][i];
    var f', d' := Unlinked(f, c, i), DepthsUnlinked(f, d, x);
    UnlinkTotals(f, c, i);
    UnlinkValid(f, d, c, i);
    forall h | h in f'.total
      ensures f'.total[h] == Wrap(Sum(f', Inside(f', d', h)) - if Above(f', d', h, c) then 0 - Sum(f, Subtree(f, d, x)) else 0)
    {
      UnlinkSum(f, d, c, i, h);
    }
  }

  lemma UnlinkTotals(f: Forest, c: Handle, i: nat)
    ensures var f' := Unlinked(f, c, i);
            && f'.total == f.total && f'.info == f.info && f'.types == f.types && f'.items.Keys == f.items.Keys
            && (c in f.items && i < |f.items[c]| ==> |f'.items[c]| == |f.items[c]| - 1)
  {
  }

  lemma SameOwn(f: Forest, f': Forest, s: set<Handle>)
    requires f.types == f'.types && f.info == f'.info
    ensures Sum(f, s) == Sum(f', s)
  {
    SumFrame(f, f', s);
  }

  lemma UnlinkSubtree(f: Forest, d: Depths, c: Handle, i: nat)
    requires Valid(f, d) && c in f.items && i < |f.items[c]|
    ensures var x := f.items[c][i];
            Subtree(Unlinked(f, c, i), DepthsUnlinked(f, d, x), x) == Subtree(f, d, x)
  {
    var x := f.items[c][i];
    var f', d' := Unlinked(f, c, i), DepthsUnlinked(f, d, x);
    UnlinkThenLink(f, d, c, i);
    LinkInside(f', d', c, i, x, x);
  }

  lemma UnlinkSettles(f: Forest, d: Depths, c: Handle, i: nat)
    requires Inv(f, d) && c in f.items && i < |f.items[c]|
    ensures var x := f.items[c][i];
            Inv(Reweighed(Unlinked(f, c, i), DepthsUnlinked(f, d, x), c, -AsInt32(Weight(f, x))), DepthsUnlinked(f, d, x))
  {
    hide Wrap, Sum, Inside, Above, Mirrored, Ranked, Weighed, Own, DepthsUnlinked, Subtree, Unlinked, Reweighed, AsInt32, Weight, WeighedBut;
    var x := f.items[c][i];
    UnlinkWeighs(f, d, c, i);
    InList(f, d, c, i);
    WeightIsSubtree(f, d, x);
    var s: int := Sum(f, Subtree(f, d, x));
    NegatedWeight(f, x, s);
    Settle(Unlinked(f, c, i), DepthsUnlinked(f, d, x), c, 0 - s, -AsInt32(Weight(f, x)));
  }

  lemma NegatedWeight(f: Forest, x: Handle, s: int)
    requires Weight(f, x) == Wrap(s)
    ensures Weight(f, x) < WORD && Wrap(-AsInt32(Weight(f, x))) == Wrap(0 - s)
  {
    WrapDifference(Weight(f, x), 0);
    WrapNegate(Weight(f, x), s);
  }

  /** Removing keeps the invariant. */
  lemma RemoveKeeps(f: Forest, d: Depths, c: Handle, i: nat)
    requires Inv(f, d) && c in f.items && i < |f.items[c]|
    ensures Inv(Removed(f, d, c, i), DepthsUnlinked(f, d, f.items[c][i]))
  {
    UnlinkSettles(f, d, c, i);
    RemovedIsSettled(f, d, c, i);
  }

  lemma InList(f: Forest, d: Depths, c: Handle, i: nat)
    requires Valid(f, d) && c in f.items && i < |f.items[c]|
    ensures f.items[c][i] in f.info && f.items[c][i] in f.parent && f.parent[f.items[c][i]] == c
  {
    assert Holds(f, c, f.items[c]);
  }

  lemma WeightBound(f: Forest, x: Handle)
    ensures Weight(f, x) < WORD
  {
  }

  lemma WrapNegate(x: int, y: int)
    requires Wrap(x) == Wrap(y)
    ensures Wrap(-x) == Wrap(-y)
  {
    WrapSame(x, y, -x - y);
  }

  /** Weights first or links first makes no difference. */
  lemma RemovedIsSettled(f: Forest, d: Depths, c: Handle, i: nat)
    requires Valid(f, d) && c in f.items && i < |f.items[c]|
    ensures var x := f.items[c][i];
            Removed(f, d, c, i) == Reweighed(Unlinked(f, c, i), DepthsUnlinked(f, d, x), c, -AsInt32(Weight(f, x)))
  {
    hide Wrap, Valid, DepthsUnlinked, Above, AsInt32, Weight;
    var x := f.items[c][i];
    var f', d' := Unlinked(f, c, i), DepthsUnlinked(f, d, x);
    forall h | h in f.total
      ensures Above(f, d, h, c) == Above(f', d', h, c)
    {
      UnlinkAbove(f, d, c, i, h);
    }
  }

  lemma UnlinkAbove(f: Forest, d: Depths, c: Handle, i: nat, h: Handle)
    requires Valid(f, d) && c in f.items && i < |f.items[c]|
    ensures Above(f, d, h, c) == Above(Unlinked(f, c, i), DepthsUnlinked(f, d, f.items[c][i]), h, c)
  {
    hide Mirrored, Linked, Unlinked, DepthsLinked, DepthsUnlinked, Above;
    var x := f.items[c][i];
    UnlinkThenLink(f, d, c, i);
    LinkAbove(Unlinked(f, c, i), DepthsUnlinked(f, d, x), c, i, x, h, c);
  }

  // ---------- updating and replacing ----------

  /** setID and setSubType, or setItemCount, on element i of c. */
  ghost function Updated(f: Forest, d: Depths, c: Handle, i: nat, info: Info): Forest
    requires c in f.items && i < |f.items[c]|
  {
    var x := f.items[c][i];
    var f' := f.(info := f.info[x := info]);
    Reweighed(f', d, c, Difference(Weight(f, x), Weight(f', x)))
  }

  lemma InfoWeighs(f: Forest, d: Depths, c: Handle, x: Handle, info: Info)
    requires Inv(f, d) && x in f.parent && f.parent[x] == c
    ensures var f' := f.(info := f.info[x := info]);
            Valid(f', d) && WeighedBut(f', d, c, OwnWeight(f.types, info) - Own(f, x))
  {
    hide Wrap, Sum, Inside, Above, Mirrored, Own, OwnWeight;
    var f' := f.(info := f.info[x := info]);
    assert x in f.info && f.total.Keys <= f.info.Keys;
    SameLinksValid(f, f', d);
    hide Ranked;
    forall h | h in f'.total
      ensures f'.total[h]
           == Wrap(Sum(f', Inside(f', d, h)) - if Above(f', d, h, c) then OwnWeight(f.types, info) - Own(f, x) else 0)
    {
      InfoSum(f, d, c, x, info, h);
    }
  }

  lemma InfoSum(f: Forest, d: Depths, c: Handle, x: Handle, info: Info, h: Handle)
    requires Valid(f, d) && x in f.parent && f.parent[x] == c && h in f.info
    ensures var f' := f.(info := f.info[x := info]);
            && Above(f', d, h, c) == Above(f, d, h, c)
            && Sum(f', Inside(f', d, h)) == Sum(f, Inside(f, d, h))
               + if Above(f, d, h, c) then OwnWeight(f.types, info) - Own(f, x) else 0
  {
    var f', inside := f.(info := f.info[x := info]), Inside(f, d, h);
    SameLinksInside(f, f', d, h);
    SameLinksAbove(f, f', d, h, c);
    InsideOfChild(f, d, c, x, h);
    if Above(f, d, h, c) {
      SumWithout(f, inside, x);
      SumWithout(f', inside, x);
      SumFrame(f, f', inside - {x});
    } else {
      SumFrame(f, f', inside);
    }
  }

  lemma InsideOfChild(f: Forest, d: Depths, c: Handle, x: Handle, h: Handle)
    requires Valid(f, d) && x in f.parent && f.parent[x] == c && h in f.info
    ensures x in Inside(f, d, h) <==> Above(f, d, h, c)
  {
    if Above(f, d, h, c) {
      AboveIsShallower(f, d, h, c);
    }
  }

  /** Updating keeps the invariant. */
  lemma UpdateKeeps(f: Forest, d: Depths, c: Handle, i: nat, info: Info)
    requires Inv(f, d) && c in f.items && i < |f.items[c]|
    ensures Inv(Updated(f, d, c, i, info), d)
  {
    hide Wrap, Sum, Inside, Above, Mirrored, Ranked, OwnWeight, Reweighed, Difference, WeighedBut;
    InList(f, d, c, i);
    var x := f.items[c][i];
    var f' := f.(info := f.info[x := info]);
    InfoWeighs(f, d, c, x, info);
    WeightBound(f, x);
    WeightBound(f', x);
    WrapDifference(Weight(f, x), Weight(f', x));
    if x in f.total {
      WrapWeights(Own(f, x) + f.total[x], Own(f', x) + f.total[x]);
    }
    Settle(f', d, c, OwnWeight(f.types, info) - Own(f, x), Difference(Weight(f, x), Weight(f', x)));
  }

  lemma WrapWeights(x: int, y: int)
    ensures Wrap(Wrap(y) - Wrap(x)) == Wrap(y - x)
  {
    WrapShift(y, 0 - Wrap(x));
    WrapNegate(Wrap(x), x);
    WrapSame(0 - Wrap(x), -x, y);
  }

  /** y, a root that does not hold c, takes the place of element i of c, which becomes a root. */
  ghost function Replaced(f: Forest, d: Depths, c: Handle, i: nat, y: Handle): Forest
    requires c in f.items && i < |f.items[c]|
  {
    Reweighed(Linked(Unlinked(f, c, i), c, i, y), DepthsReplaced(f, d, c, i, y), c,
              Difference(Weight(f, f.items[c][i]), Weight(f, y)))
  }

  ghost function DepthsReplaced(f: Forest, d: Depths, c: Handle, i: nat, y: Handle): Depths
    requires c in f.items && i < |f.items[c]|
  {
    DepthsLinked(Unlinked(f, c, i), DepthsUnlinked(f, d, f.items[c][i]), c, y)
  }

  lemma ReplaceCanLink(f: Forest, d: Depths, c: Handle, i: nat, y: Handle)
    requires Valid(f, d) && c in f.items && i < |f.items[c]| && CanLink(f, d, c, y)
    ensures Valid(Unlinked(f, c, i), DepthsUnlinked(f, d, f.items[c][i]))
    ensures CanLink(Unlinked(f, c, i), DepthsUnlinked(f, d, f.items[c][i]), c, y)
  {
    var x := f.items[c][i];
    var f1, d1 := Unlinked(f, c, i), DepthsUnlinked(f, d, x);
    UnlinkValid(f, d, c, i);
    if Above(f1, d1, y, c) {
      UnlinkAboveBefore(f, d, c, i, y, c);
    }
  }

  /** Replacing keeps the invariant. */
  lemma ReplaceKeeps(f: Forest, d: Depths, c: Handle, i: nat, y: Handle)
    requires Inv(f, d) && c in f.items && i < |f.items[c]| && CanLink(f, d, c, y)
    ensures Inv(Replaced(f, d, c, i, y), DepthsReplaced(f, d, c, i, y))
  {
    hide Wrap, Sum, Inside, Above, Mirrored, Own, Ranked, Subtree, Reweighed, Linked, Unlinked, DepthsReplaced, Difference, Weight, WeighedBut;
    InList(f, d, c, i);
    var x := f.items[c][i];
    ReplaceWeighs(f, d, c, i, y);
    WeightBound(f, x);
    WeightBound(f, y);
    WeightIsSubtree(f, d, x);
    WeightIsSubtree(f, d, y);
    var sx: int, sy: int := Sum(f, Subtree(f, d, x)), Sum(f, Subtree(f, d, y));
    WrapDifference(Weight(f, x), Weight(f, y));
    WrapWeights(sx, sy);
    Settle(Linked(Unlinked(f, c, i), c, i, y), DepthsReplaced(f, d, c, i, y), c, sy - sx, Difference(Weight(f, x), Weight(f, y)));
  }

  lemma ReplaceWeighs(f: Forest, d: Depths, c: Handle, i: nat, y: Handle)
    requires Inv(f, d) && c in f.items && i < |f.items[c]| && CanLink(f, d, c, y)
    ensures Valid(Linked(Unlinked(f, c, i), c, i, y), DepthsReplaced(f, d, c, i, y))
    ensures WeighedBut(Linked(Unlinked(f, c, i), c, i, y), DepthsReplaced(f, d, c, i, y), c,
                       Sum(f, Subtree(f, d, y)) - Sum(f, Subtree(f, d, f.items[c][i])))
  {
    hide Wrap, Sum, Inside, Above, Valid, Weighed, Own, Subtree, DepthsUnlinked, DepthsLinked, Linked, Unlinked, CanLink, WeighedBut;
    var x := f.items[c][i];
    var f1, d1 := Unlinked(f, c, i), DepthsUnlinked(f, d, x);
    UnlinkTotals(f, c, i);
    ReplaceCanLink(f, d, c, i, y);
    UnlinkWeighs(f, d, c, i);
    assert Sum(f, Subtree(f, d, y)) == Sum(f1, Subtree(f1, d1, y)) by {
      RootSubtreeKept(f, d, c, i, y);
      SameOwn(f, f1, Subtree(f, d, y));
    }
    LinkWeighsBut(f1, d1, c, i, y, 0 - Sum(f, Subtree(f, d, x)));
  }

  /** Taking x out of c does not touch the subtree of another root that does not hold c. */
  lemma RootSubtreeKept(f: Forest, d: Depths, c: Handle, i: nat, y: Handle)
    requires Valid(f, d) && c in f.items && i < |f.items[c]| && CanLink(f, d, c, y)
    requires Valid(Unlinked(f, c, i), DepthsUnlinked(f, d, f.items[c][i]))
    requires CanLink(Unlinked(f, c, i), DepthsUnlinked(f, d, f.items[c][i]), c, y)
    ensures Subtree(Unlinked(f, c, i), DepthsUnlinked(f, d, f.items[c][i]), y) == Subtree(f, d, y)
  {
    var x := f.items[c][i];
    var f1, d1 := Unlinked(f, c, i), DepthsUnlinked(f, d, x);
    UnlinkThenLink(f, d, c, i);
    LinkInside(f1, d1, c, i, x, y);
  }
}
