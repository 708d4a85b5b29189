/** What the limits in queryAdd keep: no container that sits in another one ever holds more than the
    limits say, while an outermost container can. */
module ItemLimits {
  import opened Bytes
  import opened ItemForest
  import opened ItemMoves
  import opened ItemStore
  import opened ContainerIteration
  import opened ContainerCounts
  import opened ItemQueries
  import opened ItemTransfers
  import opened ItemRuns

  /** Every container that sits in another one holds at most n items, or at most n containers. */
  ghost predicate Bounded(f: Forest, d: Depths, boxesOnly: bool, n: nat) {
    forall h :: h in f.items && h in f.parent ==> Holding(f, d, h, boxesOnly) <= n
  }

  function LimitOf(q: Query, boxesOnly: bool): nat {
    if boxesOnly then q.maxContainer else q.maxItem
  }

  ghost function Members(f: Forest, d: Depths, h: Handle, boxesOnly: bool): set<Handle> {
    if boxesOnly then BoxSet(f.items, Inside(f, d, h)) else Inside(f, d, h)
  }

  /** What x adds to the count of a container that it is put into. */
  ghost function Units(f: Forest, d: Depths, x: Handle, boxesOnly: bool): nat {
    Holding(f, d, x, boxesOnly) + if boxesOnly && x !in f.items then 0 else 1
  }

  // ---------- the container that is counted for ----------

  lemma {:induction false} RootAboveSelf(f: Forest, d: Depths, c: Handle)
    requires Ranked(f, d) && c in f.info
    ensures Above(f, d, LimitRoot(f, d, c), c)
    decreases d[c]
  {
    if c in f.parent && f.parent[c] in f.parent {
      RootAboveSelf(f, d, f.parent[c]);
    }
  }

  /** Every container around c that sits in another one sits in the container the limits count for, or is
      that container. */
  lemma {:induction false} RootAboveHolders(f: Forest, d: Depths, c: Handle, h: Handle)
    requires Ranked(f, d) && c in f.info && Above(f, d, h, c) && h in f.parent
    ensures Above(f, d, LimitRoot(f, d, c), h)
    decreases d[c]
  {
    if h == c {
      RootAboveSelf(f, d, c);
    } else if f.parent[c] in f.parent {
      RootAboveHolders(f, d, f.parent[c], h);
    }
  }

  /** The limits count for the outermost container only when the item is put into that one directly. */
  lemma {:induction false} CountsOutermost(f: Forest, d: Depths, c: Handle)
    requires Ranked(f, d) && c in f.info
    ensures LimitRoot(f, d, c) !in f.parent <==> c !in f.parent
    decreases d[c]
  {
    if c in f.parent && f.parent[c] in f.parent {
      CountsOutermost(f, d, f.parent[c]);
    }
  }

  // ---------- counting ----------

  lemma HoldingGrows(f: Forest, d: Depths, g: Forest, e: Depths, h: Handle, k: Handle, boxesOnly: bool)
    requires Inside(g, e, h) <= Inside(f, d, k) && g.items.Keys == f.items.Keys
    ensures Holding(g, e, h, boxesOnly) <= Holding(f, d, k, boxesOnly)
  {
    hide Inside;
    SizeOfPart(Members(g, e, h, boxesOnly), Members(f, d, k, boxesOnly));
  }

  lemma InsideHolder(f: Forest, d: Depths, a: Handle, h: Handle)
    requires Ranked(f, d) && h in f.info && Above(f, d, a, h)
    ensures Inside(f, d, h) <= Inside(f, d, a)
  {
    forall y | y in Inside(f, d, h)
      ensures y in Inside(f, d, a)
    {
      AboveTransitive(f, d, a, h, y);
      AboveIsShallower(f, d, h, y);
      AboveIsShallower(f, d, a, h);
    }
  }

  /** What queryAdd has made sure of. */
  lemma LimitsMean(f: Forest, d: Depths, boxes: map<Handle, Box>, c: Handle, x: Handle, q: Query, boxesOnly: bool)
    requires Valid(f, d) && Allowed(f, d, boxes, c, x, q)
    ensures if boxesOnly && x !in f.items then Units(f, d, x, true) == 0
            else Units(f, d, x, boxesOnly) + Holding(f, d, LimitRoot(f, d, c), boxesOnly) <= LimitOf(q, boxesOnly)
  {
    hide Verdict, Inside, Above, LimitRoot;
    AllowedMeans(f, d, boxes, c, x, q);
    if x !in f.items {
      NothingInside(f, d, x);
      assert BoxSet(f.items, {}) == {};
    }
  }

  /** Linking x adds what it counts for to the containers around c and leaves the others alone. */
  lemma LinkCounts(f: Forest, d: Depths, c: Handle, i: nat, x: Handle, h: Handle, boxesOnly: bool)
    requires Valid(f, d) && CanLink(f, d, c, x) && i <= |f.items[c]| && h in f.info
    ensures Holding(Linked(f, c, i, x), DepthsLinked(f, d, c, x), h, boxesOnly)
         == Holding(f, d, h, boxesOnly) + if Above(f, d, h, c) then Units(f, d, x, boxesOnly) else 0
  {
    LinkValid(f, d, c, i, x);
    LinkInside(f, d, c, i, x, h);
    hide Inside, Above, CanLink, Valid, DepthsLinked;
    var g, e := Linked(f, c, i, x), DepthsLinked(f, d, c, x);
    var inside, subtree := Inside(f, d, h), Subtree(f, d, x);
    SameBoxes(f, g, c, i, x);
    SubtreeCounts(f, d, x, boxesOnly);
    if Above(f, d, h, c) {
      BoxesOfBoth(f.items, inside, subtree);
    }
    if boxesOnly {
      SameKeys(f.items, g.items, Inside(g, e, h));
    }
  }

  lemma SameBoxes(f: Forest, g: Forest, c: Handle, i: nat, x: Handle)
    requires c in f.items && g == Linked(f, c, i, x)
    ensures g.items.Keys == f.items.Keys
  {
  }

  lemma SameKeys(items: map<Handle, seq<Handle>>, others: map<Handle, seq<Handle>>, s: set<Handle>)
    requires items.Keys == others.Keys
    ensures BoxSet(items, s) == BoxSet(others, s)
  {
  }

  lemma BoxesOfBoth(items: map<Handle, seq<Handle>>, s: set<Handle>, t: set<Handle>)
    requires s !! t
    ensures |s + t| == |s| + |t|
    ensures |BoxSet(items, s + t)| == |BoxSet(items, s)| + |BoxSet(items, t)|
  {
    assert BoxSet(items, s + t) == BoxSet(items, s) + BoxSet(items, t);
  }

  lemma SubtreeCounts(f: Forest, d: Depths, x: Handle, boxesOnly: bool)
    ensures |if boxesOnly then BoxSet(f.items, Subtree(f, d, x)) else Subtree(f, d, x)| == Units(f, d, x, boxesOnly)
  {
    hide Above;
    BoxesOfBoth(f.items, {x}, Inside(f, d, x));
    assert BoxSet(f.items, {x}) == if x in f.items then {x} else {};
  }

  // ---------- what keeps the bound ----------

  /** g is f with things taken out or changed, and no container made or lost. */
  ghost predicate Shrinks(f: Forest, d: Depths, g: Forest, e: Depths) {
    && g.items.Keys == f.items.Keys && g.parent.Keys <= f.parent.Keys
    && forall h :: Inside(g, e, h) <= Inside(f, d, h)
  }

  lemma ShrinksBounded(f: Forest, d: Depths, g: Forest, e: Depths, boxesOnly: bool, n: nat)
    requires Shrinks(f, d, g, e) && Bounded(f, d, boxesOnly, n)
    ensures Bounded(g, e, boxesOnly, n)
  {
    forall h | h in g.items && h in g.parent
      ensures Holding(g, e, h, boxesOnly) <= n
    {
      HoldingGrows(f, d, g, e, h, h, boxesOnly);
    }
  }

  /** The bound depends on the links only. */
  lemma SameLinksShrink(f: Forest, g: Forest, d: Depths)
    requires g.parent == f.parent && g.info.Keys == f.info.Keys && g.items.Keys == f.items.Keys
    ensures Shrinks(f, d, g, d)
  {
    forall h
      ensures Inside(g, d, h) == Inside(f, d, h)
    {
      SameLinksInside(f, g, d, h);
    }
  }

  lemma ShrinksTwice(f: Forest, d: Depths, g: Forest, e: Depths, k: Forest, b: Depths)
    requires Shrinks(f, d, g, e) && Shrinks(g, e, k, b)
    ensures Shrinks(f, d, k, b)
  {
    hide Inside;
    forall h
      ensures Inside(k, b, h) <= Inside(f, d, h)
    {
      assert Inside(k, b, h) <= Inside(g, e, h) <= Inside(f, d, h);
    }
  }

  lemma UnlinkShrinks(f: Forest, d: Depths, c: Handle, i: nat)
    requires Valid(f, d) && c in f.items && i < |f.items[c]|
    ensures Shrinks(f, d, Unlinked(f, c, i), DepthsUnlinked(f, d, f.items[c][i]))
  {
    var x := f.items[c][i];
    var g, e := Unlinked(f, c, i), DepthsUnlinked(f, d, x);
    UnlinkThenLink(f, d, c, i);
    assert g.items.Keys == f.items.Keys && g.parent.Keys <= f.parent.Keys && g.info == f.info;
    hide Unlinked, DepthsUnlinked, Linked, DepthsLinked, CanLink;
    forall h
      ensures Inside(g, e, h) <= Inside(f, d, h)
    {
      if h in f.info {
        LinkInside(g, e, c, i, x, h);
      } else {
        NothingUnder(g, e, h);
      }
    }
  }

  /** An unknown handle holds nothing. */
  lemma {:induction false} NotAbove(f: Forest, d: Depths, h: Handle, y: Handle)
    requires Ranked(f, d) && h !in f.info && y in f.info
    ensures !Above(f, d, h, y)
    decreases d[y]
  {
    if y in f.parent {
      NotAbove(f, d, h, f.parent[y]);
    }
  }

  lemma NothingUnder(f: Forest, d: Depths, h: Handle)
    requires Ranked(f, d) && h !in f.info
    ensures Inside(f, d, h) == {}
  {
    forall y | y in f.info
      ensures !Above(f, d, h, y)
    {
      NotAbove(f, d, h, y);
    }
  }

  lemma RemoveShrinks(f: Forest, d: Depths, c: Handle, i: nat)
    requires Valid(f, d) && c in f.items && i < |f.items[c]|
    ensures Shrinks(f, d, Removed(f, d, c, i), DepthsUnlinked(f, d, f.items[c][i]))
  {
    var x := f.items[c][i];
    var g, e := Unlinked(f, c, i), DepthsUnlinked(f, d, x);
    UnlinkShrinks(f, d, c, i);
    RemovedLinks(f, d, c, i);
    RemovedBoxes(f, d, c, i);
    hide Removed, Unlinked, DepthsUnlinked, Shrinks;
    SameLinksShrink(g, Removed(f, d, c, i), e);
    ShrinksTwice(f, d, g, e, Removed(f, d, c, i), e);
  }

  lemma RemovedBoxes(f: Forest, d: Depths, c: Handle, i: nat)
    requires c in f.items && i < |f.items[c]|
    ensures Removed(f, d, c, i).items.Keys == f.items.Keys == Unlinked(f, c, i).items.Keys
  {
  }

  /** Putting y where queryAdd allowed x, after some taking out. */
  lemma PutBounded(f: Forest, d: Depths, boxes: map<Handle, Box>, c: Handle, x: Handle, q: Query,
                   g: Forest, e: Depths, i: nat, y: Handle, boxesOnly: bool)
    requires Valid(f, d) && Bounded(f, d, boxesOnly, LimitOf(q, boxesOnly)) && Allowed(f, d, boxes, c, x, q)
    requires Valid(g, e) && Shrinks(f, d, g, e) && CanLink(g, e, c, y) && i <= |g.items[c]|
    requires Units(g, e, y, boxesOnly) <= Units(f, d, x, boxesOnly)
    ensures Bounded(Linked(g, c, i, y), DepthsLinked(g, e, c, y), boxesOnly, LimitOf(q, boxesOnly))
  {
    var n := LimitOf(q, boxesOnly);
    ShrinksBounded(f, d, g, e, boxesOnly, n);
    LimitsMean(f, d, boxes, c, x, q, boxesOnly);
    CanLinkKnown(f, d, g, e, c, y);
    SameBoxes(g, Linked(g, c, i, y), c, i, y);
    forall h | h in g.items && (h in g.parent || h == y)
      ensures Holding(Linked(g, c, i, y), DepthsLinked(g, e, c, y), h, boxesOnly) <= n
    {
      hide Linked, DepthsLinked, Inside, Above, CanLink, Allowed;
      assert h in g.info;
      LinkCounts(g, e, c, i, y, h, boxesOnly);
      if Above(g, e, h, c) {
        HolderBounded(f, d, g, e, c, h, boxesOnly);
      }
    }
  }

  lemma CanLinkKnown(f: Forest, d: Depths, g: Forest, e: Depths, c: Handle, y: Handle)
    requires Valid(f, d) && Shrinks(f, d, g, e) && CanLink(g, e, c, y)
    ensures c in f.items && c in f.info && c in g.info && !Above(g, e, y, c)
  {
  }

  /** A container around c that sits in another one held no more than the one counted for. */
  lemma HolderBounded(f: Forest, d: Depths, g: Forest, e: Depths, c: Handle, h: Handle, boxesOnly: bool)
    requires Valid(f, d) && Shrinks(f, d, g, e) && c in f.info && c in g.info && Above(g, e, h, c) && h in g.parent
    requires h in g.info
    ensures Holding(g, e, h, boxesOnly) <= Holding(f, d, LimitRoot(f, d, c), boxesOnly)
  {
    hide LimitRoot;
    assert h in f.parent && h in f.info;
    assert h != c ==> c in Inside(g, e, h);
    assert h != c ==> c in Inside(f, d, h);
    assert Above(f, d, h, c);
    RootAboveHolders(f, d, c, h);
    InsideHolder(f, d, LimitRoot(f, d, c), h);
    hide Inside;
    assert Inside(g, e, h) <= Inside(f, d, h) <= Inside(f, d, LimitRoot(f, d, c));
    HoldingGrows(f, d, g, e, h, LimitRoot(f, d, c), boxesOnly);
  }

  // ---------- the operations ----------

  lemma AddBounded(f: Forest, d: Depths, boxes: map<Handle, Box>, c: Handle, x: Handle, q: Query,
                   g: Forest, e: Depths, i: nat, y: Handle, boxesOnly: bool)
    requires Valid(f, d) && Bounded(f, d, boxesOnly, LimitOf(q, boxesOnly)) && Allowed(f, d, boxes, c, x, q)
    requires Valid(g, e) && Shrinks(f, d, g, e) && CanLink(g, e, c, y) && i <= |g.items[c]|
    requires Units(g, e, y, boxesOnly) <= Units(f, d, x, boxesOnly)
    ensures Bounded(Added(g, e, c, i, y), DepthsLinked(g, e, c, y), boxesOnly, LimitOf(q, boxesOnly))
  {
    PutBounded(f, d, boxes, c, x, q, g, e, i, y, boxesOnly);
    LinkedAsAdded(g, e, c, i, y);
    hide Bounded, Added, Linked, DepthsLinked, Shrinks, Allowed, Valid, CanLink;
    SameLinksShrink(Linked(g, c, i, y), Added(g, e, c, i, y), DepthsLinked(g, e, c, y));
    ShrinksBounded(Linked(g, c, i, y), DepthsLinked(g, e, c, y), Added(g, e, c, i, y), DepthsLinked(g, e, c, y), boxesOnly, LimitOf(q, boxesOnly));
  }

  lemma LinkedAsAdded(g: Forest, e: Depths, c: Handle, i: nat, y: Handle)
    ensures var f1, f2 := Linked(g, c, i, y), Added(g, e, c, i, y);
            f2.parent == f1.parent && f2.info == f1.info && f2.items == f1.items
  {
  }

  lemma UnitsShrink(f: Forest, d: Depths, g: Forest, e: Depths, x: Handle, boxesOnly: bool)
    requires Shrinks(f, d, g, e)
    ensures Units(g, e, x, boxesOnly) <= Units(f, d, x, boxesOnly)
  {
    HoldingGrows(f, d, g, e, x, x, boxesOnly);
  }

  lemma CreateShrinks(f: Forest, d: Depths, h: Handle, what: Info)
    requires Valid(f, d) && h !in f.info && !IsContainer(f.types, what)
    ensures Shrinks(f, d, Created(f, h, what), d[h := 0])
    ensures Inside(Created(f, h, what), d[h := 0], h) == {} && h !in f.items
  {
    hide Inside, Mirrored, Ranked;
    forall k
      ensures Inside(Created(f, h, what), d[h := 0], k) <= Inside(f, d, k)
    {
      CreateInside(f, d, h, what, k);
    }
    CreateInside(f, d, h, what, h);
  }

  /** A new container is outermost. */
  lemma CreateBounded(f: Forest, d: Depths, h: Handle, what: Info, boxesOnly: bool, n: nat)
    requires Valid(f, d) && h !in f.info && Bounded(f, d, boxesOnly, n)
    ensures Bounded(Created(f, h, what), d[h := 0], boxesOnly, n)
  {
    var g, e := Created(f, h, what), d[h := 0];
    assert h !in f.parent && h !in f.items;
    forall k | k in g.items && k in g.parent
      ensures Holding(g, e, k, boxesOnly) <= n
    {
      CreateInside(f, d, h, what, k);
      assert h !in Inside(f, d, k);
      hide Inside;
      assert BoxSet(g.items, Inside(f, d, k)) == BoxSet(f.items, Inside(f, d, k));
    }
  }

  /** Replacing by an item that holds nothing and counts for no more than what it replaces. */
  lemma BareBounded(f: Forest, d: Depths, c: Handle, i: nat, y: Handle, boxesOnly: bool, n: nat)
    requires Valid(f, d) && c in f.items && i < |f.items[c]| && CanLink(f, d, c, y) && Bare(f, y)
    requires boxesOnly ==> y !in f.items || f.items[c][i] in f.items
    requires Bounded(f, d, boxesOnly, n)
    ensures Bounded(Replaced(f, d, c, i, y), DepthsReplaced(f, d, c, i, y), boxesOnly, n)
  {
    var x := f.items[c][i];
    var g, e := Unlinked(f, c, i), DepthsUnlinked(f, d, x);
    var k, b := Linked(g, c, i, y), DepthsReplaced(f, d, c, i, y);
    UnlinkShrinks(f, d, c, i);
    UnlinkThenLink(f, d, c, i);
    ReplaceCanLink(f, d, c, i, y);
    BareUnits(f, d, g, e, x, y, boxesOnly);
    ReplacedAsLinked(f, d, c, i, y);
    SameBoxes(g, k, c, i, y);
    forall h | h in k.items && h in k.parent
      ensures Holding(k, b, h, boxesOnly) <= n
    {
      hide Linked, Unlinked, DepthsLinked, DepthsUnlinked, Inside, Above, Shrinks, Replaced, Bare;
      BareReplaced(f, d, g, e, c, i, x, y, h, boxesOnly, n);
    }
    hide Linked, Unlinked, DepthsLinked, DepthsUnlinked, Replaced, Bare;
    SameLinksShrink(k, Replaced(f, d, c, i, y), b);
    ShrinksBounded(k, b, Replaced(f, d, c, i, y), b, boxesOnly, n);
  }

  lemma BareReplaced(f: Forest, d: Depths, g: Forest, e: Depths, c: Handle, i: nat, x: Handle, y: Handle, h: Handle, boxesOnly: bool, n: nat)
    requires Valid(g, e) && Shrinks(f, d, g, e) && c in g.items && i <= |g.items[c]|
    requires CanLink(g, e, c, x) && Linked(g, c, i, x) == f && DepthsLinked(g, e, c, x) == d
    requires CanLink(g, e, c, y) && Units(g, e, y, boxesOnly) <= Units(g, e, x, boxesOnly) && y !in f.parent
    requires Bounded(f, d, boxesOnly, n) && h in g.items
    requires h in g.parent || (h == y && Holding(g, e, y, boxesOnly) == 0)
    ensures Holding(Linked(g, c, i, y), DepthsLinked(g, e, c, y), h, boxesOnly) <= n
  {
    assert h in g.info && !Above(g, e, y, c);
    LinkCounts(g, e, c, i, x, h, boxesOnly);
    LinkCounts(g, e, c, i, y, h, boxesOnly);
  }

  lemma BareUnits(f: Forest, d: Depths, g: Forest, e: Depths, x: Handle, y: Handle, boxesOnly: bool)
    requires Valid(f, d) && Shrinks(f, d, g, e) && Bare(f, y)
    requires boxesOnly ==> y !in f.items || x in f.items
    ensures Units(g, e, y, boxesOnly) <= Units(g, e, x, boxesOnly) && Holding(g, e, y, boxesOnly) == 0
  {
    forall h | h in f.info && h != y
      ensures !Above(f, d, y, h)
    {
      BareHoldsNothing(f, d, y, h);
    }
    assert Inside(f, d, y) == {};
    assert Inside(g, e, y) <= {};
    assert BoxSet(g.items, Inside(g, e, y)) == {};
  }

  lemma ReplacedAsLinked(f: Forest, d: Depths, c: Handle, i: nat, y: Handle)
    requires c in f.items && i < |f.items[c]|
    ensures var f1, f2 := Linked(Unlinked(f, c, i), c, i, y), Replaced(f, d, c, i, y);
            f2.parent == f1.parent && f2.info == f1.info && f2.items == f1.items
  {
  }

  lemma ReplaceBounded(f: Forest, d: Depths, boxes: map<Handle, Box>, c: Handle, i: nat, y: Handle, q: Query, boxesOnly: bool)
    requires Valid(f, d) && Bounded(f, d, boxesOnly, LimitOf(q, boxesOnly)) && Allowed(f, d, boxes, c, y, q)
    requires c in f.items && i < |f.items[c]| && CanLink(f, d, c, y)
    ensures Bounded(Replaced(f, d, c, i, y), DepthsReplaced(f, d, c, i, y), boxesOnly, LimitOf(q, boxesOnly))
  {
    var g, e := Unlinked(f, c, i), DepthsUnlinked(f, d, f.items[c][i]);
    UnlinkShrinks(f, d, c, i);
    UnlinkThenLink(f, d, c, i);
    ReplaceCanLink(f, d, c, i, y);
    UnitsShrink(f, d, g, e, y, boxesOnly);
    PutBounded(f, d, boxes, c, y, q, g, e, i, y, boxesOnly);
    ReplacedAsLinked(f, d, c, i, y);
    hide Bounded, Unlinked, Linked, DepthsLinked, DepthsUnlinked, Shrinks, Allowed, Valid, CanLink, Replaced;
    SameLinksShrink(Linked(g, c, i, y), Replaced(f, d, c, i, y), DepthsReplaced(f, d, c, i, y));
    ShrinksBounded(Linked(g, c, i, y), DepthsReplaced(f, d, c, i, y), Replaced(f, d, c, i, y), DepthsReplaced(f, d, c, i, y),
                   boxesOnly, LimitOf(q, boxesOnly));
  }

  // ---------- a move ----------

  lemma TakenShrinks(f: Forest, d: Depths, c: Handle, x: Handle, part: nat)
    requires Inv(f, d) && c in f.items && x in f.items[c] && x in f.info
    ensures Shrinks(f, d, Taken(f, d, c, x, part).0, Taken(f, d, c, x, part).1)
  {
    hide Inv, Removed, Updated, Shrinks, DepthsUnlinked, Counted;
    var i := Position(f.items[c], x);
    if Partly(f, x, part) {
      UpdatedFields(f, d, c, i, Counted(f.info[x], part));
      SameLinksShrink(f, Updated(f, d, c, i, Counted(f.info[x], part)), d);
    } else {
      InvMeans(f, d);
      RemoveShrinks(f, d, c, i);
    }
  }

  /** The last step of a move. */
  lemma PutPartBounded(f: Forest, d: Depths, boxes: map<Handle, Box>, c: Handle, x: Handle, q: Query,
                       g: Forest, e: Depths, index: int, capacity: nat, y: Handle, boxesOnly: bool)
    requires Inv(f, d) && Bounded(f, d, boxesOnly, LimitOf(q, boxesOnly)) && Allowed(f, d, boxes, c, x, q)
    requires Inv(g, e) && Shrinks(f, d, g, e) && CanLink(g, e, c, y) && Units(g, e, y, boxesOnly) <= Units(f, d, x, boxesOnly)
    ensures Bounded(Put(g, e, c, index, capacity, y).0, Put(g, e, c, index, capacity, y).1, boxesOnly, LimitOf(q, boxesOnly))
  {
    hide Inv, Shrinks, Bounded, Allowed, CanLink, Added, DepthsLinked;
    if index >= capacity {
      ShrinksBounded(f, d, g, e, boxesOnly, LimitOf(q, boxesOnly));
    } else {
      InvMeans(f, d);
      InvMeans(g, e);
      AddBounded(f, d, boxes, c, x, q, g, e, 0, y, boxesOnly);
    }
  }

  lemma CarriedBounded(f: Forest, d: Depths, boxes: map<Handle, Box>, m: Request, p: Place, part: nat, h: Handle, left: seq<Block>,
                       boxesOnly: bool)
    requires Inv(f, d) && Ready(f, d, boxes, m, p) && Allowed(f, d, boxes, p.c, m.x, Asking(m, p)) && h !in f.info
    requires m.from in f.items && m.x in f.items[m.from] && m.x in f.info && p.c in boxes
    requires Bounded(f, d, boxesOnly, LimitOf(m.q, boxesOnly))
    ensures var (g, e) := Carried(f, d, m, p, part, boxes[p.c].capacity, h, left);
            Bounded(g, e, boxesOnly, LimitOf(m.q, boxesOnly))
  {
    hide Inv, Shrinks, Bounded, Allowed, CanLink, Taken, Joined, Put, Created, Equal, Merged, Grown, Clone, Above, Units, InfoTaken,
         ParentTaken, Without, Partly, Ready;
    var q := Asking(m, p);
    var (f1, d1) := Taken(f, d, m.from, m.x, part);
    ReadyTaken(f, d, boxes, m, p, part);
    TakenShrinks(f, d, m.from, m.x, part);
    if !Stackable(f, m.x) {
      UnitsShrink(f, d, f1, d1, m.x, boxesOnly);
      WholeTaken(f, d, boxes, m, p, part);
      PutPartBounded(f, d, boxes, p.c, m.x, q, f1, d1, p.index, boxes[p.c].capacity, m.x, boxesOnly);
    } else {
      var n := Merged(f, m.x, p.toItem, part, m.q.alike);
      var f2 := if Merges(f, m.x, p.toItem, m.q.alike) then Joined(f1, d1, p.c, p.toItem.value, Grown(f, p.toItem.value, n, left)) else f1;
      JoinedShrinks(f, d, boxes, m, p, part, left);
      ShrinksTwice(f, d, f1, d1, f2, d1);
      if part == n {
        ShrinksBounded(f, d, f2, d1, boxesOnly, LimitOf(q, boxesOnly));
      } else {
        CloneBounded(f, d, boxes, m, p, f2, d1, h, part - n, boxesOnly);
      }
    }
  }

  lemma ReadyTaken(f: Forest, d: Depths, boxes: map<Handle, Box>, m: Request, p: Place, part: nat)
    requires Inv(f, d) && Ready(f, d, boxes, m, p)
    ensures m.x in f.info && p.c in f.items && Inv(Taken(f, d, m.from, m.x, part).0, Taken(f, d, m.from, m.x, part).1)
    ensures p.toItem.Some? ==> p.toItem.value in f.info
  {
    hide Inv, Taken, Above, CanLink;
    TakenKeeps(f, d, m.from, m.x, part, p.c);
    if p.toItem.Some? {
      MeetsItem(f, d, p.c, p.toItem.value);
    }
  }

  lemma WholeTaken(f: Forest, d: Depths, boxes: map<Handle, Box>, m: Request, p: Place, part: nat)
    requires Inv(f, d) && Ready(f, d, boxes, m, p) && !Stackable(f, m.x)
    ensures m.x in f.info && CanLink(Taken(f, d, m.from, m.x, part).0, Taken(f, d, m.from, m.x, part).1, p.c, m.x)
  {
    hide Inv, Taken, Above, CanLink;
    TakenKeeps(f, d, m.from, m.x, part, p.c);
  }

  lemma JoinedShrinks(f: Forest, d: Depths, boxes: map<Handle, Box>, m: Request, p: Place, part: nat, left: seq<Block>)
    requires Inv(f, d) && Ready(f, d, boxes, m, p) && m.x in f.info && (p.toItem.Some? ==> p.toItem.value in f.info)
    ensures var (f1, d1) := Taken(f, d, m.from, m.x, part);
            var n := Merged(f, m.x, p.toItem, part, m.q.alike);
            var f2 := if Merges(f, m.x, p.toItem, m.q.alike) then Joined(f1, d1, p.c, p.toItem.value, Grown(f, p.toItem.value, n, left)) else f1;
            && Inv(f2, d1) && Shrinks(f1, d1, f2, d1) && f2.info.Keys == f.info.Keys && f2.types == f.types
            && f2.items.Keys == f.items.Keys
  {
    hide Inv, Taken, Above, CanLink, Joined, Merged, Grown, Shrinks, Equal, Partly;
    var (f1, d1) := Taken(f, d, m.from, m.x, part);
    TakenKeeps(f, d, m.from, m.x, part, p.c);
    SameLinksShrink(f1, f1, d1);
    if Merges(f, m.x, p.toItem, m.q.alike) {
      var n := Merged(f, m.x, p.toItem, part, m.q.alike);
      TargetStays(f, d, boxes, m, p, part);
      JoinedKeeps(f1, d1, p.c, p.toItem.value, Grown(f, p.toItem.value, n, left));
      SameLinksShrink(f1, Joined(f1, d1, p.c, p.toItem.value, Grown(f, p.toItem.value, n, left)), d1);
    }
  }

  lemma CloneBounded(f: Forest, d: Depths, boxes: map<Handle, Box>, m: Request, p: Place, g: Forest, e: Depths, h: Handle, n: nat,
                     boxesOnly: bool)
    requires Inv(f, d) && Ready(f, d, boxes, m, p) && Allowed(f, d, boxes, p.c, m.x, Asking(m, p)) && m.x in f.info
    requires p.c in boxes && Stackable(f, m.x) && Bounded(f, d, boxesOnly, LimitOf(m.q, boxesOnly))
    requires Inv(g, e) && Shrinks(f, d, g, e) && h !in g.info && g.types == f.types && p.c in g.items
    ensures var (k, b) := Put(Created(g, h, Clone(f, m.x, n)), e[h := 0], p.c, p.index, boxes[p.c].capacity, h);
            Bounded(k, b, boxesOnly, LimitOf(m.q, boxesOnly))
  {
    assert !IsContainer(g.types, Clone(f, m.x, n));
    hide Inv, Shrinks, Bounded, Allowed, CanLink, Put, Created, Ready, Clone, Stackable, IsContainer;
    var what := Clone(f, m.x, n);
    InvMeans(g, e);
    CreateShrinks(g, e, h, what);
    ShrinksTwice(f, d, g, e, Created(g, h, what), e[h := 0]);
    NewItemLinks(g, e, p.c, h, what);
    assert BoxSet(Created(g, h, what).items, {}) == {};
    PutPartBounded(f, d, boxes, p.c, m.x, Asking(m, p), Created(g, h, what), e[h := 0], p.index, boxes[p.c].capacity, h, boxesOnly);
  }

  // ---------- whole runs ----------

  /** The limit is the same for every question, and an item that replaces another one unasked is no
      container in place of something else, if containers are counted. */
  ghost predicate Within(s: Snapshot, op: Op, boxesOnly: bool, n: nat) {
    match op
    case Add(c, i, x, q) => LimitOf(q, boxesOnly) == n
    case Transfer(m, h, left) => LimitOf(m.q, boxesOnly) == n
    case Replace(c, i, y, q) =>
      || (Asked(s, c, y, q) && LimitOf(q, boxesOnly) == n)
      || (Bare(s.f, y) && y != c
          && (boxesOnly && c in s.f.items && i < |s.f.items[c]| ==> y !in s.f.items || s.f.items[c][i] in s.f.items))
    case _ => true
  }

  ghost predicate AllWithin(s: Snapshot, ops: seq<Op>, boxesOnly: bool, n: nat)
    decreases |ops|
  {
    ops == []
    || ((Enabled(s, ops[0]) ==> Within(s, ops[0], boxesOnly, n))
        && AllWithin(if Enabled(s, ops[0]) then Step(s, ops[0]) else s, ops[1..], boxesOnly, n))
  }

  lemma StepBounded(s: Snapshot, op: Op, boxesOnly: bool, n: nat)
    requires Good(s) && Enabled(s, op) && Within(s, op, boxesOnly, n) && Bounded(s.f, s.d, boxesOnly, n)
    ensures Bounded(Step(s, op).f, Step(s, op).d, boxesOnly, n)
  {
    hide Inv, Bounded, Added, Removed, Updated, Replaced, Created, Carried, Planned, DepthsLinked, DepthsUnlinked, DepthsReplaced,
         Allowed, Bare, CanLink, Sendable;
    InvMeans(s.f, s.d);
    match op
    case Create(h, what, box) => CreateBounded(s.f, s.d, h, what, boxesOnly, n);
    case Add(c, i, x, q) =>
      AskedLinks(s, c, x, q);
      SameLinksShrink(s.f, s.f, s.d);
      AddBounded(s.f, s.d, s.boxes, c, x, q, s.f, s.d, i, x, boxesOnly);
    case Transfer(m, h, left) => TransferBounded(s, m, h, left, boxesOnly);
    case Remove(c, i) =>
      RemoveShrinks(s.f, s.d, c, i);
      ShrinksBounded(s.f, s.d, Removed(s.f, s.d, c, i), DepthsUnlinked(s.f, s.d, s.f.items[c][i]), boxesOnly, n);
    case Update(c, i, what) => UpdateBounded(s.f, s.d, c, i, what, boxesOnly, n);
    case Replace(c, i, y, q) => SwapBounded(s, c, i, y, q, boxesOnly, n);
  }

  lemma SwapBounded(s: Snapshot, c: Handle, i: nat, y: Handle, q: Query, boxesOnly: bool, n: nat)
    requires Good(s) && Enabled(s, Replace(c, i, y, q)) && Within(s, Replace(c, i, y, q), boxesOnly, n)
    requires Bounded(s.f, s.d, boxesOnly, n)
    ensures Bounded(Replaced(s.f, s.d, c, i, y), DepthsReplaced(s.f, s.d, c, i, y), boxesOnly, n)
  {
    hide Inv, Bounded, Replaced, DepthsReplaced, Allowed, Bare, CanLink;
    InvMeans(s.f, s.d);
    if Asked(s, c, y, q) && LimitOf(q, boxesOnly) == n {
      AskedLinks(s, c, y, q);
      ReplaceBounded(s.f, s.d, s.boxes, c, i, y, q, boxesOnly);
    } else {
      BareLinks(s, c, y);
      BareBounded(s.f, s.d, c, i, y, boxesOnly, n);
    }
  }

  lemma UpdateBounded(f: Forest, d: Depths, c: Handle, i: nat, what: Info, boxesOnly: bool, n: nat)
    requires Valid(f, d) && c in f.items && i < |f.items[c]| && Bounded(f, d, boxesOnly, n)
    ensures Bounded(Updated(f, d, c, i, what), d, boxesOnly, n)
  {
    hide Updated, Bounded, Shrinks, Mirrored, Ranked;
    UpdatedFields(f, d, c, i, what);
    InList(f, d, c, i);
    SameLinksShrink(f, Updated(f, d, c, i, what), d);
    ShrinksBounded(f, d, Updated(f, d, c, i, what), d, boxesOnly, n);
  }

  lemma TransferBounded(s: Snapshot, m: Request, h: Handle, left: seq<Block>, boxesOnly: bool)
    requires Good(s) && Sendable(s, m) && h !in s.f.info && Bounded(s.f, s.d, boxesOnly, LimitOf(m.q, boxesOnly))
    ensures var t := Step(s, Transfer(m, h, left));
            Bounded(t.f, t.d, boxesOnly, LimitOf(m.q, boxesOnly))
  {
    hide Inv, Planned, Carried, Posed, Ready, Allowed, Settled, Bounded;
    var plan := Planned(s.f, s.d, s.boxes, m);
    PlanReady(s.f, s.d, s.boxes, m, plan.p, plan.part, plan.r);
    CarriedBounded(s.f, s.d, s.boxes, m, plan.p, plan.part, h, left, boxesOnly);
  }

  /** In every state of a run that is guarded by queryAdd, a container that sits in another one holds no
      more items, and no more containers, than the limits say. */
  lemma {:induction false} RunBounded(s: Snapshot, ops: seq<Op>, boxesOnly: bool, n: nat)
    requires Good(s) && Bounded(s.f, s.d, boxesOnly, n) && AllWithin(s, ops, boxesOnly, n)
    ensures Bounded(Run(s, ops).f, Run(s, ops).d, boxesOnly, n)
    decreases |ops|
  {
    hide Good, Enabled, Step, Bounded, Within;
    if ops != [] {
      if Enabled(s, ops[0]) {
        StepKeeps(s, ops[0]);
        StepBounded(s, ops[0], boxesOnly, n);
        RunBounded(Step(s, ops[0]), ops[1..], boxesOnly, n);
      } else {
        RunBounded(s, ops[1..], boxesOnly, n);
      }
    }
  }

  // ---------- an outermost container beyond the limit ----------

  /** A bag with an item, in another bag, and a loose item. */
  function TwoBags(): Forest {
    var bag := ItemType(true, false, 0, true, false, true, false);
    Forest(map[1 := bag, 2 := bag.(container := false)],
           map[0 := Info(1, 1, []), 1 := Info(1, 1, []), 2 := Info(2, 1, []), 3 := Info(2, 1, [])],
           map[1 := 0, 2 := 1], map[0 := [1], 1 := [2]], map[0 := 0, 1 := 0])
  }

  function BagDepths(): Depths {
    map[0 := 0, 1 := 1, 2 := 2, 3 := 0]
  }

  function BagBoxes(): map<Handle, Box> {
    map[0 := Box(true, 20, false, false, false), 1 := Box(true, 8, false, false, false)]
  }

  function LimitedTo(maxItem: nat): Query {
    Query(0, 1, false, false, maxItem, 100, false, None, (a, b) => a == b)
  }

  /** With a limit of 2 items the loose item may go into the inner bag, and then the outer one holds 3. */
  lemma OutermostExceeds()
    ensures Valid(TwoBags(), BagDepths()) && Allowed(TwoBags(), BagDepths(), BagBoxes(), 1, 3, LimitedTo(2))
    ensures CanLink(TwoBags(), BagDepths(), 1, 3)
    ensures Holding(Linked(TwoBags(), 1, 0, 3), DepthsLinked(TwoBags(), BagDepths(), 1, 3), 0, false) == 3
  {
    var f, d := TwoBags(), BagDepths();
    BagsValid();
    BagsHold();
    BagsAllowed();
    LinkCounts(f, d, 1, 0, 3, 0, false);
    NothingInside(f, d, 3);
  }

  lemma BagsValid()
    ensures Valid(TwoBags(), BagDepths())
  {
    hide Domains, Ranked, Mirrored;
    BagsRanked();
    BagsMirrored();
  }

  lemma BagsRanked()
    ensures Domains(TwoBags()) && Ranked(TwoBags(), BagDepths())
  {
  }

  lemma BagsMirrored()
    ensures Mirrored(TwoBags())
  {
  }

  lemma BagsHold()
    ensures Holding(TwoBags(), BagDepths(), 0, false) == 2 && Holding(TwoBags(), BagDepths(), 1, false) == 1
    ensures Above(TwoBags(), BagDepths(), 0, 1) && CanLink(TwoBags(), BagDepths(), 1, 3)
  {
    assert Inside(TwoBags(), BagDepths(), 1) == {2};
    assert Inside(TwoBags(), BagDepths(), 0) == {1, 2};
  }

  lemma BagsAllowed()
    ensures Allowed(TwoBags(), BagDepths(), BagBoxes(), 1, 3, LimitedTo(2))
  {
    BagsHold();
    hide Holding;
    assert LimitRoot(TwoBags(), BagDepths(), 1) == 1;
    assert Walk(TwoBags(), BagDepths(), BagBoxes(), 3, false, 1) == None;
  }
}
