/** ContainerIterator: a breadth-first walk over everything inside a container, and the counts and
    searches that use it. */
module ContainerIteration {
  import opened Bytes
  import opened ItemForest
  import opened ItemMoves
  import opened ItemTrees
  import opened ItemStore
  import opened PlayerRows

  // ---------- what a container holds, as a tree ----------

  /** h is the tree t: same items in the same order all the way down. */
  ghost predicate IsTree(f: Forest, h: Handle, t: Item)
    decreases t, 1
  {
    && h in f.info && f.info[h] == t.info
    && (h !in f.items ==> t.contents == [])
    && (h in f.items ==> AreTrees(f, f.items[h], t.contents))
  }

  ghost predicate AreTrees(f: Forest, hs: seq<Handle>, ts: seq<Item>)
    decreases ts, 0
  {
    |hs| == |ts| && forall k :: 0 <= k < |ts| ==> IsTree(f, hs[k], ts[k])
  }

  /** In a valid forest everything is the object of some tree. */
  lemma TreeExists(f: Forest, d: Depths, h: Handle) returns (t: Item)
    requires Valid(f, d) && h in f.info
    ensures IsTree(f, h, t)
    decreases |Inside(f, d, h)|, 2, 0
  {
    hide Valid, Inside;
    if h in f.items {
      var ts := TreesExist(f, d, h, 0);
      assert f.items[h][0..] == f.items[h];
      t := Item(f.info[h], ts);
    } else {
      t := Item(f.info[h], []);
    }
  }

  lemma TreesExist(f: Forest, d: Depths, c: Handle, i: nat) returns (ts: seq<Item>)
    requires Valid(f, d) && c in f.items && i <= |f.items[c]|
    ensures AreTrees(f, f.items[c][i..], ts)
    decreases |Inside(f, d, c)|, 1, |f.items[c]| - i
  {
    hide Valid, Inside, IsTree;
    ts := [];
    if i < |f.items[c]| {
      var x := f.items[c][i];
      ChildInside(f, d, c, i);
      var t := TreeExists(f, d, x);
      var rest := TreesExist(f, d, c, i + 1);
      ts := [t] + rest;
      assert f.items[c][i..] == [x] + f.items[c][i + 1..];
    }
  }

  /** There is less inside a child than inside its container. */
  lemma ChildInside(f: Forest, d: Depths, c: Handle, i: nat)
    requires Valid(f, d) && c in f.items && i < |f.items[c]|
    ensures f.items[c][i] in f.info && |Inside(f, d, f.items[c][i])| < |Inside(f, d, c)|
  {
    var x := f.items[c][i];
    assert Holds(f, c, f.items[c]);
    assert Above(f, d, c, x);
    forall y | y in Inside(f, d, x)
      ensures y in Inside(f, d, c)
    {
      AboveTransitive(f, d, c, x, y);
      AboveIsShallower(f, d, x, y);
    }
    Smaller(Inside(f, d, x), Inside(f, d, c), x);
  }

  lemma Smaller(s: set<Handle>, t: set<Handle>, x: Handle)
    requires s <= t && x in t && x !in s
    ensures |s| < |t|
  {
    SizeOfPart(s, t - {x});
  }

  lemma {:induction false} SizeOfPart(s: set<Handle>, t: set<Handle>)
    requires s <= t
    ensures |s| <= |t|
    decreases |t|
  {
    if s != {} {
      var x :| x in s;
      SizeOfPart(s - {x}, t - {x});
    }
  }

  // ---------- the order of the walk ----------

  /** The nonempty containers among the objects hs, which stand for the trees ts. */
  function Kids(hs: seq<Handle>, ts: seq<Item>): seq<Pending>
    requires |hs| == |ts|
  {
    if ts == [] then []
    else (if ts[0].contents != [] then [Pending(ts[0].contents, hs[0])] else []) + Kids(hs[1..], ts[1..])
  }

  /** The object q.sid holds q.contents. */
  ghost predicate Stands(f: Forest, q: Pending) {
    && q.sid in f.items && q.sid in f.info && q.contents != []
    && AreTrees(f, f.items[q.sid], q.contents)
  }

  ghost predicate AllStand(f: Forest, queue: seq<Pending>) {
    forall k :: 0 <= k < |queue| ==> Stands(f, queue[k])
  }

  /** Everything inside the queued containers, each list in turn, deeper lists at the end. */
  ghost function Visit(f: Forest, queue: seq<Pending>): seq<Handle>
    requires AllStand(f, queue)
    decreases QueueSize(queue)
  {
    if queue == [] then []
    else
      assert Stands(f, queue[0]);
      KidsStand(f, queue[0]);
      ShorterKids(queue, f.items[queue[0].sid]);
      f.items[queue[0].sid] + Visit(f, queue[1..] + Kids(f.items[queue[0].sid], queue[0].contents))
  }

  lemma {:induction false} KidsOfList(f: Forest, hs: seq<Handle>, ts: seq<Item>)
    requires AreTrees(f, hs, ts)
    ensures AllStand(f, Kids(hs, ts))
    decreases |ts|
  {
    if ts != [] {
      assert IsTree(f, hs[0], ts[0]);
      var hs', ts' := hs[1..], ts[1..];
      forall k | 0 <= k < |ts'|
        ensures IsTree(f, hs'[k], ts'[k])
      {
        assert hs'[k] == hs[k + 1] && ts'[k] == ts[k + 1];
      }
      KidsOfList(f, hs', ts');
    }
  }

  lemma KidsStand(f: Forest, q: Pending)
    requires Stands(f, q)
    ensures |f.items[q.sid]| == |q.contents| && AllStand(f, Kids(f.items[q.sid], q.contents))
  {
    KidsOfList(f, f.items[q.sid], q.contents);
  }

  lemma {:induction false} KidsSize(hs: seq<Handle>, ts: seq<Item>)
    requires |hs| == |ts|
    ensures QueueSize(Kids(hs, ts)) <= SizeAll(ts)
    decreases |ts|
  {
    if ts != [] {
      KidsSize(hs[1..], ts[1..]);
      var more := Kids(hs[1..], ts[1..]);
      if ts[0].contents != [] {
        assert ([Pending(ts[0].contents, hs[0])] + more)[1..] == more;
      } else {
        assert [] + more == more;
      }
    }
  }

  lemma ShorterKids(queue: seq<Pending>, hs: seq<Handle>)
    requires queue != [] && |hs| == |queue[0].contents|
    ensures QueueSize(queue[1..] + Kids(hs, queue[0].contents)) < QueueSize(queue)
  {
    QueueAppend(queue[1..], Kids(hs, queue[0].contents));
    KidsSize(hs, queue[0].contents);
  }

  // ---------- the iterator ----------

  /** What is still to come when `cur` items of the front container have been passed. */
  ghost function Remaining(f: Forest, queue: seq<Pending>, cur: nat): seq<Handle>
    requires AllStand(f, queue) && (queue != [] ==> cur <= |queue[0].contents|)
  {
    if queue == [] then []
    else
      assert Stands(f, queue[0]);
      var hs, ts := f.items[queue[0].sid][cur..], queue[0].contents[cur..];
      LaterKidsStand(f, queue[0], cur);
      hs + Visit(f, queue[1..] + Kids(hs, ts))
  }

  lemma LaterKidsStand(f: Forest, q: Pending, cur: nat)
    requires Stands(f, q) && cur <= |q.contents|
    ensures |f.items[q.sid]| == |q.contents|
    ensures AllStand(f, Kids(f.items[q.sid][cur..], q.contents[cur..]))
  {
    hide IsTree;
    var hs, ts := f.items[q.sid][cur..], q.contents[cur..];
    forall k | 0 <= k < |ts|
      ensures IsTree(f, hs[k], ts[k])
    {
      assert hs[k] == f.items[q.sid][cur + k] && ts[k] == q.contents[cur + k];
    }
    KidsOfList(f, hs, ts);
  }

  class ContainerIterator {
    const store: Store
    /** The containers being walked or still to be walked. */
    var over: seq<Handle>
    /** The position in the first of them. */
    var cur: nat
    /** The trees they stand for. */
    ghost var queue: seq<Pending>

    ghost predicate Valid()
      reads this, store
    {
      && |over| == |queue| && (forall k :: 0 <= k < |queue| ==> over[k] == queue[k].sid)
      && AllStand(store.State(), queue)
      && (queue != [] ==> cur < |queue[0].contents|)
    }

    ghost function Rest(): seq<Handle>
      requires Valid()
      reads this, store
    {
      Remaining(store.State(), queue, cur)
    }

    /** Container::iterator. */
    constructor (store: Store, c: Handle, ghost t: Item)
      requires c in store.items && IsTree(store.State(), c, t)
      ensures Valid() && this.store == store
      ensures Rest() == WalkOf(store.State(), c, t)
    {
      this.store := store;
      over, cur, queue := [], 0, [];
      if store.items[c] != [] {
        over, queue := [c], [Pending(t.contents, c)];
      }
      new;
      WalkStarts(store.State(), c, t);
    }

    method HasNext() returns (more: bool)
      requires Valid()
      ensures more <==> Rest() != []
    {
      more := over != [];
      if more {
        RemainingStep(store.State(), queue, cur);
      }
    }

    method Current() returns (x: Handle)
      requires Valid() && Rest() != []
      ensures x == Rest()[0]
    {
      RemainingStep(store.State(), queue, cur);
      x := store.items[over[0]][cur];
    }

    /** The fields agree, the position possibly at the end of the first container. */
    ghost predicate Aligned()
      reads this, store
    {
      && |over| == |queue| && (forall k :: 0 <= k < |queue| ==> over[k] == queue[k].sid)
      && AllStand(store.State(), queue)
      && queue != [] && cur <= |queue[0].contents|
    }

    /** The current item is passed; its own contents are queued. */
    method Pass()
      requires Valid() && queue != []
      modifies this
      ensures Aligned() && Remaining(store.State(), queue, cur) == old(Rest())[1..]
    {
      hide IsTree, Kids, Visit, Remaining, Stands;
      ghost var f := store.State();
      RemainingStep(f, queue, cur);
      var x := store.items[over[0]][cur];
      ghost var t := queue[0].contents[cur];
      if x in store.items && store.items[x] != [] {
        over := over + [x];
        queue := queue + [Pending(t.contents, x)];
      }
      cur := cur + 1;
    }

    /** The first container is done with. */
    method Turn()
      requires Aligned() && cur == |queue[0].contents|
      modifies this
      ensures Valid() && Rest() == old(Remaining(store.State(), queue, cur))
    {
      hide IsTree, Remaining, Stands;
      RemainingTurns(store.State(), queue);
      over, queue, cur := over[1..], queue[1..], 0;
    }

    /** ContainerIterator::advance. */
    method Advance()
      requires Valid() && Rest() != []
      modifies this
      ensures Valid() && Rest() == old(Rest())[1..]
    {
      NothingRemains(store.State());
      hide Remaining, AllStand;
      Pass();
      FirstStands(store.State(), queue);
      if cur == |store.items[over[0]]| {
        Turn();
      }
    }
  }

  lemma FirstStands(f: Forest, queue: seq<Pending>)
    requires AllStand(f, queue) && queue != []
    ensures queue[0].sid in f.items && |f.items[queue[0].sid]| == |queue[0].contents|
  {
    hide IsTree;
    assert Stands(f, queue[0]);
    StandsAligned(f, queue[0]);
  }

  lemma StandsAligned(f: Forest, q: Pending)
    requires Stands(f, q)
    ensures q.sid in f.items && |f.items[q.sid]| == |q.contents|
  {
  }

  /** The whole walk over the contents of c, which stands for the tree t. */
  ghost function WalkOf(f: Forest, c: Handle, t: Item): seq<Handle>
    requires c in f.items && IsTree(f, c, t)
  {
    WalkQueue(f, c, t);
    Visit(f, if t.contents == [] then [] else [Pending(t.contents, c)])
  }

  lemma WalkQueue(f: Forest, c: Handle, t: Item)
    requires c in f.items && IsTree(f, c, t)
    ensures AllStand(f, if t.contents == [] then [] else [Pending(t.contents, c)])
  {
  }

  lemma WalkStarts(f: Forest, c: Handle, t: Item)
    requires c in f.items && IsTree(f, c, t)
    ensures |f.items[c]| == |t.contents|
    ensures AllStand(f, if t.contents == [] then [] else [Pending(t.contents, c)])
    ensures Remaining(f, if t.contents == [] then [] else [Pending(t.contents, c)], 0) == WalkOf(f, c, t)
  {
    assert f.items[c][0..] == f.items[c] && t.contents[0..] == t.contents;
  }

  /** The first item to come is the current one, and its contents come after what is already queued. */
  lemma RemainingStep(f: Forest, queue: seq<Pending>, cur: nat)
    requires AllStand(f, queue) && queue != [] && cur < |queue[0].contents|
    ensures var q := queue[0];
            && q.sid in f.items && |f.items[q.sid]| == |q.contents|
            && var x, t := f.items[q.sid][cur], q.contents[cur];
               var queue' := if x in f.items && f.items[x] != [] then queue + [Pending(t.contents, x)] else queue;
               && AllStand(f, queue') && queue'[0] == q
               && Remaining(f, queue, cur) == [x] + Remaining(f, queue', cur + 1)
  {
    hide Visit, Kids, AreTrees, IsTree, Remaining;
    var q := queue[0];
    assert Stands(f, q);
    StandsAt(f, q, cur);
    var x, t := f.items[q.sid][cur], q.contents[cur];
    var hs, ts := f.items[q.sid][cur..], q.contents[cur..];
    assert hs == [x] + hs[1..] && ts[0] == t && hs[1..] == f.items[q.sid][cur + 1..] && ts[1..] == q.contents[cur + 1..];
    KidsStep(f, hs, ts);
    var kid, more := KidOf(f, x, t), Kids(hs[1..], ts[1..]);
    assert queue[1..] + (kid + more) == (queue + kid)[1..] + more;
    assert queue + [] == queue;
    RemainingIs(f, queue, cur);
    RemainingIs(f, queue + kid, cur + 1);
  }

  lemma RemainingIs(f: Forest, queue: seq<Pending>, cur: nat)
    requires AllStand(f, queue) && queue != [] && cur <= |queue[0].contents|
    ensures var q := queue[0];
            && q.sid in f.items && |f.items[q.sid]| == |q.contents|
            && var next := queue[1..] + Kids(f.items[q.sid][cur..], q.contents[cur..]);
               AllStand(f, next) && Remaining(f, queue, cur) == f.items[q.sid][cur..] + Visit(f, next)
  {
    hide Visit, Kids, IsTree;
    assert Stands(f, queue[0]);
    LaterKidsStand(f, queue[0], cur);
  }

  /** The queue entry that passing x adds, if any. */
  ghost function KidOf(f: Forest, x: Handle, t: Item): seq<Pending> {
    if x in f.items && f.items[x] != [] then [Pending(t.contents, x)] else []
  }

  lemma StandsAt(f: Forest, q: Pending, cur: nat)
    requires Stands(f, q) && cur < |q.contents|
    ensures |f.items[q.sid]| == |q.contents| && IsTree(f, f.items[q.sid][cur], q.contents[cur])
    ensures AllStand(f, KidOf(f, f.items[q.sid][cur], q.contents[cur]))
  {
    var x, t := f.items[q.sid][cur], q.contents[cur];
    assert AreTrees(f, f.items[q.sid], q.contents);
    assert IsTree(f, x, t);
    if x in f.items && f.items[x] != [] {
      assert AreTrees(f, f.items[x], t.contents);
      assert |f.items[x]| == |t.contents|;
      assert Stands(f, Pending(t.contents, x));
    }
  }

  lemma KidsStep(f: Forest, hs: seq<Handle>, ts: seq<Item>)
    requires |hs| == |ts| && hs != [] && IsTree(f, hs[0], ts[0])
    ensures Kids(hs, ts) == KidOf(f, hs[0], ts[0]) + Kids(hs[1..], ts[1..])
  {
  }

  /** At the end of a list the next queued container takes over. */
  lemma NothingRemains(f: Forest)
    ensures forall cur: nat :: Remaining(f, [], cur) == []
  {
  }

  lemma RemainingTurns(f: Forest, queue: seq<Pending>)
    requires AllStand(f, queue) && queue != []
    ensures AllStand(f, queue[1..]) && (|queue| > 1 ==> queue[1].contents != [])
    ensures Remaining(f, queue, |queue[0].contents|) == Remaining(f, queue[1..], 0)
  {
    hide IsTree;
    var q := queue[0];
    assert Stands(f, q);
    assert f.items[q.sid][|q.contents|..] == [] && q.contents[|q.contents|..] == [];
    assert queue[1..] + [] == queue[1..];
    if |queue| > 1 {
      var r := queue[1..][0];
      assert Stands(f, r);
      assert f.items[r.sid][0..] == f.items[r.sid] && r.contents[0..] == r.contents;
    }
  }

  // ---------- what the walk covers ----------

  /** Everything inside the queued containers, with multiplicity. */
  ghost function InsideAll(f: Forest, d: Depths, queue: seq<Pending>): multiset<Handle> {
    if queue == [] then multiset{} else multiset(Inside(f, d, queue[0].sid)) + InsideAll(f, d, queue[1..])
  }

  /** The objects of a list with everything inside them, with multiplicity. */
  ghost function SubtreeAll(f: Forest, d: Depths, hs: seq<Handle>): multiset<Handle> {
    if hs == [] then multiset{} else multiset(Subtree(f, d, hs[0])) + SubtreeAll(f, d, hs[1..])
  }

  lemma {:induction false} InsideAllAppend(f: Forest, d: Depths, a: seq<Pending>, b: seq<Pending>)
    ensures InsideAll(f, d, a + b) == InsideAll(f, d, a) + InsideAll(f, d, b)
    decreases |a|
  {
    if a == [] {
      assert a + b == b;
    } else {
      assert (a + b)[0] == a[0] && (a + b)[1..] == a[1..] + b;
      InsideAllAppend(f, d, a[1..], b);
    }
  }

  /** y lies in exactly one subtree of a list, the one of the listed object that holds it. */
  ghost predicate Under(f: Forest, d: Depths, hs: seq<Handle>, y: Handle) {
    exists k :: 0 <= k < |hs| && Above(f, d, hs[k], y)
  }

  /** Objects of one list have disjoint subtrees. */
  lemma SiblingsDisjoint(f: Forest, d: Depths, a: Handle, b: Handle, y: Handle)
    requires Valid(f, d) && a in f.parent && b in f.parent && f.parent[a] == f.parent[b] && a != b
    requires y in f.info
    ensures !(Above(f, d, a, y) && Above(f, d, b, y))
  {
    if Above(f, d, a, y) && Above(f, d, b, y) {
      AboveLinear(f, d, a, b, y);
      if Above(f, d, a, b) {
        AboveIsShallower(f, d, a, b);
      } else {
        AboveIsShallower(f, d, b, a);
      }
    }
  }

  lemma {:induction false} SubtreeAllIs(f: Forest, d: Depths, c: Handle, hs: seq<Handle>)
    requires Valid(f, d) && Holds(f, c, hs)
    ensures SubtreeAll(f, d, hs) == multiset(set y | y in f.info && Under(f, d, hs, y))
    decreases |hs|
  {
    hide Valid;
    var all := set y | y in f.info && Under(f, d, hs, y);
    if hs == [] {
      assert all == {};
    } else {
      var tail := hs[1..];
      HoldsTail(f, c, hs);
      SubtreeAllIs(f, d, c, tail);
      var later := set y | y in f.info && Under(f, d, tail, y);
      HeadApart(f, d, c, hs);
      assert all == Subtree(f, d, hs[0]) + later;
      DisjointSum(Subtree(f, d, hs[0]), later);
    }
  }

  lemma DisjointSum(s: set<Handle>, t: set<Handle>)
    requires s !! t
    ensures multiset(s + t) == multiset(s) + multiset(t)
  {
  }

  lemma HoldsTail(f: Forest, c: Handle, hs: seq<Handle>)
    requires hs != [] && Holds(f, c, hs)
    ensures Holds(f, c, hs[1..])
  {
  }

  lemma HeadApart(f: Forest, d: Depths, c: Handle, hs: seq<Handle>)
    requires Valid(f, d) && hs != [] && Holds(f, c, hs)
    ensures forall y :: y in f.info ==>
              (y in Subtree(f, d, hs[0]) <==> Above(f, d, hs[0], y))
              && (Under(f, d, hs, y) <==> Above(f, d, hs[0], y) || Under(f, d, hs[1..], y))
              && !(Above(f, d, hs[0], y) && Under(f, d, hs[1..], y))
    ensures hs[0] in f.info
  {
    hide Ranked, Mirrored;
    assert hs[0] in f.parent;
    forall y | y in f.info
      ensures (y in Subtree(f, d, hs[0]) <==> Above(f, d, hs[0], y))
      ensures (Under(f, d, hs, y) <==> Above(f, d, hs[0], y) || Under(f, d, hs[1..], y))
      ensures !(Above(f, d, hs[0], y) && Under(f, d, hs[1..], y))
    {
      UnderSplits(f, d, hs, y);
      if Above(f, d, hs[0], y) && Under(f, d, hs[1..], y) {
        var k :| 0 <= k < |hs[1..]| && Above(f, d, hs[1..][k], y);
        assert hs[1..][k] == hs[k + 1];
        SiblingsDisjoint(f, d, hs[0], hs[k + 1], y);
      }
    }
  }

  lemma UnderSplits(f: Forest, d: Depths, hs: seq<Handle>, y: Handle)
    requires hs != []
    ensures Under(f, d, hs, y) <==> Above(f, d, hs[0], y) || Under(f, d, hs[1..], y)
  {
    if Under(f, d, hs, y) {
      var k :| 0 <= k < |hs| && Above(f, d, hs[k], y);
      if k > 0 {
        assert hs[1..][k - 1] == hs[k];
      }
    }
    if Under(f, d, hs[1..], y) {
      var k :| 0 <= k < |hs[1..]| && Above(f, d, hs[1..][k], y);
      assert hs[k + 1] == hs[1..][k];
    }
  }

  /** What is inside a container is its items with what is inside them. */
  lemma InsideIsSubtrees(f: Forest, d: Depths, c: Handle)
    requires Valid(f, d) && c in f.items
    ensures multiset(Inside(f, d, c)) == SubtreeAll(f, d, f.items[c])
  {
    assert Holds(f, c, f.items[c]);
    SubtreeAllIs(f, d, c, f.items[c]);
    forall y | y in f.info
      ensures y in Inside(f, d, c) <==> Under(f, d, f.items[c], y)
    {
      InsideByChild(f, d, c, y);
    }
    assert Inside(f, d, c) == set y | y in f.info && Under(f, d, f.items[c], y);
  }

  lemma {:induction false} InsideByChild(f: Forest, d: Depths, c: Handle, y: Handle)
    requires Valid(f, d) && c in f.items && y in f.info
    ensures y in Inside(f, d, c) <==> Under(f, d, f.items[c], y)
    decreases d[y]
  {
    hide Holds;
    if y in f.parent {
      var p := f.parent[y];
      if p == c {
        var k :| 0 <= k < |f.items[c]| && f.items[c][k] == y;
        assert Above(f, d, f.items[c][k], y);
        assert Above(f, d, c, c) && Above(f, d, c, y);
      } else {
        InsideByChild(f, d, c, p);
        UnderParent(f, d, c, y);
      }
    } else {
      RootUnderNothing(f, d, c, y);
    }
  }

  lemma UnderParent(f: Forest, d: Depths, c: Handle, y: Handle)
    requires Valid(f, d) && c in f.items && y in f.parent && f.parent[y] != c
    ensures Under(f, d, f.items[c], y) <==> Under(f, d, f.items[c], f.parent[y])
    ensures y in Inside(f, d, c) <==> f.parent[y] in Inside(f, d, c)
  {
    assert Holds(f, c, f.items[c]);
    var hs := f.items[c];
    forall k | 0 <= k < |hs|
      ensures Above(f, d, hs[k], y) <==> Above(f, d, hs[k], f.parent[y])
    {
    }
    if y == c && f.parent[y] in Inside(f, d, c) {
      AboveIsShallower(f, d, c, f.parent[y]);
    }
  }

  lemma RootUnderNothing(f: Forest, d: Depths, c: Handle, y: Handle)
    requires Valid(f, d) && c in f.items && y in f.info && y !in f.parent
    ensures !Under(f, d, f.items[c], y) && y !in Inside(f, d, c)
  {
    assert Holds(f, c, f.items[c]);
  }

  /** The subtrees of a list: its objects, and what is inside the nonempty containers among them. */
  lemma {:induction false} SubtreesByKids(f: Forest, d: Depths, hs: seq<Handle>, ts: seq<Item>)
    requires Valid(f, d) && AreTrees(f, hs, ts)
    ensures SubtreeAll(f, d, hs) == multiset(hs) + InsideAll(f, d, Kids(hs, ts))
    decreases |ts|
  {
    hide Valid, Inside, AreTrees, Subtree;
    if hs == [] {
      NoTrees(f, hs, ts);
    } else {
      TreesSplit(f, hs, ts);
      SubtreesByKids(f, d, hs[1..], ts[1..]);
      HeadAndKids(f, d, hs, ts);
      HeadFirst(hs);
      SelfAndInside(f, d, hs[0]);
    }
  }

  lemma HeadFirst(hs: seq<Handle>)
    requires hs != []
    ensures multiset(hs) == multiset{hs[0]} + multiset(hs[1..])
  {
    assert hs == [hs[0]] + hs[1..];
  }

  lemma HeadAndKids(f: Forest, d: Depths, hs: seq<Handle>, ts: seq<Item>)
    requires Valid(f, d) && |hs| == |ts| && hs != [] && IsTree(f, hs[0], ts[0])
    ensures InsideAll(f, d, Kids(hs, ts))
         == multiset(Inside(f, d, hs[0])) + InsideAll(f, d, Kids(hs[1..], ts[1..]))
  {
    hide Valid, Inside, IsTree;
    var more := Kids(hs[1..], ts[1..]);
    if ts[0].contents != [] {
      var kid := Pending(ts[0].contents, hs[0]);
      assert Kids(hs, ts) == [kid] + more;
      assert ([kid] + more)[1..] == more;
    } else {
      assert Kids(hs, ts) == [] + more == more;
      EmptyInside(f, d, hs[0], ts[0]);
    }
  }

  lemma NoTrees(f: Forest, hs: seq<Handle>, ts: seq<Item>)
    requires AreTrees(f, hs, ts) && hs == []
    ensures ts == []
  {
  }

  lemma TreesSplit(f: Forest, hs: seq<Handle>, ts: seq<Item>)
    requires AreTrees(f, hs, ts) && hs != []
    ensures |hs| == |ts| && IsTree(f, hs[0], ts[0]) && AreTrees(f, hs[1..], ts[1..])
  {
    hide IsTree;
    var hs', ts' := hs[1..], ts[1..];
    forall k | 0 <= k < |ts'|
      ensures IsTree(f, hs'[k], ts'[k])
    {
      assert hs'[k] == hs[k + 1] && ts'[k] == ts[k + 1];
    }
  }

  lemma SelfAndInside(f: Forest, d: Depths, h: Handle)
    ensures multiset(Subtree(f, d, h)) == multiset{h} + multiset(Inside(f, d, h))
  {
    DisjointSum({h}, Inside(f, d, h));
    assert multiset({h}) == multiset{h};
  }

  lemma EmptyInside(f: Forest, d: Depths, h: Handle, t: Item)
    requires Valid(f, d) && IsTree(f, h, t) && t.contents == []
    ensures Inside(f, d, h) == {}
  {
    if h in f.items {
      InsideIsSubtrees(f, d, h);
      assert f.items[h] == [];
      assert multiset(Inside(f, d, h)) == multiset{};
      assert forall y :: y in Inside(f, d, h) ==> y in multiset(Inside(f, d, h));
    } else {
      NothingInside(f, d, h);
    }
  }

  /** The walk meets everything inside the queued containers, each object exactly once. */
  lemma {:induction false} VisitCovers(f: Forest, d: Depths, queue: seq<Pending>)
    requires Valid(f, d) && AllStand(f, queue)
    ensures multiset(Visit(f, queue)) == InsideAll(f, d, queue)
    decreases QueueSize(queue)
  {
    hide Valid, Inside, AreTrees, Kids, QueueSize;
    if queue != [] {
      var q := queue[0];
      assert Stands(f, q);
      KidsStand(f, q);
      var kids := Kids(f.items[q.sid], q.contents);
      ShorterKids(queue, f.items[q.sid]);
      VisitCovers(f, d, queue[1..] + kids);
      InsideAllAppend(f, d, queue[1..], kids);
      InsideIsSubtrees(f, d, q.sid);
      SubtreesByKids(f, d, f.items[q.sid], q.contents);
    }
  }

  /** Iterating over a container visits everything in it, at any depth, exactly once. */
  lemma WalkCovers(f: Forest, d: Depths, c: Handle, t: Item)
    requires Valid(f, d) && c in f.items && IsTree(f, c, t)
    ensures multiset(WalkOf(f, c, t)) == multiset(Inside(f, d, c))
  {
    hide Inside, Valid;
    WalkQueue(f, c, t);
    var queue := if t.contents == [] then [] else [Pending(t.contents, c)];
    VisitCovers(f, d, queue);
    if t.contents == [] {
      ContentsEmpty(f, d, c, t);
    } else {
      assert queue[1..] == [];
    }
  }

  lemma ContentsEmpty(f: Forest, d: Depths, c: Handle, t: Item)
    requires Valid(f, d) && IsTree(f, c, t) && t.contents == []
    ensures Inside(f, d, c) == {}
  {
    EmptyInside(f, d, c, t);
  }
}
