/** The uses of the container walk: counting and searching, and the order it shares with saveItems. */
module ContainerCounts {
  import opened Bytes
  import opened ItemForest
  import opened ItemMoves
  import opened ItemAttributes
  import opened ItemTrees
  import opened ItemStore
  import opened PlayerRows
  import opened ContainerIteration

  // ---------- one order for the walk and the rows ----------

  function ListsSize(lists: seq<seq<Item>>): nat {
    if lists == [] then 0 else 1 + SizeAll(lists[0]) + ListsSize(lists[1..])
  }

  /** The contents of the nonempty containers of a list. */
  function KidLists(ts: seq<Item>): seq<seq<Item>> {
    if ts == [] then []
    else (if ts[0].contents != [] then [ts[0].contents] else []) + KidLists(ts[1..])
  }

  function Infos(ts: seq<Item>): (r: seq<Info>)
    ensures |r| == |ts|
  {
    seq(|ts|, k requires 0 <= k < |ts| => ts[k].info)
  }

  lemma {:induction false} KidListsSize(ts: seq<Item>)
    ensures ListsSize(KidLists(ts)) <= SizeAll(ts)
    decreases |ts|
  {
    if ts != [] {
      KidListsSize(ts[1..]);
      var more := KidLists(ts[1..]);
      if ts[0].contents != [] {
        assert ([ts[0].contents] + more)[1..] == more;
      } else {
        assert [] + more == more;
      }
    }
  }

  lemma {:induction false} ListsAppend(a: seq<seq<Item>>, b: seq<seq<Item>>)
    ensures ListsSize(a + b) == ListsSize(a) + ListsSize(b)
    decreases |a|
  {
    if a == [] {
      assert a + b == b;
    } else {
      assert (a + b)[0] == a[0] && (a + b)[1..] == a[1..] + b;
      ListsAppend(a[1..], b);
    }
  }

  /** Breadth first over lists of trees. */
  function BreadthFirst(lists: seq<seq<Item>>): seq<Info>
    decreases ListsSize(lists)
  {
    if lists == [] then []
    else
      ListsAppend(lists[1..], KidLists(lists[0]));
      KidListsSize(lists[0]);
      Infos(lists[0]) + BreadthFirst(lists[1..] + KidLists(lists[0]))
  }

  function Contents(queue: seq<Pending>): (r: seq<seq<Item>>)
    ensures |r| == |queue|
  {
    seq(|queue|, k requires 0 <= k < |queue| => queue[k].contents)
  }

  lemma {:induction false} KidsAreLists(hs: seq<Handle>, ts: seq<Item>)
    requires |hs| == |ts|
    ensures Contents(Kids(hs, ts)) == KidLists(ts)
    decreases |ts|
  {
    if ts != [] {
      KidsAreLists(hs[1..], ts[1..]);
      var more := Kids(hs[1..], ts[1..]);
      if ts[0].contents != [] {
        assert Contents([Pending(ts[0].contents, hs[0])] + more) == [ts[0].contents] + Contents(more);
      } else {
        assert Kids(hs, ts) == more && KidLists(ts) == KidLists(ts[1..]);
      }
    }
  }

  ghost predicate Shows(f: Forest, hs: seq<Handle>, infos: seq<Info>) {
    |hs| == |infos| && forall k :: 0 <= k < |hs| ==> hs[k] in f.info && f.info[hs[k]] == infos[k]
  }

  lemma ListShows(f: Forest, hs: seq<Handle>, ts: seq<Item>)
    requires AreTrees(f, hs, ts)
    ensures Shows(f, hs, Infos(ts))
  {
  }

  /** The walk is breadth first. */
  lemma {:induction false} VisitOrder(f: Forest, queue: seq<Pending>)
    requires AllStand(f, queue)
    ensures Shows(f, Visit(f, queue), BreadthFirst(Contents(queue)))
    decreases QueueSize(queue)
  {
    hide AreTrees, Kids, KidLists, QueueSize, Infos;
    if queue != [] {
      var q := queue[0];
      assert Stands(f, q);
      KidsStand(f, q);
      var kids := Kids(f.items[q.sid], q.contents);
      ShorterKids(queue, f.items[q.sid]);
      VisitOrder(f, queue[1..] + kids);
      KidsAreLists(f.items[q.sid], q.contents);
      assert Contents(queue[1..] + kids) == Contents(queue)[1..] + Contents(kids);
      ListShows(f, f.items[q.sid], q.contents);
    }
  }

  function NonEmpty(queue: seq<Pending>): seq<seq<Item>> {
    if queue == [] then [] else (if queue[0].contents == [] then [] else [queue[0].contents]) + NonEmpty(queue[1..])
  }

  lemma {:induction false} NonEmptyAppend(a: seq<Pending>, b: seq<Pending>)
    ensures NonEmpty(a + b) == NonEmpty(a) + NonEmpty(b)
    decreases |a|
  {
    if a == [] {
      assert a + b == b;
    } else {
      assert (a + b)[0] == a[0] && (a + b)[1..] == a[1..] + b;
      NonEmptyAppend(a[1..], b);
    }
  }

  /** Only items of container types hold something, all the way down. */
  predicate Boxed(types: ItemTypes, ts: seq<Item>)
    decreases ts
  {
    forall k :: 0 <= k < |ts| ==>
      (ts[k].contents != [] ==> IsContainer(types, ts[k].info)) && Boxed(types, ts[k].contents)
  }

  predicate AllBoxed(types: ItemTypes, queue: seq<Pending>) {
    forall k :: 0 <= k < |queue| ==> Boxed(types, queue[k].contents)
  }

  lemma BoxedTail(types: ItemTypes, ts: seq<Item>)
    requires Boxed(types, ts) && ts != []
    ensures Boxed(types, ts[1..]) && Boxed(types, ts[0].contents)
    ensures ts[0].contents != [] ==> IsContainer(types, ts[0].info)
  {
    var tail := ts[1..];
    forall k | 0 <= k < |tail|
      ensures (tail[k].contents != [] ==> IsContainer(types, tail[k].info)) && Boxed(types, tail[k].contents)
    {
      assert tail[k] == ts[k + 1];
    }
  }

  lemma {:induction false} ChildQueueLists(types: ItemTypes, ts: seq<Item>, next: nat)
    requires Boxed(types, ts)
    ensures AllBoxed(types, ChildQueue(types, ts, next))
    ensures NonEmpty(ChildQueue(types, ts, next)) == KidLists(ts)
    decreases |ts|
  {
    if ts != [] {
      BoxedTail(types, ts);
      ChildQueueLists(types, ts[1..], next + 1);
      var more := ChildQueue(types, ts[1..], next + 1);
      if IsContainer(types, ts[0].info) {
        assert ([Pending(ts[0].contents, next + 1)] + more)[1..] == more;
      } else {
        assert ChildQueue(types, ts, next) == more;
      }
    }
  }

  /** The row shows the item. */
  predicate RowShows(row: Row, info: Info) {
    row == RowOf(row.pid, row.sid, info)
  }

  ghost predicate RowsShow(rows: seq<Row>, infos: seq<Info>) {
    |rows| == |infos| && forall k :: 0 <= k < |rows| ==> RowShows(rows[k], infos[k])
  }

  lemma {:induction false} ChildRowsShow(ts: seq<Item>, pid: int, next: nat)
    ensures RowsShow(ChildRows(ts, pid, next), Infos(ts))
  {
    ChildRowsLength(ts, pid, next);
    forall k | 0 <= k < |ts|
      ensures RowShows(ChildRows(ts, pid, next)[k], Infos(ts)[k])
    {
      ChildRowsAt(ts, pid, next, k);
    }
  }

  /** saveItems writes breadth first as well. */
  lemma {:induction false} EmitOrder(types: ItemTypes, queue: seq<Pending>, next: nat)
    requires AllBoxed(types, queue)
    ensures RowsShow(Emit(types, queue, next), BreadthFirst(NonEmpty(queue)))
    decreases QueueSize(queue)
  {
    hide KidLists, QueueSize, Infos, RowShows, ChildQueue, ChildRows, Boxed;
    if queue != [] {
      var q := queue[0];
      var cq := ChildQueue(types, q.contents, next);
      EmitStep(types, queue, next);
      ChildQueueLists(types, q.contents, next);
      EmitOrder(types, queue[1..] + cq, next + |q.contents|);
      NonEmptyAppend(queue[1..], cq);
      ChildRowsShow(q.contents, q.sid, next);
      HeadOrder(queue);
    }
  }

  lemma HeadOrder(queue: seq<Pending>)
    requires queue != []
    ensures BreadthFirst(NonEmpty(queue))
         == Infos(queue[0].contents) + BreadthFirst(NonEmpty(queue[1..]) + KidLists(queue[0].contents))
  {
    var q := queue[0];
    if q.contents == [] {
      assert NonEmpty(queue) == NonEmpty(queue[1..]);
      assert NonEmpty(queue[1..]) + [] == NonEmpty(queue[1..]);
      assert Infos([]) == [];
    } else {
      assert NonEmpty(queue)[0] == q.contents && NonEmpty(queue)[1..] == NonEmpty(queue[1..]);
    }
  }

  /** Walking a container meets its contents in the order in which saveItems writes the rows below it:
      the n-th object met is the item of the n-th row. */
  lemma WalkMatchesRows(f: Forest, c: Handle, t: Item, sid: nat, next: nat)
    requires c in f.items && IsTree(f, c, t) && Boxed(f.types, t.contents)
    ensures var hs, rows := WalkOf(f, c, t), Emit(f.types, [Pending(t.contents, sid)], next);
            && |hs| == |rows|
            && forall k :: 0 <= k < |hs| ==> hs[k] in f.info && RowShows(rows[k], f.info[hs[k]])
  {
    hide Visit, Emit, BreadthFirst, RowShows, IsTree;
    WalkQueue(f, c, t);
    var queue := if t.contents == [] then [] else [Pending(t.contents, c)];
    VisitOrder(f, queue);
    EmitOrder(f.types, [Pending(t.contents, sid)], next);
    assert NonEmpty([Pending(t.contents, sid)]) == Contents(queue);
  }

  // ---------- level by level ----------

  /** The queue holds containers of one depth followed by containers one deeper. */
  ghost predicate Leveled(d: Depths, queue: seq<Pending>) {
    forall j, k :: 0 <= j <= k < |queue| ==>
      Depth(d, queue[j].sid) <= Depth(d, queue[k].sid) <= Depth(d, queue[0].sid) + 1
  }

  ghost predicate Sorted(d: Depths, hs: seq<Handle>) {
    forall j, k :: 0 <= j < k < |hs| ==> Depth(d, hs[j]) <= Depth(d, hs[k])
  }

  lemma {:induction false} KidsDepth(d: Depths, hs: seq<Handle>, ts: seq<Item>, n: nat)
    requires |hs| == |ts| && forall k :: 0 <= k < |hs| ==> Depth(d, hs[k]) == n
    ensures forall k :: 0 <= k < |Kids(hs, ts)| ==> Depth(d, Kids(hs, ts)[k].sid) == n
    decreases |ts|
  {
    if ts != [] {
      KidsDepth(d, hs[1..], ts[1..], n);
    }
  }

  lemma ListDepth(f: Forest, d: Depths, c: Handle)
    requires Valid(f, d) && c in f.items
    ensures forall k :: 0 <= k < |f.items[c]| ==> Depth(d, f.items[c][k]) == Depth(d, c) + 1
  {
    assert Holds(f, c, f.items[c]);
  }

  /** The walk goes level by level: depths never decrease along it. */
  lemma {:induction false} VisitLevels(f: Forest, d: Depths, queue: seq<Pending>)
    requires Valid(f, d) && AllStand(f, queue) && Leveled(d, queue)
    ensures Sorted(d, Visit(f, queue))
    ensures forall k :: 0 <= k < |Visit(f, queue)| ==> queue != [] && Depth(d, Visit(f, queue)[k]) > Depth(d, queue[0].sid)
    decreases QueueSize(queue)
  {
    hide Valid, AreTrees, Kids, QueueSize, Sorted, Leveled, Depth;
    if queue == [] {
      NothingSorted(d);
    } else {
      var q := queue[0];
      assert Stands(f, q);
      KidsStand(f, q);
      var hs := f.items[q.sid];
      var kids := Kids(hs, q.contents);
      ShorterKids(queue, hs);
      ListDepth(f, d, q.sid);
      KidsDepth(d, hs, q.contents, Depth(d, q.sid) + 1);
      NextLeveled(d, queue, kids);
      VisitLevels(f, d, queue[1..] + kids);
      SortedAppend(d, hs, Visit(f, queue[1..] + kids), Depth(d, q.sid) + 1);
    }
  }

  lemma SortedAppend(d: Depths, hs: seq<Handle>, more: seq<Handle>, n: nat)
    requires forall k :: 0 <= k < |hs| ==> Depth(d, hs[k]) == n
    requires Sorted(d, more) && forall k :: 0 <= k < |more| ==> Depth(d, more[k]) >= n
    ensures Sorted(d, hs + more) && forall k :: 0 <= k < |hs + more| ==> Depth(d, (hs + more)[k]) >= n
  {
  }

  lemma NothingSorted(d: Depths)
    ensures Sorted(d, [])
  {
  }

  lemma NextLeveled(d: Depths, queue: seq<Pending>, kids: seq<Pending>)
    requires queue != [] && Leveled(d, queue)
    requires forall k :: 0 <= k < |kids| ==> Depth(d, kids[k].sid) == Depth(d, queue[0].sid) + 1
    ensures var rest := queue[1..] + kids;
            Leveled(d, rest) && (rest != [] ==> Depth(d, rest[0].sid) >= Depth(d, queue[0].sid))
  {
    var rest := queue[1..] + kids;
    forall k | 0 <= k < |rest|
      ensures rest[k] == if k < |queue| - 1 then queue[k + 1] else kids[k - (|queue| - 1)]
    {
    }
  }

  lemma WalkLevels(f: Forest, d: Depths, c: Handle, t: Item)
    requires Valid(f, d) && c in f.items && IsTree(f, c, t)
    ensures Sorted(d, WalkOf(f, c, t))
  {
    hide Valid, IsTree;
    WalkQueue(f, c, t);
    VisitLevels(f, d, if t.contents == [] then [] else [Pending(t.contents, c)]);
  }

  // ---------- counting and searching ----------

  lemma WalkSize(f: Forest, d: Depths, c: Handle, t: Item)
    requires Valid(f, d) && c in f.items && IsTree(f, c, t)
    ensures |WalkOf(f, c, t)| == |Inside(f, d, c)|
    ensures forall x :: x in WalkOf(f, c, t) <==> x in Inside(f, d, c)
  {
    hide Inside, Valid, IsTree;
    WalkCovers(f, d, c, t);
    var hs, inside := WalkOf(f, c, t), Inside(f, d, c);
    assert |multiset(hs)| == |multiset(inside)|;
    assert forall x :: x in hs <==> x in multiset(hs);
  }

  /** The loop of getItemHoldingCount. */
  method CountItems(store: Store, c: Handle, ghost t: Item) returns (counter: nat)
    requires Valid(store.State(), store.depths) && c in store.items && IsTree(store.State(), c, t)
    ensures counter == |Inside(store.State(), store.depths, c)|
  {
    hide Inside, IsTree, Remaining, ItemForest.Valid, WalkOf, Stands, BoxSet;
    var it := new ContainerIterator(store, c, t);
    ghost var all := WalkOf(store.State(), c, t);
    counter := 0;
    var more := it.HasNext();
    while more
      invariant it.Valid() && it.store == store && fresh(it)
      invariant counter <= |all| && it.Rest() == all[counter..]
      invariant more <==> it.Rest() != []
      decreases |all| - counter
    {
      counter := counter + 1;
      it.Advance();
      more := it.HasNext();
    }
    WalkSize(store.State(), store.depths, c, t);
  }

  lemma InContainer(f: Forest, d: Depths, c: Handle)
    requires Valid(f, d) && c in f.items
    ensures c in f.info
  {
  }

  /** The loop of getContainerHoldingCount. */
  method CountContainers(store: Store, c: Handle, ghost t: Item) returns (counter: nat)
    requires Valid(store.State(), store.depths) && c in store.items && IsTree(store.State(), c, t)
    ensures counter == |BoxSet(store.items, Inside(store.State(), store.depths, c))|
  {
    hide Inside, IsTree, Remaining, ItemForest.Valid, WalkOf, Stands, BoxSet;
    var it := new ContainerIterator(store, c, t);
    ghost var all, i := WalkOf(store.State(), c, t), 0;
    hide Boxes;
    NoBoxes(store.items);
    counter := 0;
    var more := it.HasNext();
    while more
      invariant it.Valid() && it.store == store && fresh(it)
      invariant 0 <= i <= |all| && it.Rest() == all[i..]
      invariant more <==> it.Rest() != []
      invariant counter + Boxes(store.items, all[i..]) == Boxes(store.items, all)
      decreases |all| - i
    {
      var x := it.Current();
      BoxesNext(store.items, all, i);
      if x in store.items {
        counter := counter + 1;
      }
      it.Advance();
      i := i + 1;
      more := it.HasNext();
    }
    WalkCovers(store.State(), store.depths, c, t);
    BoxesOfSet(store.items, all, Inside(store.State(), store.depths, c));
  }

  function Boxes(items: map<Handle, seq<Handle>>, hs: seq<Handle>): nat {
    if hs == [] then 0 else (if hs[0] in items then 1 else 0) + Boxes(items, hs[1..])
  }

  lemma NoBoxes(items: map<Handle, seq<Handle>>)
    ensures Boxes(items, []) == 0
  {
  }

  lemma BoxesNext(items: map<Handle, seq<Handle>>, hs: seq<Handle>, i: nat)
    requires i < |hs|
    ensures Boxes(items, hs[i..]) == (if hs[i] in items then 1 else 0) + Boxes(items, hs[i + 1..])
  {
    assert hs[i..][1..] == hs[i + 1..];
  }

  function BoxSet(items: map<Handle, seq<Handle>>, s: set<Handle>): set<Handle> {
    set x | x in s && x in items
  }

  lemma {:induction false} BoxesOfSet(items: map<Handle, seq<Handle>>, hs: seq<Handle>, s: set<Handle>)
    requires multiset(hs) == multiset(s)
    ensures Boxes(items, hs) == |BoxSet(items, s)|
    decreases |hs|
  {
    if hs == [] {
      assert forall x :: x in s ==> x in multiset(s);
      assert BoxSet(items, s) == {};
    } else {
      var h, s' := hs[0], s - {hs[0]};
      assert hs == [h] + hs[1..];
      assert h in multiset(hs) && h in s;
      assert multiset(s') == multiset(s) - multiset{h};
      BoxesOfSet(items, hs[1..], s');
      OneBoxLess(items, s, h);
    }
  }

  lemma OneBoxLess(items: map<Handle, seq<Handle>>, s: set<Handle>, h: Handle)
    requires h in s
    ensures |BoxSet(items, s)| == |BoxSet(items, s - {h})| + if h in items then 1 else 0
  {
    var a, b := BoxSet(items, s), BoxSet(items, s - {h});
    if h in items {
      assert a == b + {h};
    } else {
      assert a == b;
    }
  }

  /** The loop of isHoldingItem. */
  method Search(store: Store, c: Handle, ghost t: Item, item: Handle) returns (found: bool)
    requires Valid(store.State(), store.depths) && c in store.items && IsTree(store.State(), c, t)
    ensures found <==> item in Inside(store.State(), store.depths, c)
  {
    hide Inside, IsTree, Remaining, ItemForest.Valid, WalkOf, Stands, BoxSet;
    WalkSize(store.State(), store.depths, c, t);
    var it := new ContainerIterator(store, c, t);
    ghost var all, i := WalkOf(store.State(), c, t), 0;
    var more := it.HasNext();
    while more
      invariant it.Valid() && it.store == store && fresh(it)
      invariant 0 <= i <= |all| && it.Rest() == all[i..] && item !in all[..i]
      invariant more <==> it.Rest() != []
      decreases |all| - i
    {
      var x := it.Current();
      if x == item {
        return true;
      }
      it.Advance();
      i := i + 1;
      more := it.HasNext();
    }
    assert all[..i] == all;
    return false;
  }

  /** getItemHoldingCount: the number of objects in the container, at any depth; which is the number of rows
      that saveItems writes for its contents. */
  method GetItemHoldingCount(store: Store, c: Handle) returns (counter: nat)
    requires Valid(store.State(), store.depths) && c in store.items
    ensures counter == |Inside(store.State(), store.depths, c)|
    ensures forall t: Item :: IsTree(store.State(), c, t) && Boxed(store.types, t.contents) ==> counter == |Emit(store.types, [Pending(t.contents, c)], c)|
  {
    InContainer(store.State(), store.depths, c);
    hide Inside, IsTree, WalkOf;
    ghost var t := TreeExists(store.State(), store.depths, c);
    counter := CountItems(store, c, t);
    forall u: Item | IsTree(store.State(), c, u) && Boxed(store.types, u.contents)
      ensures counter == |Emit(store.types, [Pending(u.contents, c)], c)|
    {
      WalkSize(store.State(), store.depths, c, u);
      WalkMatchesRows(store.State(), c, u, c, c);
    }
  }

  /** getContainerHoldingCount: how many of them are containers. */
  method GetContainerHoldingCount(store: Store, c: Handle) returns (counter: nat)
    requires Valid(store.State(), store.depths) && c in store.items
    ensures counter == |BoxSet(store.items, Inside(store.State(), store.depths, c))|
  {
    InContainer(store.State(), store.depths, c);
    ghost var t := TreeExists(store.State(), store.depths, c);
    counter := CountContainers(store, c, t);
  }

  /** isHoldingItem. */
  method IsHoldingItem(store: Store, c: Handle, item: Handle) returns (found: bool)
    requires Valid(store.State(), store.depths) && c in store.items
    ensures found <==> item in Inside(store.State(), store.depths, c)
  {
    InContainer(store.State(), store.depths, c);
    ghost var t := TreeExists(store.State(), store.depths, c);
    found := Search(store, c, t, item);
  }
}
