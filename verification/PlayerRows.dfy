/** IOLoginData::saveItems: a forest of items flattened breadth-first into database rows. */
module PlayerRows {
  import opened Bytes
  import opened ItemForest
  import opened ItemAttributes
  import opened ItemTrees

  datatype Row = Row(pid: int, sid: nat, id: nat, count: nat, attributes: seq<byte>)

  function RowOf(pid: int, sid: nat, info: Info): Row {
    Row(pid, sid, info.id, info.count, EncodeBlocks(info.attrs))
  }

  /** A container whose items are still to be written, with the sid of its own row. */
  datatype Pending = Pending(contents: seq<Item>, sid: nat)

  function Size(t: Item): nat
    decreases t, 1
  {
    1 + SizeAll(t.contents)
  }

  function SizeAll(ts: seq<Item>): nat
    decreases ts, 0
  {
    if ts == [] then 0 else Size(ts[0]) + SizeAll(ts[1..])
  }

  function QueueSize(queue: seq<Pending>): nat {
    if queue == [] then 0 else 1 + SizeAll(queue[0].contents) + QueueSize(queue[1..])
  }

  /** The rows of one list of items, the first of them with sid next + 1. */
  function ChildRows(ts: seq<Item>, pid: int, next: nat): seq<Row> {
    if ts == [] then [] else [RowOf(pid, next + 1, ts[0].info)] + ChildRows(ts[1..], pid, next + 1)
  }

  /** The containers among them, in order. */
  function ChildQueue(types: ItemTypes, ts: seq<Item>, next: nat): seq<Pending> {
    if ts == [] then []
    else (if IsContainer(types, ts[0].info) then [Pending(ts[0].contents, next + 1)] else [])
         + ChildQueue(types, ts[1..], next + 1)
  }

  /** All rows that the queue still gives rise to: level by level. */
  function Emit(types: ItemTypes, queue: seq<Pending>, next: nat): seq<Row>
    decreases QueueSize(queue)
  {
    if queue == [] then []
    else
      var q := queue[0];
      ShorterQueue(types, queue, next);
      ChildRows(q.contents, q.sid, next) + Emit(types, queue[1..] + ChildQueue(types, q.contents, next), next + |q.contents|)
  }

  lemma {:induction false} QueueAppend(a: seq<Pending>, b: seq<Pending>)
    ensures QueueSize(a + b) == QueueSize(a) + QueueSize(b)
    decreases |a|
  {
    if a == [] {
      assert a + b == b;
    } else {
      assert (a + b)[1..] == a[1..] + b;
      QueueAppend(a[1..], b);
    }
  }

  lemma {:induction false} ChildQueueSize(types: ItemTypes, ts: seq<Item>, next: nat)
    ensures QueueSize(ChildQueue(types, ts, next)) <= SizeAll(ts)
    decreases |ts|
  {
    if ts != [] {
      ChildQueueSize(types, ts[1..], next + 1);
      if IsContainer(types, ts[0].info) {
        var q := Pending(ts[0].contents, next + 1);
        assert ([q] + ChildQueue(types, ts[1..], next + 1))[1..] == ChildQueue(types, ts[1..], next + 1);
      } else {
        assert [] + ChildQueue(types, ts[1..], next + 1) == ChildQueue(types, ts[1..], next + 1);
      }
    }
  }

  lemma ShorterQueue(types: ItemTypes, queue: seq<Pending>, next: nat)
    requires queue != []
    ensures QueueSize(queue[1..] + ChildQueue(types, queue[0].contents, next)) < QueueSize(queue)
  {
    QueueAppend(queue[1..], ChildQueue(types, queue[0].contents, next));
    ChildQueueSize(types, queue[0].contents, next);
  }

  // ---------- the whole table ----------

  /** A root: the slot, depot or inbox number it is stored under, and the item. */
  type Root = (int, Item)

  const FIRST_ID: nat := 100

  function RootRows(roots: seq<Root>, next: nat): seq<Row> {
    if roots == [] then [] else [RowOf(roots[0].0, next + 1, roots[0].1.info)] + RootRows(roots[1..], next + 1)
  }

  function Items(roots: seq<Root>): (ts: seq<Item>)
    ensures |ts| == |roots| && forall k :: 0 <= k < |roots| ==> ts[k] == roots[k].1
  {
    seq(|roots|, k requires 0 <= k < |roots| => roots[k].1)
  }

  function Table(types: ItemTypes, roots: seq<Root>): seq<Row> {
    RootRows(roots, FIRST_ID) + Emit(types, ChildQueue(types, Items(roots), FIRST_ID), FIRST_ID + |roots|)
  }

  // ---------- shape of the table ----------

  lemma {:induction false} ChildRowsAt(ts: seq<Item>, pid: int, next: nat, k: nat)
    requires k < |ts|
    ensures |ChildRows(ts, pid, next)| == |ts| && ChildRows(ts, pid, next)[k] == RowOf(pid, next + 1 + k, ts[k].info)
    decreases |ts|
  {
    hide RowOf;
    if k == 0 {
      ChildRowsLength(ts, pid, next);
    } else {
      ChildRowsAt(ts[1..], pid, next + 1, k - 1);
    }
  }

  lemma {:induction false} ChildRowsLength(ts: seq<Item>, pid: int, next: nat)
    ensures |ChildRows(ts, pid, next)| == |ts|
    decreases |ts|
  {
    if ts != [] {
      ChildRowsLength(ts[1..], pid, next + 1);
    }
  }

  lemma {:induction false} RootRowsAt(roots: seq<Root>, next: nat, k: nat)
    requires k < |roots|
    ensures |RootRows(roots, next)| == |roots| && RootRows(roots, next)[k] == RowOf(roots[k].0, next + 1 + k, roots[k].1.info)
    decreases |roots|
  {
    hide RowOf;
    if k == 0 {
      RootRowsLength(roots, next);
    } else {
      RootRowsAt(roots[1..], next + 1, k - 1);
    }
  }

  lemma {:induction false} RootRowsLength(roots: seq<Root>, next: nat)
    ensures |RootRows(roots, next)| == |roots|
    decreases |roots|
  {
    if roots != [] {
      RootRowsLength(roots[1..], next + 1);
    }
  }

  /** Queue entries are in increasing order of sid, none beyond the last sid given out. */
  ghost predicate Increasing(queue: seq<Pending>, next: nat) {
    && (forall k :: 0 <= k < |queue| ==> queue[k].sid <= next)
    && (forall j, k :: 0 <= j < k < |queue| ==> queue[j].sid < queue[k].sid)
  }

  lemma {:induction false} ChildQueueIncreasing(types: ItemTypes, ts: seq<Item>, next: nat)
    ensures var q := ChildQueue(types, ts, next);
            Increasing(q, next + |ts|) && forall k :: 0 <= k < |q| ==> q[k].sid > next
    decreases |ts|
  {
    if ts != [] {
      ChildQueueIncreasing(types, ts[1..], next + 1);
    }
  }

  lemma NextQueueIncreasing(types: ItemTypes, queue: seq<Pending>, next: nat)
    requires queue != [] && Increasing(queue, next)
    ensures Increasing(queue[1..] + ChildQueue(types, queue[0].contents, next), next + |queue[0].contents|)
    ensures forall k :: 0 <= k < |queue[1..] + ChildQueue(types, queue[0].contents, next)| ==>
              (queue[1..] + ChildQueue(types, queue[0].contents, next))[k].sid > queue[0].sid
  {
    ChildQueueIncreasing(types, queue[0].contents, next);
  }

  /** The rows of a queue carry on the numbering, and each names a parent written before it. */
  lemma {:induction false} EmitGapless(types: ItemTypes, queue: seq<Pending>, next: nat, low: nat, k: nat)
    requires Increasing(queue, next) && k < |Emit(types, queue, next)| && low <= next
    requires forall j :: 0 <= j < |queue| ==> queue[j].sid > low
    ensures Emit(types, queue, next)[k].sid == next + 1 + k
    ensures low < Emit(types, queue, next)[k].pid < Emit(types, queue, next)[k].sid
    decreases QueueSize(queue)
  {
    hide ChildRows, ChildQueue, QueueSize;
    var q := queue[0];
    var rest, n := queue[1..] + ChildQueue(types, q.contents, next), |q.contents|;
    ChildRowsLength(q.contents, q.sid, next);
    if k < n {
      ChildRowsAt(q.contents, q.sid, next, k);
    } else {
      ShorterQueue(types, queue, next);
      NextQueueIncreasing(types, queue, next);
      EmitGapless(types, rest, next + n, low, k - n);
    }
  }

  /** The sids of the table are 101, 102, ... without gaps, and every row that is not a root names as its
      parent the sid of an earlier row of the table. */
  lemma TableGapless(types: ItemTypes, roots: seq<Root>, i: nat)
    requires i < |Table(types, roots)|
    ensures var table := Table(types, roots);
            && table[i].sid == 101 + i
            && (i < |roots| ==>
                  var info := roots[i].1.info;
                  table[i] == Row(roots[i].0, 101 + i, info.id, info.count, EncodeBlocks(info.attrs)))
            && (i >= |roots| ==> 101 <= table[i].pid < table[i].sid && table[table[i].pid - 101].sid == table[i].pid)
  {
    hide RootRows, Emit, ChildQueue;
    var queue := ChildQueue(types, Items(roots), FIRST_ID);
    RootRowsLength(roots, FIRST_ID);
    if i < |roots| {
      RootRowsAt(roots, FIRST_ID, i);
    } else {
      ChildQueueIncreasing(types, Items(roots), FIRST_ID);
      EmitGapless(types, queue, FIRST_ID + |roots|, FIRST_ID, i - |roots|);
      TableSid(types, roots, Table(types, roots)[i].pid - FIRST_ID - 1);
    }
  }

  lemma TableSid(types: ItemTypes, roots: seq<Root>, i: nat)
    requires i < |Table(types, roots)|
    ensures Table(types, roots)[i].sid == FIRST_ID + 1 + i
  {
    hide RootRows, Emit, ChildQueue;
    RootRowsLength(roots, FIRST_ID);
    if i < |roots| {
      RootRowsAt(roots, FIRST_ID, i);
    } else {
      ChildQueueIncreasing(types, Items(roots), FIRST_ID);
      EmitGapless(types, ChildQueue(types, Items(roots), FIRST_ID), FIRST_ID + |roots|, FIRST_ID, i - |roots|);
    }
  }

  /** Trees the rows can hold: creatable items, contents only in containers. */
  predicate Savable(types: ItemTypes, t: Item)
    decreases t, 1
  {
    Storable(types, t.info) && (t.contents != [] ==> IsContainer(types, t.info)) && SavableAll(types, t.contents)
  }

  predicate SavableAll(types: ItemTypes, ts: seq<Item>)
    decreases ts, 0
  {
    ts == [] || (Savable(types, ts[0]) && SavableAll(types, ts[1..]))
  }

  /** That is, the items of a tree can be stored and hold nothing unless they are containers. */
  lemma {:induction false} SavableMeans(types: ItemTypes, ts: seq<Item>)
    ensures SavableAll(types, ts) <==>
            forall t :: t in ts ==> Storable(types, t.info) && (t.contents == [] || IsContainer(types, t.info)) && SavableAll(types, t.contents)
    decreases |ts|
  {
    hide Storable, IsContainer;
    if ts != [] {
      SavableMeans(types, ts[1..]);
      assert forall t :: t in ts <==> t == ts[0] || t in ts[1..];
    }
  }

  lemma {:induction false} ChildrenKnown(types: ItemTypes, ts: seq<Item>, pid: int, next: nat)
    requires SavableAll(types, ts)
    ensures forall k :: 0 <= k < |ChildRows(ts, pid, next)| ==> ChildRows(ts, pid, next)[k].id in types
    ensures forall k :: 0 <= k < |ChildQueue(types, ts, next)| ==> SavableAll(types, ChildQueue(types, ts, next)[k].contents)
    decreases |ts|
  {
    hide WellFormedAttrs, CountAfter, EncodeBlocks;
    if ts != [] {
      ChildrenKnown(types, ts[1..], pid, next + 1);
    }
  }

  /** Only creatable items get rows. */
  lemma {:induction false} EmitKnown(types: ItemTypes, queue: seq<Pending>, next: nat)
    requires forall k :: 0 <= k < |queue| ==> SavableAll(types, queue[k].contents)
    ensures forall k :: 0 <= k < |Emit(types, queue, next)| ==> Emit(types, queue, next)[k].id in types
    decreases QueueSize(queue)
  {
    hide ChildRows, ChildQueue, QueueSize, SavableAll;
    if queue != [] {
      var q := queue[0];
      ShorterQueue(types, queue, next);
      ChildrenKnown(types, q.contents, q.sid, next);
      EmitKnown(types, queue[1..] + ChildQueue(types, q.contents, next), next + |q.contents|);
    }
  }

  lemma {:induction false} RootsKnown(types: ItemTypes, roots: seq<Root>, next: nat)
    requires SavableAll(types, Items(roots))
    ensures forall k :: 0 <= k < |RootRows(roots, next)| ==> RootRows(roots, next)[k].id in types
    decreases |roots|
  {
    hide WellFormedAttrs, CountAfter, EncodeBlocks;
    if roots != [] {
      assert Items(roots)[1..] == Items(roots[1..]);
      RootsKnown(types, roots[1..], next + 1);
    }
  }

  lemma TableKnown(types: ItemTypes, roots: seq<Root>)
    requires SavableAll(types, Items(roots))
    ensures forall k :: 0 <= k < |Table(types, roots)| ==> Table(types, roots)[k].id in types
  {
    hide RootRows, ChildQueue, Emit, SavableAll, ChildRows;
    RootsKnown(types, roots, FIRST_ID);
    ChildrenKnown(types, Items(roots), 0, FIRST_ID);
    EmitKnown(types, ChildQueue(types, Items(roots), FIRST_ID), FIRST_ID + |roots|);
  }

  // ---------- the writer ----------

  /** saveItems. Which containers a player has open is not part of the model: the attributes are
      written as they are. */
  method SaveItems(types: ItemTypes, roots: seq<Root>) returns (rows: seq<Row>)
    ensures rows == Table(types, roots)
  {
    hide Emit, QueueSize, RowOf, RootRows, ChildRows, ChildQueue;
    var queue, runningId;
    rows, queue, runningId := WriteRoots(types, roots);
    while queue != []
      invariant runningId >= FIRST_ID
      invariant rows + Emit(types, queue, runningId) == Table(types, roots)
      decreases QueueSize(queue)
    {
      EmitStep(types, queue, runningId);
      rows, queue, runningId := WriteContents(types, queue[0].contents, queue[0].sid, rows, queue[1..], runningId);
    }
    EmitNothing(types, runningId);
  }

  lemma NoRoots(types: ItemTypes)
    ensures forall id: nat :: RootRows([], id) == [] && ChildQueue(types, Items([]), id) == []
  {
  }

  lemma FirstRoot(types: ItemTypes, roots: seq<Root>, id: nat)
    requires roots != []
    ensures RootRows(roots, id) == [RowOf(roots[0].0, id + 1, roots[0].1.info)] + RootRows(roots[1..], id + 1)
    ensures ChildQueue(types, Items(roots), id)
         == (if IsContainer(types, roots[0].1.info) then [Pending(roots[0].1.contents, id + 1)] else []) + ChildQueue(types, Items(roots[1..]), id + 1)
  {
    assert Items(roots)[1..] == Items(roots[1..]);
  }

  /** The first loop: the rows of the roots. */
  method WriteRoots(types: ItemTypes, roots: seq<Root>) returns (rows: seq<Row>, queue: seq<Pending>, runningId: nat)
    ensures rows == RootRows(roots, FIRST_ID)
    ensures queue == ChildQueue(types, Items(roots), FIRST_ID)
    ensures runningId == FIRST_ID + |roots|
  {
    hide RowOf, IsContainer, RootRows, ChildQueue, Items;
    NoRoots(types);
    rows, queue, runningId := [], [], FIRST_ID;
    var i := 0;
    assert roots[0..] == roots;
    while i < |roots|
      invariant 0 <= i <= |roots| && runningId == FIRST_ID + i
      invariant rows + RootRows(roots[i..], runningId) == RootRows(roots, FIRST_ID)
      invariant queue + ChildQueue(types, Items(roots[i..]), runningId) == ChildQueue(types, Items(roots), FIRST_ID)
    {
      var pid, item := roots[i].0, roots[i].1;
      assert roots[i..][1..] == roots[i + 1..];
      FirstRoot(types, roots[i..], runningId);
      runningId := runningId + 1;
      if IsContainer(types, item.info) {
        queue := queue + [Pending(item.contents, runningId)];
      }
      rows := rows + [RowOf(pid, runningId, item.info)];
      i := i + 1;
    }
  }

  /** The inner loop: the rows of one container. */
  method WriteContents(types: ItemTypes, contents: seq<Item>, parentId: nat, rows0: seq<Row>, queue0: seq<Pending>, start: nat)
      returns (rows: seq<Row>, queue: seq<Pending>, runningId: nat)
    ensures rows == rows0 + ChildRows(contents, parentId, start)
    ensures queue == queue0 + ChildQueue(types, contents, start)
    ensures runningId == start + |contents|
  {
    hide RowOf;
    rows, queue, runningId := rows0, queue0, start;
    var i := 0;
    while i < |contents|
      invariant 0 <= i <= |contents| && runningId == start + i
      invariant rows + ChildRows(contents[i..], parentId, runningId) == rows0 + ChildRows(contents, parentId, start)
      invariant queue + ChildQueue(types, contents[i..], runningId) == queue0 + ChildQueue(types, contents, start)
    {
      assert contents[i..][1..] == contents[i + 1..];
      runningId := runningId + 1;
      if IsContainer(types, contents[i].info) {
        queue := queue + [Pending(contents[i].contents, runningId)];
      }
      rows := rows + [RowOf(parentId, runningId, contents[i].info)];
      i := i + 1;
    }
  }

  lemma EmitNothing(types: ItemTypes, next: nat)
    ensures Emit(types, [], next) == []
  {
  }

  lemma EmitStep(types: ItemTypes, queue: seq<Pending>, next: nat)
    requires queue != []
    ensures var q := queue[0];
            var rest := queue[1..] + ChildQueue(types, q.contents, next);
            && QueueSize(rest) < QueueSize(queue)
            && Emit(types, queue, next) == ChildRows(q.contents, q.sid, next) + Emit(types, rest, next + |q.contents|)
  {
    ShorterQueue(types, queue, next);
  }
}
