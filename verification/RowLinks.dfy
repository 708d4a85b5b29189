/** How loadPlayer links the items it has created from the rows, and why that rebuilds what saveItems
    flattened. */
module RowLinks {
  import opened Bytes
  import opened ItemForest
  import opened ItemMoves
  import opened ItemAttributes
  import opened ItemTrees
  import opened PlayerRows

  /** An entry of the item map: the item of a row, named by its sid, and the row's pid. */
  type Entry = (Handle, int)

  /** Where root items go: inventory slots 1 to 11, one item each, or depot chests and the inbox, which
      are lists under the numbers 0 to 99. */
  datatype Kind = Inventory | Chest

  predicate IsRoot(kind: Kind, pid: int) {
    match kind
    case Inventory => 1 <= pid <= 11
    case Chest => 0 <= pid < 100
  }

  /** Linking one entry: root items leave the forest alone, the others are pushed to the front of the
      container their pid names, if there is one. */
  ghost function LinkRow(kind: Kind, f: Forest, d: Depths, e: Entry): (Forest, Depths) {
    if !IsRoot(kind, e.1) && e.1 >= 0 && CanLink(f, d, e.1, e.0)
    then (Added(f, d, e.1, 0, e.0), DepthsLinked(f, d, e.1, e.0))
    else (f, d)
  }

  /** The entries are linked last to first. */
  ghost function Relink(kind: Kind, f: Forest, d: Depths, entries: seq<Entry>): (Forest, Depths) {
    if entries == [] then (f, d)
    else
      var (f', d') := Relink(kind, f, d, entries[1..]);
      LinkRow(kind, f', d', entries[0])
  }

  function PutRoot(kind: Kind, slots: map<int, seq<Handle>>, e: Entry): map<int, seq<Handle>> {
    if !IsRoot(kind, e.1) then slots
    else if e.1 !in slots then slots[e.1 := [e.0]]
    else if kind == Inventory then slots
    else slots[e.1 := [e.0] + slots[e.1]]
  }

  function Slots(kind: Kind, entries: seq<Entry>): map<int, seq<Handle>> {
    if entries == [] then map[] else PutRoot(kind, Slots(kind, entries[1..]), entries[0])
  }

  /** The items of a pid, in order. */
  function Named(entries: seq<Entry>, p: int): seq<Handle> {
    if entries == [] then [] else (if entries[0].1 == p then [entries[0].0] else []) + Named(entries[1..], p)
  }

  /** Whatever the rows are: the slots 1 to 11 take the last item of their pid, the chests 0 to 99 all items
      of theirs in order, and nothing else is a slot. */
  lemma {:induction false} SlotsOf(kind: Kind, entries: seq<Entry>, p: int)
    ensures var slots, all := Slots(kind, entries), Named(entries, p);
            && (p in slots <==> all != [] && if kind == Inventory then 1 <= p <= 11 else 0 <= p <= 99)
            && (p in slots ==> slots[p] == if kind == Inventory then [all[|all| - 1]] else all)
    decreases |entries|
  {
    if entries != [] {
      SlotsOf(kind, entries[1..], p);
    }
  }

  function Entries(rows: seq<Row>): (es: seq<Entry>)
    ensures |es| == |rows| && forall k :: 0 <= k < |rows| ==> es[k] == (rows[k].sid, rows[k].pid)
  {
    seq(|rows|, k requires 0 <= k < |rows| => (rows[k].sid, rows[k].pid))
  }

  // ---------- the state before linking ----------

  /** The item that loadItems makes of a row; attributes after a read error are lost. */
  function RowInfo(types: ItemTypes, row: Row): Info {
    LoadedInfo(row.id, row.count, ReadBlocks(row.attributes, row.id in types && types[row.id].container).attrs)
  }

  lemma RowInfoOf(types: ItemTypes, pid: int, sid: nat, info: Info)
    requires Storable(types, info)
    ensures RowInfo(types, RowOf(pid, sid, info)) == info
  {
    var container := info.id in types && types[info.id].container;
    assert EncodeBlocks(info.attrs) + [] == EncodeBlocks(info.attrs);
    ReadWritten(info.attrs, [], container);
    assert info.attrs + [] == info.attrs;
    StorableLoads(types, info);
  }

  /** h is a fresh object: no links, nothing inside. */
  ghost predicate Fresh(f: Forest, h: Handle, what: Info) {
    && h in f.info && f.info[h] == what
    && (h in f.items <==> IsContainer(f.types, what)) && (h in f.total <==> h in f.items)
    && (h in f.items ==> f.items[h] == [] && f.total[h] == 0)
  }

  // ---------- one container ----------

  /** The objects next + 1, next + 2, ... are the given trees, each in no container yet. */
  ghost predicate Complete(f: Forest, ts: seq<Item>, next: nat) {
    ts == [] || (next + 1 in f.info && next + 1 !in f.parent && Represents(f, next + 1, ts[0]) && Complete(f, ts[1..], next + 1))
  }

  /** Only lists and totals from lo on, and parent links of later objects, differ. */
  ghost predicate LinkedOnly(f: Forest, g: Forest, first: int, last: int) {
    && g.types == f.types && g.info == f.info && g.items.Keys == f.items.Keys && g.total.Keys == f.total.Keys
    && (forall y :: y in g.parent <==> y in f.parent || first <= y <= last)
  }

  /** Linking the rows of one list into their container, which stood for acc before. */
  lemma {:induction false} RelinkChildren(kind: Kind, f: Forest, d: Depths, ts: seq<Item>, pid: nat, next: nat, acc: seq<Item>)
    requires Inv(f, d) && Holding(f, pid, acc) && pid <= next && !IsRoot(kind, pid)
    requires Complete(f, ts, next)
    ensures var (g, e) := Relink(kind, f, d, Entries(ChildRows(ts, pid, next)));
            && Inv(g, e) && Holding(g, pid, ts + acc) && Keeps(f, g, pid + 1)
            && LinkedOnly(f, g, next + 1, next + |ts|)
            && forall y :: y in f.items && y != pid ==> y in g.items && y in f.total && y in g.total && g.items[y] == f.items[y] && g.total[y] == f.total[y]
    decreases |ts|
  {
    hide Inv, Holding, Represents, Added, CanLink, RowOf, Keeps;
    if ts == [] {
      assert ts + acc == acc;
      SelfKeeps(f, d, pid + 1);
    } else {
      var rows := ChildRows(ts, pid, next);
      var x, rest := next + 1, ts[1..];
      ChildEntries(ts, pid, next);
      RelinkChildren(kind, f, d, rest, pid, x, acc);
      var (g, e) := Relink(kind, f, d, Entries(ChildRows(rest, pid, x)));
      LinkOneChild(kind, f, g, e, pid, x, ts[0], rest + acc);
      assert [ts[0]] + (rest + acc) == ts + acc;
    }
  }

  lemma SelfKeeps(f: Forest, d: Depths, lo: int)
    requires Inv(f, d)
    ensures Keeps(f, f, lo) && forall y :: y in f.items ==> y in f.total
  {
  }

  lemma ChildEntries(ts: seq<Item>, pid: nat, next: nat)
    requires ts != []
    ensures var es := Entries(ChildRows(ts, pid, next));
            es != [] && es[0] == (next + 1, pid as int) && es[1..] == Entries(ChildRows(ts[1..], pid, next + 1))
  {
    var rows := ChildRows(ts, pid, next);
    assert rows[0] == RowOf(pid, next + 1, ts[0].info) && rows[1..] == ChildRows(ts[1..], pid, next + 1);
  }

  /** The last step of RelinkChildren: the first of the list goes in front. */
  lemma LinkOneChild(kind: Kind, f: Forest, g: Forest, e: Depths, pid: nat, x: nat, t: Item, acc: seq<Item>)
    requires Inv(g, e) && Holding(g, pid, acc) && pid < x && !IsRoot(kind, pid)
    requires Keeps(f, g, pid + 1) && x in f.info && x !in g.parent && Represents(f, x, t)
    ensures var (g', e') := LinkRow(kind, g, e, (x, pid as int));
            && Inv(g', e') && Holding(g', pid, [t] + acc) && Keeps(f, g', pid + 1)
            && g'.types == g.types && g'.info == g.info && g'.items.Keys == g.items.Keys && g'.total.Keys == g.total.Keys
            && (forall y :: y in g'.parent <==> y in g.parent || y == x)
            && (forall y :: y in g.items && y != pid ==> y in g.total && y in g'.total && g'.items[y] == g.items[y] && g'.total[y] == g.total[y])
  {
    hide Represents, Added, CanLink, DeepSum, Weight, AsInt32, Wrap, Weighed, Valid, Keeps, RepresentsAll;
    KeepsFrom(f, g, pid + 1, x);
    RepresentsFrame(f, g, x, t);
    InInfo(g, x, t);
    AddToRoot(g, e, pid, x);
    AddFront(g, e, pid, x, t, acc);
    AddKeeps(g, e, pid, 0, x);
    KeepsTwice(f, g, Added(g, e, pid, 0, x), pid + 1);
    TotalsOfItems(g, e);
  }

  lemma TotalsOfItems(f: Forest, d: Depths)
    requires Inv(f, d)
    ensures f.total.Keys == f.items.Keys && forall y :: y in f.items ==> y in f.total
  {
  }

  lemma InInfo(f: Forest, h: Handle, t: Item)
    requires Represents(f, h, t)
    ensures h in f.info
  {
  }

  // ---------- the whole queue ----------

  lemma {:induction false} RelinkAppend(kind: Kind, f: Forest, d: Depths, a: seq<Entry>, b: seq<Entry>)
    ensures var (g, e) := Relink(kind, f, d, b);
            Relink(kind, f, d, a + b) == Relink(kind, g, e, a)
    decreases |a|
  {
    hide LinkRow;
    if a == [] {
      assert a + b == b;
    } else {
      assert (a + b)[1..] == a[1..] + b;
      RelinkAppend(kind, f, d, a[1..], b);
    }
  }

  ghost predicate Waiting(kind: Kind, f: Forest, queue: seq<Pending>) {
    forall k :: 0 <= k < |queue| ==> WaitingOne(kind, f, queue[k])
  }

  /** The container of a queue entry exists, is empty and sits in nothing. */
  ghost predicate WaitingOne(kind: Kind, f: Forest, q: Pending) {
    Holding(f, q.sid, []) && q.sid in f.info && !IsRoot(kind, q.sid) && SavableAll(f.types, q.contents)
  }

  ghost predicate RowsFresh(f: Forest, rows: seq<Row>) {
    forall k :: 0 <= k < |rows| ==> Fresh(f, rows[k].sid, RowInfo(f.types, rows[k]))
  }

  ghost predicate Filled(f: Forest, queue: seq<Pending>) {
    forall k :: 0 <= k < |queue| ==> Holding(f, queue[k].sid, queue[k].contents)
  }

  /** The items of one list before anything is linked. */
  ghost predicate Born(f: Forest, ts: seq<Item>, next: nat) {
    ts == [] || (Fresh(f, next + 1, ts[0].info) && next + 1 !in f.parent && Born(f, ts[1..], next + 1))
  }

  lemma {:induction false} ChildrenBorn(f: Forest, ts: seq<Item>, pid: int, next: nat)
    requires RowsFresh(f, ChildRows(ts, pid, next)) && f.parent == map[] && SavableAll(f.types, ts)
    ensures Born(f, ts, next)
    decreases |ts|
  {
    hide Fresh, RowInfo;
    if ts != [] {
      var rows := ChildRows(ts, pid, next);
      assert rows[0] == RowOf(pid, next + 1, ts[0].info) && rows[1..] == ChildRows(ts[1..], pid, next + 1);
      assert Fresh(f, rows[0].sid, RowInfo(f.types, rows[0]));
      RowInfoOf(f.types, pid, next + 1, ts[0].info);
      ChildrenBorn(f, ts[1..], pid, next + 1);
    }
  }

  lemma {:induction false} ChildrenWaiting(kind: Kind, f: Forest, ts: seq<Item>, next: nat)
    requires Born(f, ts, next) && SavableAll(f.types, ts) && next >= FIRST_ID
    ensures Waiting(kind, f, ChildQueue(f.types, ts, next))
    decreases |ts|
  {
    hide OwnWeight, Storable;
    if ts != [] {
      ChildrenWaiting(kind, f, ts[1..], next + 1);
      WrapNothing();
      var more := ChildQueue(f.types, ts[1..], next + 1);
      if IsContainer(f.types, ts[0].info) {
        var q := Pending(ts[0].contents, next + 1);
        assert WaitingOne(kind, f, q);
        var queue := ChildQueue(f.types, ts, next);
        assert queue == [q] + more;
        forall k | 0 <= k < |queue|
          ensures WaitingOne(kind, f, queue[k])
        {
          assert k > 0 ==> queue[k] == more[k - 1];
        }
      } else {
        assert ChildQueue(f.types, ts, next) == more;
      }
    }
  }

  lemma WrapNothing()
    ensures Wrap(0) == 0
  {
  }

  /** Once the containers among them are filled, the items of a list are complete. */
  lemma {:induction false} ChildrenComplete(f: Forest, g: Forest, ts: seq<Item>, next: nat)
    requires Born(f, ts, next) && SavableAll(f.types, ts) && Filled(g, ChildQueue(f.types, ts, next))
    requires g.types == f.types && g.info == f.info && g.items.Keys == f.items.Keys && g.total.Keys == f.total.Keys
    requires forall y :: y in g.parent ==> y > next + |ts|
    ensures Complete(g, ts, next)
    decreases |ts|
  {
    hide OwnWeight, Storable, Holding;
    if ts != [] {
      var more, queue := ChildQueue(f.types, ts[1..], next + 1), ChildQueue(f.types, ts, next);
      if IsContainer(f.types, ts[0].info) {
        assert queue == [Pending(ts[0].contents, next + 1)] + more;
        assert Holding(g, queue[0].sid, queue[0].contents);
        HoldingIsTree(g, next + 1, ts[0]);
        assert forall k :: 0 <= k < |more| ==> more[k] == queue[k + 1];
      } else {
        assert queue == more;
      }
      ChildrenComplete(f, g, ts[1..], next + 1);
    }
  }

  lemma HoldingKept(f: Forest, g: Forest, c: Handle, acc: seq<Item>)
    requires Holding(f, c, acc) && c in f.info && Keeps(f, g, c) && c !in g.parent
    ensures Holding(g, c, acc)
  {
    RepresentsAllFrame(f, g, c, f.items[c], acc);
  }

  /** What linking the rows of a queue does: every container of the queue is filled, and nothing with an
      older number is touched otherwise. */
  ghost predicate Linking(f: Forest, g: Forest, queue: seq<Pending>, next: nat) {
    && g.types == f.types && g.info == f.info && g.items.Keys == f.items.Keys && g.total.Keys == f.total.Keys
    && Filled(g, queue)
    && (forall y :: y in g.parent ==> y > next)
    && (forall y :: y in f.items && y <= next && !Queued(queue, y) ==> SameList(f, g, y))
  }

  ghost predicate Queued(queue: seq<Pending>, y: Handle) {
    exists k :: 0 <= k < |queue| && queue[k].sid == y
  }

  ghost predicate SameList(f: Forest, g: Forest, y: Handle) {
    y in f.items && y in g.items && y in f.total && y in g.total && g.items[y] == f.items[y] && g.total[y] == f.total[y]
  }

  lemma {:induction false} RelinkEmit(kind: Kind, queue: seq<Pending>, next: nat, f: Forest, d: Depths)
    requires Inv(f, d) && f.parent == map[] && next >= FIRST_ID
    requires Increasing(queue, next) && Waiting(kind, f, queue) && RowsFresh(f, Emit(f.types, queue, next))
    ensures var (g, e) := Relink(kind, f, d, Entries(Emit(f.types, queue, next)));
            Inv(g, e) && Linking(f, g, queue, next)
    decreases QueueSize(queue)
  {
    hide Inv, Waiting, RowsFresh, Linking, QueueSize, Relink, ChildQueue, ChildRows, Increasing;
    if queue == [] {
      LinkingNothing(f, d, next);
      RelinkNothing(kind, f, d);
    } else {
      var q := queue[0];
      var rest, next' := queue[1..] + ChildQueue(f.types, q.contents, next), next + |q.contents|;
      var rows, later := ChildRows(q.contents, q.sid, next), Emit(f.types, rest, next');
      EmitStep(f.types, queue, next);
      QueueStep(kind, queue, next, f);
      RelinkEmit(kind, rest, next', f, d);
      var (g1, e1) := Relink(kind, f, d, Entries(later));
      LinkQueueHead(kind, queue, next, f, g1, e1);
      assert Entries(rows + later) == Entries(rows) + Entries(later);
      RelinkAppend(kind, f, d, Entries(rows), Entries(later));
    }
  }

  lemma RelinkNothing(kind: Kind, f: Forest, d: Depths)
    ensures Relink(kind, f, d, Entries([])) == (f, d)
  {
  }

  lemma LinkingNothing(f: Forest, d: Depths, next: nat)
    requires Inv(f, d) && f.parent == map[]
    ensures Linking(f, f, [], next)
  {
  }

  /** The queue that is left meets the same conditions. */
  lemma QueueStep(kind: Kind, queue: seq<Pending>, next: nat, f: Forest)
    requires queue != [] && f.parent == map[] && next >= FIRST_ID
    requires Increasing(queue, next) && Waiting(kind, f, queue) && RowsFresh(f, Emit(f.types, queue, next))
    ensures var q := queue[0];
            var rest, next' := queue[1..] + ChildQueue(f.types, q.contents, next), next + |q.contents|;
            && Increasing(rest, next') && Waiting(kind, f, rest) && RowsFresh(f, Emit(f.types, rest, next'))
            && Born(f, q.contents, next)
  {
    hide Fresh, RowInfo, ChildQueue, ChildRows, WaitingOne, Emit, QueueSize, Increasing;
    var q := queue[0];
    var cq := ChildQueue(f.types, q.contents, next);
    var rest, next' := queue[1..] + cq, next + |q.contents|;
    var rows, later, all := ChildRows(q.contents, q.sid, next), Emit(f.types, rest, next'), Emit(f.types, queue, next);
    EmitStep(f.types, queue, next);
    NextQueueIncreasing(f.types, queue, next);
    assert forall k :: 0 <= k < |rows| ==> rows[k] == all[k];
    assert forall k :: 0 <= k < |later| ==> later[k] == all[|rows| + k];
    WaitingSavable(kind, f, q);
    ChildrenBorn(f, q.contents, q.sid, next);
    ChildrenWaiting(kind, f, q.contents, next);
    forall k | 0 <= k < |rest|
      ensures WaitingOne(kind, f, rest[k])
    {
      assert rest[k] == if k < |queue| - 1 then queue[k + 1] else cq[k - (|queue| - 1)];
    }
  }

  lemma WaitingSavable(kind: Kind, f: Forest, q: Pending)
    requires WaitingOne(kind, f, q)
    ensures SavableAll(f.types, q.contents) && Holding(f, q.sid, []) && q.sid in f.info && !IsRoot(kind, q.sid)
  {
  }

  /** Linking the rows of the first container after all later rows. */
  lemma LinkQueueHead(kind: Kind, queue: seq<Pending>, next: nat, f: Forest, g1: Forest, e1: Depths)
    requires queue != [] && Increasing(queue, next) && Waiting(kind, f, queue) && Born(f, queue[0].contents, next)
    requires Inv(g1, e1)
    requires Linking(f, g1, queue[1..] + ChildQueue(f.types, queue[0].contents, next), next + |queue[0].contents|)
    ensures var (g, e) := Relink(kind, g1, e1, Entries(ChildRows(queue[0].contents, queue[0].sid, next)));
            Inv(g, e) && Linking(f, g, queue, next)
  {
    hide Inv, Holding, Keeps, Born, Complete, ChildRows, ChildQueue, Relink, Fresh, WaitingOne, Increasing;
    var q := queue[0];
    WaitingSavable(kind, f, q);
    HeadEmpty(kind, queue, next, f, g1);
    LaterComplete(kind, queue, next, f, g1);
    HeadBound(queue, next);
    RelinkChildren(kind, g1, e1, q.contents, q.sid, next, []);
    var (g, e) := Relink(kind, g1, e1, Entries(ChildRows(q.contents, q.sid, next)));
    assert q.contents + [] == q.contents;
    LinkingAfterHead(kind, queue, next, f, g1, g);
  }

  lemma HeadBound(queue: seq<Pending>, next: nat)
    requires queue != [] && Increasing(queue, next)
    ensures queue[0].sid <= next
  {
  }

  /** The first container is still empty when its turn comes. */
  lemma HeadEmpty(kind: Kind, queue: seq<Pending>, next: nat, f: Forest, g1: Forest)
    requires queue != [] && Increasing(queue, next) && Holding(f, queue[0].sid, [])
    requires Linking(f, g1, queue[1..] + ChildQueue(f.types, queue[0].contents, next), next + |queue[0].contents|)
    ensures Holding(g1, queue[0].sid, [])
  {
    hide Represents, DeepSum, Wrap, ChildQueue;
    NextQueueIncreasing(f.types, queue, next);
    var rest := queue[1..] + ChildQueue(f.types, queue[0].contents, next);
    assert !Queued(rest, queue[0].sid);
    assert SameList(f, g1, queue[0].sid);
  }

  lemma LaterComplete(kind: Kind, queue: seq<Pending>, next: nat, f: Forest, g1: Forest)
    requires queue != [] && Born(f, queue[0].contents, next) && SavableAll(f.types, queue[0].contents)
    requires Linking(f, g1, queue[1..] + ChildQueue(f.types, queue[0].contents, next), next + |queue[0].contents|)
    ensures Complete(g1, queue[0].contents, next)
  {
    hide Holding, Born, Complete, ChildQueue, SavableAll;
    var cq := ChildQueue(f.types, queue[0].contents, next);
    var rest := queue[1..] + cq;
    assert forall k :: 0 <= k < |cq| ==> cq[k] == rest[|queue| - 1 + k];
    ChildrenComplete(f, g1, queue[0].contents, next);
  }

  lemma LinkingAfterHead(kind: Kind, queue: seq<Pending>, next: nat, f: Forest, g1: Forest, g: Forest)
    requires queue != [] && Increasing(queue, next) && Waiting(kind, f, queue)
    requires Linking(f, g1, queue[1..] + ChildQueue(f.types, queue[0].contents, next), next + |queue[0].contents|)
    requires Holding(g, queue[0].sid, queue[0].contents) && Keeps(g1, g, queue[0].sid + 1)
    requires LinkedOnly(g1, g, next + 1, next + |queue[0].contents|)
    requires forall y :: y in g1.items && y != queue[0].sid ==>
               y in g.items && y in g1.total && y in g.total && g.items[y] == g1.items[y] && g.total[y] == g1.total[y]
    ensures Linking(f, g, queue, next)
  {
    hide Holding, Keeps, ChildQueue;
    var q := queue[0];
    var rest := queue[1..] + ChildQueue(f.types, q.contents, next);
    NextQueueIncreasing(f.types, queue, next);
    forall k | 0 <= k < |queue|
      ensures Holding(g, queue[k].sid, queue[k].contents)
    {
      if k > 0 {
        assert rest[k - 1] == queue[k];
        assert WaitingOne(kind, f, queue[k]);
        KeepsFrom(g1, g, q.sid + 1, queue[k].sid);
        HoldingKept(g1, g, queue[k].sid, queue[k].contents);
      }
    }
    forall y | y in f.items && y <= next && !Queued(queue, y)
      ensures SameList(f, g, y)
    {
      NotQueuedLater(f.types, queue, next, y);
      assert SameList(f, g1, y);
    }
  }

  lemma NotQueuedLater(types: ItemTypes, queue: seq<Pending>, next: nat, y: Handle)
    requires queue != [] && y <= next && !Queued(queue, y)
    ensures y != queue[0].sid && !Queued(queue[1..] + ChildQueue(types, queue[0].contents, next), y)
  {
    var cq := ChildQueue(types, queue[0].contents, next);
    var rest := queue[1..] + cq;
    ChildQueueIncreasing(types, queue[0].contents, next);
    forall k | 0 <= k < |rest|
      ensures rest[k].sid != y
    {
      if k < |queue| - 1 {
        assert rest[k] == queue[k + 1];
      } else {
        assert rest[k] == cq[k - (|queue| - 1)];
      }
    }
  }
}
