/** IOLoginData::loadItems and the linking loops of loadPlayer, and the round trip with saveItems. */
module RowLoader {
  import opened Bytes
  import opened ItemForest
  import opened ItemMoves
  import opened ItemAttributes
  import opened ItemTrees
  import opened ItemStore
  import opened PlayerRows
  import opened RowLinks

  // ---------- the round trip, on values ----------

  /** The sids of the roots stored under p, in order. */
  function SidsAt(roots: seq<Root>, p: int, next: nat): seq<Handle> {
    if roots == [] then [] else (if roots[0].0 == p then [next + 1] else []) + SidsAt(roots[1..], p, next + 1)
  }

  /** The trees stored under p, in order. */
  function TreesAt(roots: seq<Root>, p: int): seq<Item> {
    if roots == [] then [] else (if roots[0].0 == p then [roots[0].1] else []) + TreesAt(roots[1..], p)
  }

  /** Which trees that are: under the number of an inventory slot the one tree saved there; and in general
      those of one part of the list and then those of the other. */
  lemma TreesUnder(roots: seq<Root>, more: seq<Root>, p: int)
    ensures TreesAt(roots + more, p) == TreesAt(roots, p) + TreesAt(more, p)
    ensures (forall k :: 0 <= k < |roots| ==> roots[k].0 != p) ==> TreesAt(roots, p) == []
    ensures (forall k :: 0 <= k < |roots| ==> roots[k].0 == p) ==>
              (|TreesAt(roots, p)| == |roots| && forall k :: 0 <= k < |roots| ==> TreesAt(roots, p)[k] == roots[k].1)
  {
    hide TreesAt;
    TreesJoin(roots, more, p);
    if forall k :: 0 <= k < |roots| ==> roots[k].0 != p {
      NoTrees(roots, p);
    }
    if forall k :: 0 <= k < |roots| ==> roots[k].0 == p {
      AllTrees(roots, p);
    }
  }

  lemma {:induction false} TreesJoin(roots: seq<Root>, more: seq<Root>, p: int)
    ensures TreesAt(roots + more, p) == TreesAt(roots, p) + TreesAt(more, p)
    decreases |roots|
  {
    if roots == [] {
      assert roots + more == more;
    } else {
      assert (roots + more)[1..] == roots[1..] + more && (roots + more)[0] == roots[0];
      TreesJoin(roots[1..], more, p);
      var first := if roots[0].0 == p then [roots[0].1] else [];
      assert TreesAt(roots, p) == first + TreesAt(roots[1..], p);
      assert TreesAt(roots + more, p) == first + TreesAt(roots[1..] + more, p);
      hide TreesAt;
      assert first + (TreesAt(roots[1..], p) + TreesAt(more, p)) == (first + TreesAt(roots[1..], p)) + TreesAt(more, p);
    }
  }

  lemma {:induction false} NoTrees(roots: seq<Root>, p: int)
    requires forall k :: 0 <= k < |roots| ==> roots[k].0 != p
    ensures TreesAt(roots, p) == []
    decreases |roots|
  {
    if roots != [] {
      NoTrees(roots[1..], p);
    }
  }

  lemma {:induction false} AllTrees(roots: seq<Root>, p: int)
    requires forall k :: 0 <= k < |roots| ==> roots[k].0 == p
    ensures |TreesAt(roots, p)| == |roots| && forall k :: 0 <= k < |roots| ==> TreesAt(roots, p)[k] == roots[k].1
    decreases |roots|
  {
    if roots != [] {
      AllTrees(roots[1..], p);
    }
  }

  /** What saveItems is given: items that rows can hold, stored under the numbers 1 to 11 of the inventory
      slots, one each, or 0 to 99 of the depot chests. */
  ghost predicate SavableRoots(kind: Kind, types: ItemTypes, roots: seq<Root>) {
    && SavableAll(types, Items(roots))
    && (forall k :: 0 <= k < |roots| ==> if kind == Inventory then 1 <= roots[k].0 <= 11 else 0 <= roots[k].0 <= 99)
    && (kind == Inventory ==> forall j, k :: 0 <= j < k < |roots| ==> roots[j].0 != roots[k].0)
  }

  lemma {:induction false} RelinkRoots(kind: Kind, f: Forest, d: Depths, roots: seq<Root>, next: nat)
    requires forall k :: 0 <= k < |roots| ==> IsRoot(kind, roots[k].0)
    ensures Relink(kind, f, d, Entries(RootRows(roots, next))) == (f, d)
    decreases |roots|
  {
    hide CanLink;
    if roots != [] {
      RootEntries(roots, next);
      RelinkRoots(kind, f, d, roots[1..], next + 1);
    }
  }

  lemma RootEntries(roots: seq<Root>, next: nat)
    requires roots != []
    ensures var es := Entries(RootRows(roots, next));
            es != [] && es[0] == (next + 1, roots[0].0) && es[1..] == Entries(RootRows(roots[1..], next + 1))
  {
    var rows := RootRows(roots, next);
    assert rows[0] == RowOf(roots[0].0, next + 1, roots[0].1.info) && rows[1..] == RootRows(roots[1..], next + 1);
  }

  /** The state in which the rows of the table have become objects but nothing is linked. */
  ghost predicate Loaded(f: Forest, d: Depths, rows: seq<Row>) {
    Inv(f, d) && f.parent == map[] && RowsFresh(f, rows)
  }

  /** Linking the table's rows rebuilds every root tree under the sid of its row. */
  lemma TableRelinks(kind: Kind, roots: seq<Root>, f: Forest, d: Depths)
    requires SavableRoots(kind, f.types, roots) && Loaded(f, d, Table(f.types, roots))
    ensures var (g, e) := Relink(kind, f, d, Entries(Table(f.types, roots)));
            && Inv(g, e) && Complete(g, Items(roots), FIRST_ID)
  {
    hide Inv, RowsFresh, Relink, Linking, ChildQueue, Emit, RootRows, Born, Fresh, Waiting, Complete, SavableAll, Filled, Increasing;
    var queue, next := ChildQueue(f.types, Items(roots), FIRST_ID), FIRST_ID + |roots|;
    var first, later := RootRows(roots, FIRST_ID), Emit(f.types, queue, next);
    TableParts(f, roots);
    RootsBorn(f, roots, FIRST_ID);
    ChildrenWaiting(kind, f, Items(roots), FIRST_ID);
    ChildQueueIncreasing(f.types, Items(roots), FIRST_ID);
    RelinkEmit(kind, queue, next, f, d);
    var (g, e) := Relink(kind, f, d, Entries(later));
    assert Entries(first + later) == Entries(first) + Entries(later);
    RelinkAppend(kind, f, d, Entries(first), Entries(later));
    RelinkRoots(kind, g, e, roots, FIRST_ID);
    LinkingMeans(f, g, queue, next);
    ChildrenComplete(f, g, Items(roots), FIRST_ID);
  }

  lemma LinkingMeans(f: Forest, g: Forest, queue: seq<Pending>, next: nat)
    requires Linking(f, g, queue, next)
    ensures g.types == f.types && g.info == f.info && g.items.Keys == f.items.Keys && g.total.Keys == f.total.Keys
    ensures Filled(g, queue) && forall y :: y in g.parent ==> y > next
  {
  }

  lemma TableParts(f: Forest, roots: seq<Root>)
    requires RowsFresh(f, Table(f.types, roots))
    ensures RowsFresh(f, RootRows(roots, FIRST_ID))
    ensures RowsFresh(f, Emit(f.types, ChildQueue(f.types, Items(roots), FIRST_ID), FIRST_ID + |roots|))
  {
    hide Fresh, RowInfo, Emit, RootRows, ChildQueue;
    var first, later := RootRows(roots, FIRST_ID), Emit(f.types, ChildQueue(f.types, Items(roots), FIRST_ID), FIRST_ID + |roots|);
    var all := Table(f.types, roots);
    assert all == first + later;
    PartsFresh(f, first, later);
  }

  lemma PartsFresh(f: Forest, a: seq<Row>, b: seq<Row>)
    requires RowsFresh(f, a + b)
    ensures RowsFresh(f, a) && RowsFresh(f, b)
  {
    hide Fresh, RowInfo;
    forall k | 0 <= k < |a|
      ensures Fresh(f, a[k].sid, RowInfo(f.types, a[k]))
    {
      assert (a + b)[k] == a[k];
    }
    forall k | 0 <= k < |b|
      ensures Fresh(f, b[k].sid, RowInfo(f.types, b[k]))
    {
      assert (a + b)[|a| + k] == b[k];
    }
  }

  lemma {:induction false} RootsBorn(f: Forest, roots: seq<Root>, next: nat)
    requires RowsFresh(f, RootRows(roots, next)) && f.parent == map[] && SavableAll(f.types, Items(roots))
    ensures Born(f, Items(roots), next)
    decreases |roots|
  {
    hide Fresh, RowInfo;
    if roots != [] {
      var rows := RootRows(roots, next);
      assert rows[0] == RowOf(roots[0].0, next + 1, roots[0].1.info) && rows[1..] == RootRows(roots[1..], next + 1);
      assert Fresh(f, rows[0].sid, RowInfo(f.types, rows[0]));
      assert Items(roots)[1..] == Items(roots[1..]);
      RowInfoOf(f.types, roots[0].0, next + 1, roots[0].1.info);
      RootsBorn(f, roots[1..], next + 1);
    }
  }

  /** Only root rows reach the slots. */
  lemma {:induction false} NoSlots(kind: Kind, entries: seq<Entry>)
    requires forall k :: 0 <= k < |entries| ==> !IsRoot(kind, entries[k].1)
    ensures Slots(kind, entries) == map[]
    decreases |entries|
  {
    if entries != [] {
      NoSlots(kind, entries[1..]);
    }
  }

  lemma {:induction false} RootSlots(kind: Kind, roots: seq<Root>, next: nat, more: seq<Entry>, p: int)
    requires forall k :: 0 <= k < |roots| ==> IsRoot(kind, roots[k].0)
    requires kind == Inventory ==> forall j, k :: 0 <= j < k < |roots| ==> roots[j].0 != roots[k].0
    requires Slots(kind, more) == map[]
    ensures var slots := Slots(kind, Entries(RootRows(roots, next)) + more);
            && (p in slots <==> SidsAt(roots, p, next) != [])
            && (p in slots ==> slots[p] == SidsAt(roots, p, next))
    decreases |roots|
  {
    hide IsRoot, Entries, RootRows;
    var es := Entries(RootRows(roots, next));
    if roots == [] {
      NoRootRows(next);
      assert es + more == more;
    } else {
      RootEntries(roots, next);
      assert (es + more)[0] == es[0] && (es + more)[1..] == es[1..] + more;
      RootSlots(kind, roots[1..], next + 1, more, p);
      if roots[0].0 == p && kind == Inventory {
        NobodyElse(roots[1..], p, next + 1);
      }
    }
  }

  lemma NoRootRows(next: nat)
    ensures Entries(RootRows([], next)) == []
  {
  }

  lemma {:induction false} NobodyElse(roots: seq<Root>, p: int, next: nat)
    requires forall k :: 0 <= k < |roots| ==> roots[k].0 != p
    ensures SidsAt(roots, p, next) == []
    decreases |roots|
  {
    if roots != [] {
      NobodyElse(roots[1..], p, next + 1);
    }
  }

  lemma {:induction false} TreesUnderSids(g: Forest, roots: seq<Root>, p: int, next: nat)
    requires Complete(g, Items(roots), next) && next >= FIRST_ID
    ensures RepresentsAll(g, FIRST_ID, SidsAt(roots, p, next), TreesAt(roots, p))
    decreases |roots|
  {
    hide Represents;
    if roots != [] {
      assert Items(roots)[1..] == Items(roots[1..]);
      TreesUnderSids(g, roots[1..], p, next + 1);
      var hs, ts := SidsAt(roots[1..], p, next + 1), TreesAt(roots[1..], p);
      if roots[0].0 == p {
        var hs', ts' := [next + 1] + hs, [roots[0].1] + ts;
        assert SidsAt(roots, p, next) == hs' && TreesAt(roots, p) == ts';
        forall k | 0 <= k < |ts'|
          ensures hs'[k] > FIRST_ID && Represents(g, hs'[k], ts'[k])
        {
          if k > 0 {
            assert hs'[k] == hs[k - 1] && ts'[k] == ts[k - 1];
          }
        }
      } else {
        assert SidsAt(roots, p, next) == hs && TreesAt(roots, p) == ts;
      }
    }
  }

  /** What a slot holds: nothing, or objects that stand for exactly the trees saved under it, in order,
      with every cached weight right. */
  ghost predicate Restored(g: Forest, slots: map<int, seq<Handle>>, roots: seq<Root>, p: int) {
    && (p in slots <==> TreesAt(roots, p) != [])
    && (p in slots ==> RepresentsAll(g, FIRST_ID, slots[p], TreesAt(roots, p)))
  }

  lemma RowsBack(kind: Kind, roots: seq<Root>, f: Forest, d: Depths, p: int)
    requires SavableRoots(kind, f.types, roots) && Loaded(f, d, Table(f.types, roots))
    ensures var entries := Entries(Table(f.types, roots));
            Inv(Relink(kind, f, d, entries).0, Relink(kind, f, d, entries).1)
            && Restored(Relink(kind, f, d, entries).0, Slots(kind, entries), roots, p)
  {
    hide Inv, Relink, Slots, Loaded, Complete, SidsAt, TreesAt, RepresentsAll, Emit, RootRows, SavableAll, ChildQueue;
    TableRelinks(kind, roots, f, d);
    var g := Relink(kind, f, d, Entries(Table(f.types, roots))).0;
    TreesUnderSids(g, roots, p, FIRST_ID);
    SameLength(g, SidsAt(roots, p, FIRST_ID), TreesAt(roots, p));
    var later := Emit(f.types, ChildQueue(f.types, Items(roots), FIRST_ID), FIRST_ID + |roots|);
    LaterNotRoots(kind, f.types, roots);
    assert Entries(Table(f.types, roots)) == Entries(RootRows(roots, FIRST_ID)) + Entries(later);
    RootSlots(kind, roots, FIRST_ID, Entries(later), p);
  }

  /** Row round trip: re-linking the rows of the table rebuilds the whole forest, slot by slot. */
  lemma RowRoundTrip(kind: Kind, roots: seq<Root>, f: Forest, d: Depths, p: int)
    requires SavableAll(f.types, Items(roots))
    requires forall k :: 0 <= k < |roots| ==> if kind == Inventory then 1 <= roots[k].0 <= 11 else 0 <= roots[k].0 <= 99
    requires kind == Inventory ==> forall j, k :: 0 <= j < k < |roots| ==> roots[j].0 != roots[k].0
    requires Loaded(f, d, Table(f.types, roots))
    ensures var entries := Entries(Table(f.types, roots));
            Inv(Relink(kind, f, d, entries).0, Relink(kind, f, d, entries).1)
            && Restored(Relink(kind, f, d, entries).0, Slots(kind, entries), roots, p)
  {
    hide Inv, Relink, Slots, Loaded, Restored;
    RootsSavable(kind, f.types, roots);
    hide SavableRoots;
    RowsBack(kind, roots, f, d, p);
  }

  lemma RootsSavable(kind: Kind, types: ItemTypes, roots: seq<Root>)
    requires SavableAll(types, Items(roots))
    requires forall k :: 0 <= k < |roots| ==> if kind == Inventory then 1 <= roots[k].0 <= 11 else 0 <= roots[k].0 <= 99
    requires kind == Inventory ==> forall j, k :: 0 <= j < k < |roots| ==> roots[j].0 != roots[k].0
    ensures SavableRoots(kind, types, roots)
  {
  }

  lemma SameLength(g: Forest, hs: seq<Handle>, ts: seq<Item>)
    requires RepresentsAll(g, FIRST_ID, hs, ts)
    ensures |hs| == |ts|
  {
  }

  lemma LaterNotRoots(kind: Kind, types: ItemTypes, roots: seq<Root>)
    ensures Slots(kind, Entries(Emit(types, ChildQueue(types, Items(roots), FIRST_ID), FIRST_ID + |roots|))) == map[]
  {
    hide Emit, ChildQueue;
    var queue := ChildQueue(types, Items(roots), FIRST_ID);
    var rows := Emit(types, queue, FIRST_ID + |roots|);
    ChildQueueIncreasing(types, Items(roots), FIRST_ID);
    forall k | 0 <= k < |rows|
      ensures !IsRoot(kind, rows[k].pid)
    {
      EmitGapless(types, queue, FIRST_ID + |roots|, FIRST_ID, k);
    }
    NoSlots(kind, Entries(rows));
  }

  // ---------- the loader ----------

  /** Rows whose type can no longer be created are passed over. */
  function Known(types: ItemTypes, rows: seq<Row>): seq<Row> {
    if rows == [] then [] else (if rows[0].id in types then [rows[0]] else []) + Known(types, rows[1..])
  }

  lemma {:induction false} AllKnown(types: ItemTypes, rows: seq<Row>)
    requires forall k :: 0 <= k < |rows| ==> rows[k].id in types
    ensures Known(types, rows) == rows
    decreases |rows|
  {
    if rows != [] {
      AllKnown(types, rows[1..]);
    }
  }

  /** A table sorted by sid in which every parent comes before its children, as saveItems leaves it. */
  ghost predicate Ordered(kind: Kind, rows: seq<Row>) {
    && (forall j, k :: 0 <= j < k < |rows| ==> rows[j].sid < rows[k].sid)
    && (forall k :: 0 <= k < |rows| && !IsRoot(kind, rows[k].pid) ==> rows[k].pid < rows[k].sid)
  }

  class Loader {
    const store: Store
    /** The item map, in key order. */
    var itemMap: seq<Entry>
    var slots: map<int, seq<Handle>>

    constructor (store: Store)
      ensures this.store == store && itemMap == [] && slots == map[]
    {
      this.store, itemMap, slots := store, [], map[];
    }

    /** loadItems; the query hands out the rows last to first. */
    method LoadItems(rows: seq<Row>)
      requires store.Sound() && store.info == map[] && store.parent == map[]
      requires forall j, k :: 0 <= j < k < |rows| ==> rows[j].sid < rows[k].sid
      modifies this, store
      ensures store.Sound() && store.parent == map[] && slots == old(slots)
      ensures itemMap == Entries(Known(store.types, rows)) && RowsFresh(store.State(), Known(store.types, rows))
      ensures forall h :: h in store.info ==> exists k :: 0 <= k < |rows| && rows[k].sid == h
    {
      hide Inv, Known, Entries, RowsFresh, Created;
      itemMap := [];
      var i := |rows|;
      NoRows(store.types, store.State());
      assert rows[i..] == [];
      while i > 0
        invariant 0 <= i <= |rows|
        invariant store.Sound() && store.parent == map[] && slots == old(slots)
        invariant itemMap == Entries(Known(store.types, rows[i..])) && RowsFresh(store.State(), Known(store.types, rows[i..]))
        invariant forall h :: h in store.info ==> exists k :: i <= k < |rows| && rows[k].sid == h
      {
        i := i - 1;
        var row := rows[i];
        KnownFrom(store.types, rows, i);
        ghost var f, d, known := store.State(), store.depths, Known(store.types, rows[i + 1..]);
        if row.id in store.types {
          LoadRow(row);
          FreshAfterCreate(f, d, row, known);
          EntriesFrom(row, known);
        }
      }
      assert rows[0..] == rows;
    }

    /** One row with a creatable item. */
    method LoadRow(row: Row)
      requires store.Sound() && row.sid !in store.info && row.id in store.types
      modifies `itemMap, store
      ensures store.Sound() && store.State() == Created(old(store.State()), row.sid, RowInfo(store.types, row))
      ensures store.info.Keys == old(store.info).Keys + {row.sid} && store.parent == old(store.parent)
      ensures itemMap == [(row.sid, row.pid)] + old(itemMap)
    {
      hide Inv, RowInfo, ReadBlocks;
      var stream := new PropStream(row.attributes);
      var attrs := UnserializeAttr(stream, store.types[row.id].container);
      InfoOfRow(store.types, row);
      store.NewItem(row.sid, LoadedInfo(row.id, row.count, attrs.attrs), Box(true, 0, false, false, false));
      itemMap := [(row.sid, row.pid)] + itemMap;
    }

    /** The loop of loadPlayer that puts every item where it belongs, last to first. */
    method LinkItems(kind: Kind)
      requires store.Sound() && store.parent == map[] && slots == map[]
      requires forall j, k :: 0 <= j < k < |itemMap| ==> itemMap[j].0 < itemMap[k].0
      requires forall k :: 0 <= k < |itemMap| ==> itemMap[k].0 in store.info
      requires forall k :: 0 <= k < |itemMap| && !IsRoot(kind, itemMap[k].1) ==> itemMap[k].1 < itemMap[k].0
      modifies `slots, store
      ensures store.Sound() && slots == Slots(kind, itemMap)
      ensures (store.State(), store.depths) == Relink(kind, old(store.State()), old(store.depths), itemMap)
    {
      hide Inv, Added, CanLink, Slots, Relink;
      ghost var f, d := store.State(), store.depths;
      var i := |itemMap|;
      LinkNone(kind, f, d);
      assert itemMap[i..] == [];
      while i > 0
        invariant 0 <= i <= |itemMap|
        invariant store.Sound() && store.info == f.info
        invariant slots == Slots(kind, itemMap[i..])
        invariant (store.State(), store.depths) == Relink(kind, f, d, itemMap[i..])
        invariant forall y :: y in store.parent ==> i < |itemMap| && y >= itemMap[i].0
      {
        i := i - 1;
        LinkStep(kind, f, d, itemMap, i);
        var sid, pid := itemMap[i].0, itemMap[i].1;
        if IsRoot(kind, pid) {
          slots := PutRoot(kind, slots, itemMap[i]);
        } else if pid >= 0 && pid in store.items {
          Attach(sid, pid);
        } else {
          NoContainer(store.State(), store.depths, pid, sid);
        }
      }
      assert itemMap[0..] == itemMap;
    }

    /** container->internalAddThing(item), with an item that is still on its own and a container made
        before it. */
    method Attach(sid: Handle, pid: Handle)
      requires store.Sound() && pid in store.items && pid < sid && sid in store.info
      requires sid !in store.parent && pid !in store.parent
      modifies store
      ensures store.Sound() && store.info == old(store.info) && store.parent == old(store.parent)[sid := pid]
      ensures CanLink(old(store.State()), old(store.depths), pid, sid)
      ensures store.State() == Added(old(store.State()), old(store.depths), pid, 0, sid)
      ensures store.depths == DepthsLinked(old(store.State()), old(store.depths), pid, sid)
    {
      AddToRoot(store.State(), store.depths, pid, sid);
      store.InternalAddThing(pid, sid);
    }
  }

  lemma InfoOfRow(types: ItemTypes, row: Row)
    requires row.id in types
    ensures RowInfo(types, row) == LoadedInfo(row.id, row.count, ReadBlocks(row.attributes, types[row.id].container).attrs)
  {
  }

  lemma NoRows(types: ItemTypes, f: Forest)
    ensures Known(types, []) == [] && Entries([]) == [] && RowsFresh(f, [])
  {
  }

  lemma KnownFrom(types: ItemTypes, rows: seq<Row>, i: nat)
    requires i < |rows|
    ensures Known(types, rows[i..])
         == if rows[i].id in types then [rows[i]] + Known(types, rows[i + 1..]) else Known(types, rows[i + 1..])
  {
    assert rows[i..][1..] == rows[i + 1..];
  }

  lemma EntriesFrom(row: Row, known: seq<Row>)
    ensures Entries([row] + known) == [(row.sid, row.pid)] + Entries(known)
  {
  }

  lemma FreshAfterCreate(f: Forest, d: Depths, row: Row, known: seq<Row>)
    requires Inv(f, d) && RowsFresh(f, known) && row.sid !in f.info && row.id in f.types
    ensures RowsFresh(Created(f, row.sid, RowInfo(f.types, row)), [row] + known)
  {
    hide RowInfo, Fresh, Created;
    var f', all := Created(f, row.sid, RowInfo(f.types, row)), [row] + known;
    FreshCreated(f, d, row);
    forall k | 0 <= k < |all|
      ensures Fresh(f', all[k].sid, RowInfo(f'.types, all[k]))
    {
      if k > 0 {
        assert all[k] == known[k - 1];
        FreshStays(f, d, row.sid, RowInfo(f.types, row), all[k].sid, RowInfo(f.types, all[k]));
      }
    }
  }

  lemma FreshCreated(f: Forest, d: Depths, row: Row)
    requires Inv(f, d) && row.sid !in f.info
    ensures var f' := Created(f, row.sid, RowInfo(f.types, row)); f'.types == f.types && Fresh(f', row.sid, RowInfo(f.types, row))
  {
  }

  lemma FreshStays(f: Forest, d: Depths, h: Handle, what: Info, y: Handle, other: Info)
    requires Inv(f, d) && h !in f.info && Fresh(f, y, other)
    ensures Fresh(Created(f, h, what), y, other)
  {
  }

  lemma LinkNone(kind: Kind, f: Forest, d: Depths)
    ensures Relink(kind, f, d, []) == (f, d) && Slots(kind, []) == map[]
  {
  }

  lemma LinkStep(kind: Kind, f: Forest, d: Depths, es: seq<Entry>, i: nat)
    requires i < |es|
    ensures var (g, e) := Relink(kind, f, d, es[i + 1..]);
            Relink(kind, f, d, es[i..]) == LinkRow(kind, g, e, es[i])
    ensures Slots(kind, es[i..]) == PutRoot(kind, Slots(kind, es[i + 1..]), es[i])
  {
    assert es[i..][1..] == es[i + 1..] && es[i..][0] == es[i];
  }

  lemma NoContainer(f: Forest, d: Depths, pid: int, sid: Handle)
    requires pid < 0 || pid !in f.items
    ensures pid >= 0 ==> !CanLink(f, d, pid, sid)
  {
  }

  lemma TableOrdered(kind: Kind, types: ItemTypes, roots: seq<Root>)
    requires SavableRoots(kind, types, roots)
    ensures var rows := Table(types, roots);
            && Ordered(kind, rows)
            && (forall k :: 0 <= k < |rows| ==> rows[k].id in types)
  {
    hide Table, SavableAll;
    TableKnown(types, roots);
    var rows := Table(types, roots);
    forall k | 0 <= k < |rows|
      ensures rows[k].sid == FIRST_ID + 1 + k && (!IsRoot(kind, rows[k].pid) ==> rows[k].pid < rows[k].sid)
    {
      TableGapless(types, roots, k);
    }
  }

  lemma LoadedFor(f: Forest, d: Depths, rows: seq<Row>)
    requires Inv(f, d) && f.parent == map[] && RowsFresh(f, rows)
    ensures Loaded(f, d, rows)
    ensures forall k :: 0 <= k < |rows| ==> rows[k].sid in f.info
  {
  }

  lemma AllRowsBack(kind: Kind, roots: seq<Root>, f: Forest, d: Depths)
    requires SavableRoots(kind, f.types, roots) && Loaded(f, d, Table(f.types, roots))
    ensures var entries := Entries(Table(f.types, roots));
            forall p :: Restored(Relink(kind, f, d, entries).0, Slots(kind, entries), roots, p)
  {
    hide *;
    forall p
      ensures var entries := Entries(Table(f.types, roots)); Restored(Relink(kind, f, d, entries).0, Slots(kind, entries), roots, p)
    {
      RowsBack(kind, roots, f, d, p);
    }
  }

  /** The load half: the rows of the table, into an empty store. */
  method ReadBack(kind: Kind, types: ItemTypes, ghost roots: seq<Root>, rows: seq<Row>) returns (loader: Loader)
    requires SavableRoots(kind, types, roots) && rows == Table(types, roots)
    ensures fresh(loader) && fresh(loader.store) && loader.store.Sound()
    ensures forall p :: Restored(loader.store.State(), loader.slots, roots, p)
  {
    hide Relink, Slots, Table, Loaded, Restored, SavableRoots, Inv;
    TableOrdered(kind, types, roots);
    var store := new Store(types);
    loader := new Loader(store);
    loader.LoadItems(rows);
    AllKnown(types, rows);
    LoadedFor(store.State(), store.depths, rows);
    ghost var f, d := store.State(), store.depths;
    loader.LinkItems(kind);
    AllRowsBack(kind, roots, f, d);
  }

  /** Saving the roots and loading the rows into an empty store brings the forest back: of items that rows can
      hold, stored under the numbers 1 to 11 of the inventory slots, one each, or 0 to 99 of the depot chests. */
  method SaveThenLoad(kind: Kind, types: ItemTypes, roots: seq<Root>) returns (loader: Loader)
    requires SavableAll(types, Items(roots))
    requires forall k :: 0 <= k < |roots| ==> if kind == Inventory then 1 <= roots[k].0 <= 11 else 0 <= roots[k].0 <= 99
    requires kind == Inventory ==> forall j, k :: 0 <= j < k < |roots| ==> roots[j].0 != roots[k].0
    ensures fresh(loader) && fresh(loader.store) && loader.store.Sound()
    ensures forall p :: Restored(loader.store.State(), loader.slots, roots, p)
    ensures forall p :: p in loader.slots <==> TreesAt(roots, p) != []
    ensures forall p :: p in loader.slots ==> RepresentsAll(loader.store.State(), 100, loader.slots[p], TreesAt(roots, p))
  {
    RootsSavable(kind, types, roots);
    hide SavableRoots, RepresentsAll, TreesAt;
    var rows := SaveItems(types, roots);
    loader := ReadBack(kind, types, roots, rows);
    forall p
      ensures p in loader.slots <==> TreesAt(roots, p) != []
      ensures p in loader.slots ==> RepresentsAll(loader.store.State(), 100, loader.slots[p], TreesAt(roots, p))
    {
      assert Restored(loader.store.State(), loader.slots, roots, p);
    }
  }
}
