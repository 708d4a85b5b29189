/** Moving an item from one container to another: what removal and insertion conserve, and what
    Game::internalMoveItem makes of them. */
module ItemTransfers {
  import opened Bytes
  import opened ItemForest
  import opened ItemMoves
  import opened ItemStore
  import opened ItemQueries

  // ---------- one move ----------

  /** Where in its container x lies. */
  ghost function Slot(f: Forest, x: Handle): nat {
    if x in f.parent && f.parent[x] in f.items && x in f.items[f.parent[x]] then Position(f.items[f.parent[x]], x) else 0
  }

  lemma SlotHolds(f: Forest, d: Depths, x: Handle)
    requires Valid(f, d) && x in f.parent
    ensures f.parent[x] in f.items && Slot(f, x) < |f.items[f.parent[x]]| && f.items[f.parent[x]][Slot(f, x)] == x
  {
  }

  ghost function TakenOut(f: Forest, d: Depths, x: Handle): Forest {
    if x in f.parent then Removed(f, d, f.parent[x], Slot(f, x)) else f
  }

  /** removeThing from where x lies, then addThing to c2 at the given index. */
  ghost function Moved(f: Forest, d: Depths, x: Handle, c2: Handle, index: int, capacity: nat): (Forest, Depths) {
    var f1, d1 := TakenOut(f, d, x), DepthsUnlinked(f, d, x);
    if index >= capacity then (f1, d1) else (Added(f1, d1, c2, 0, x), DepthsLinked(f1, d1, c2, x))
  }

  function Without(list: seq<Handle>, i: nat): seq<Handle> {
    if i < |list| then list[..i] + list[i + 1..] else list
  }

  lemma TakenOutFields(f: Forest, d: Depths, x: Handle)
    requires Valid(f, d) && x in f.parent
    ensures var f1 := TakenOut(f, d, x);
            && f1.parent == f.parent - {x} && f1.info == f.info && f1.types == f.types
            && f1.items == f.items[f.parent[x] := Without(f.items[f.parent[x]], Slot(f, x))]
  {
    hide Wrap, AsInt32, Weight, Above, Ranked, Mirrored;
    SlotHolds(f, d, x);
  }

  lemma TakenOutAbove(f: Forest, d: Depths, x: Handle, a: Handle, y: Handle)
    requires Valid(f, d) && x in f.parent && y in f.info && !Above(f, d, x, y)
    ensures Above(TakenOut(f, d, x), DepthsUnlinked(f, d, x), a, y) == Above(f, d, a, y)
  {
    hide Wrap, AsInt32, Weight, Mirrored, Ranked, DepthsLinked, DepthsUnlinked, Above, Linked, Unlinked, CanLink, Slot;
    SlotHolds(f, d, x);
    var c1, i := f.parent[x], Slot(f, x);
    var f0, d1 := Unlinked(f, c1, i), DepthsUnlinked(f, d, x);
    UnlinkThenLink(f, d, c1, i);
    UnlinkTotals(f, c1, i);
    LinkAbove(f0, d1, c1, i, x, a, y);
    LinkAbove(f0, d1, c1, i, x, x, y);
    RemovedLinks(f, d, c1, i);
    SameLinksAbove(f0, TakenOut(f, d, x), d1, a, y);
  }

  lemma RemovedLinks(f: Forest, d: Depths, c: Handle, i: nat)
    requires c in f.items && i < |f.items[c]|
    ensures Removed(f, d, c, i).parent == Unlinked(f, c, i).parent
    ensures Removed(f, d, c, i).info == Unlinked(f, c, i).info
  {
  }

  /** After x has left its container it can be put into any container it does not hold. */
  lemma MoveCanLink(f: Forest, d: Depths, x: Handle, c2: Handle)
    requires Inv(f, d) && x in f.parent && c2 in f.items && !Above(f, d, x, c2)
    ensures Inv(TakenOut(f, d, x), DepthsUnlinked(f, d, x))
    ensures CanLink(TakenOut(f, d, x), DepthsUnlinked(f, d, x), c2, x)
  {
    hide Weighed, Mirrored, Ranked, DepthsUnlinked, Above, Removed, Slot;
    SlotHolds(f, d, x);
    RemoveKeeps(f, d, f.parent[x], Slot(f, x));
    TakenOutFields(f, d, x);
    TakenOutAbove(f, d, x, x, c2);
  }

  /** A guarded move keeps every invariant and every other item where it was. The item itself ends up
      first in the new container exactly when the index is below the capacity; otherwise it is in no
      container at all. */
  lemma MoveConserves(f: Forest, d: Depths, x: Handle, c2: Handle, index: int, capacity: nat)
    requires Inv(f, d) && x in f.parent && c2 in f.items && !Above(f, d, x, c2)
    ensures var (f', d') := Moved(f, d, x, c2, index, capacity);
            && Inv(f', d') && f'.info == f.info && f'.types == f.types
            && (x in f'.parent <==> index < capacity)
            && f'.parent == (if index < capacity then f.parent[x := c2] else f.parent - {x})
            && f.parent[x] in f.items
            && var left := f.items[f.parent[x] := Without(f.items[f.parent[x]], Slot(f, x))];
               f'.items == if index < capacity then left[c2 := [x] + left[c2]] else left
  {
    hide Inv, Weight, TakenOut, DepthsUnlinked, DepthsLinked, Above, Without, Slot, Added, CanLink;
    assert Valid(f, d) by { InvMeans(f, d); }
    SlotHolds(f, d, x);
    MoveCanLink(f, d, x, c2);
    TakenOutFields(f, d, x);
    var f1, d1 := TakenOut(f, d, x), DepthsUnlinked(f, d, x);
    if index < capacity {
      AddKeeps(f1, d1, c2, 0, x);
      AddedFields(f1, d1, c2, x);
    }
  }

  lemma InvMeans(f: Forest, d: Depths)
    requires Inv(f, d)
    ensures Valid(f, d) && Weighed(f, d)
  {
  }

  lemma AddedFields(f: Forest, d: Depths, c: Handle, x: Handle)
    requires c in f.items
    ensures var f' := Added(f, d, c, 0, x);
            && f'.parent == f.parent[x := c] && f'.info == f.info && f'.types == f.types
            && f'.items == f.items[c := [x] + f.items[c]]
  {
    assert f.items[c][..0] + [x] + f.items[c][0..] == [x] + f.items[c];
  }

  /** Moving an item around inside a container leaves that container's cached weight alone. */
  lemma MoveInsideKeepsWeight(f: Forest, d: Depths, x: Handle, c2: Handle, index: int, capacity: nat, h: Handle)
    requires Inv(f, d) && x in f.parent && c2 in f.items && !Above(f, d, x, c2) && index < capacity
    requires h in f.items && Above(f, d, h, f.parent[x]) && Above(f, d, h, c2)
    ensures h in Moved(f, d, x, c2, index, capacity).0.total
    ensures Moved(f, d, x, c2, index, capacity).0.total[h] == f.total[h]
  {
    hide Inv, Moved, Above, Inside, Without, Slot;
    MoveConserves(f, d, x, c2, index, capacity);
    var (f', d') := Moved(f, d, x, c2, index, capacity);
    SameInsideAfterMove(f, d, x, c2, index, capacity, h);
    SameOwn(f, f', Inside(f, d, h));
    WeighedAt(f, d, h);
    WeighedAt(f', d', h);
  }

  lemma WeighedAt(f: Forest, d: Depths, h: Handle)
    requires Inv(f, d) && h in f.items
    ensures h in f.total && f.total[h] == Wrap(Sum(f, Inside(f, d, h)))
  {
  }

  lemma SameInsideAfterMove(f: Forest, d: Depths, x: Handle, c2: Handle, index: int, capacity: nat, h: Handle)
    requires Inv(f, d) && x in f.parent && c2 in f.items && !Above(f, d, x, c2) && index < capacity
    requires h in f.items && Above(f, d, h, f.parent[x]) && Above(f, d, h, c2)
    ensures var (f', d') := Moved(f, d, x, c2, index, capacity);
            Inside(f', d', h) == Inside(f, d, h)
  {
    hide Inv, Valid, Above, Inside, Subtree, CanLink, DepthsUnlinked, DepthsLinked, TakenOut, Linked, Added;
    var f1, d1 := TakenOut(f, d, x), DepthsUnlinked(f, d, x);
    HoldersExist(f, d, h);
    HoldersExist(f, d, c2);
    TakenOutFields(f, d, x);
    TakenOutInside(f, d, x, h);
    MoveCanLink(f, d, x, c2);
    TakenOutAbove(f, d, x, h, c2);
    LinkedInside(f1, d1, c2, x, h);
    AddedLinks(f1, d1, c2, x);
    SameLinksInside(Linked(f1, c2, 0, x), Added(f1, d1, c2, 0, x), DepthsLinked(f1, d1, c2, x), h);
  }

  lemma HoldersExist(f: Forest, d: Depths, h: Handle)
    requires Inv(f, d) && h in f.items
    ensures Valid(f, d) && h in f.info
  {
  }

  lemma AddedLinks(f: Forest, d: Depths, c: Handle, x: Handle)
    ensures Added(f, d, c, 0, x).parent == Linked(f, c, 0, x).parent
    ensures Added(f, d, c, 0, x).info == Linked(f, c, 0, x).info
  {
  }

  lemma TakenOutInside(f: Forest, d: Depths, x: Handle, h: Handle)
    requires Inv(f, d) && x in f.parent && h in f.items && Above(f, d, h, f.parent[x])
    ensures Inside(f, d, h) == Inside(TakenOut(f, d, x), DepthsUnlinked(f, d, x), h) + Subtree(TakenOut(f, d, x), DepthsUnlinked(f, d, x), x)
  {
    hide Wrap, AsInt32, Weight, Mirrored, Ranked, DepthsLinked, DepthsUnlinked, Above, Linked, Unlinked, Slot, Inside, Weighed;
    SlotHolds(f, d, x);
    var c1, i := f.parent[x], Slot(f, x);
    var f0, f1, d1 := Unlinked(f, c1, i), TakenOut(f, d, x), DepthsUnlinked(f, d, x);
    UnlinkThenLink(f, d, c1, i);
    UnlinkTotals(f, c1, i);
    UnlinkAbove(f, d, c1, i, h);
    LinkInside(f0, d1, c1, i, x, h);
    RemovedLinks(f, d, c1, i);
    SameLinksInside(f0, f1, d1, h);
    SameLinksInside(f0, f1, d1, x);
  }

  lemma LinkedInside(f: Forest, d: Depths, c: Handle, x: Handle, h: Handle)
    requires Inv(f, d) && CanLink(f, d, c, x) && h in f.info && Above(f, d, h, c)
    ensures Inside(Linked(f, c, 0, x), DepthsLinked(f, d, c, x), h) == Inside(f, d, h) + Subtree(f, d, x)
  {
    LinkValid(f, d, c, 0, x);
    LinkInside(f, d, c, 0, x, h);
  }

  /** A move that queryAdd allows keeps every invariant and loses nothing but an item put beyond the
      capacity. */
  lemma AllowedMoveConserves(f: Forest, d: Depths, boxes: map<Handle, Box>, x: Handle, c2: Handle, index: int, q: Query)
    requires Inv(f, d) && x in f.parent && Allowed(f, d, boxes, c2, x, q)
    ensures var (f', d') := Moved(f, d, x, c2, index, boxes[c2].capacity);
            && Inv(f', d') && f'.info == f.info && f'.types == f.types
            && (x in f'.parent <==> index < boxes[c2].capacity)
            && f'.parent == (if index < boxes[c2].capacity then f.parent[x := c2] else f.parent - {x})
            && f.parent[x] in f.items
            && var left := f.items[f.parent[x] := Without(f.items[f.parent[x]], Slot(f, x))];
               f'.items == if index < boxes[c2].capacity then left[c2 := [x] + left[c2]] else left
  {
    hide Inv, Moved, Above, Without, Slot, Verdict;
    InvMeans(f, d);
    AllowedMeans(f, d, boxes, c2, x, q);
    MoveConserves(f, d, x, c2, index, boxes[c2].capacity);
  }

  /** An element of a list has the container as its parent and is listed where Slot says. */
  lemma ListedLinks(store: Store, c: Handle, x: Handle)
    requires store.Sound() && c in store.items && x in store.items[c]
    ensures x in store.info && x in store.parent && store.parent[x] == c && Slot(store.State(), x) == Position(store.items[c], x)
  {
    hide Weighed;
    assert Holds(store.State(), c, store.items[c]);
    assert x == store.items[c][Position(store.items[c], x)];
  }

  // ---------- where an item goes ----------

  const MAP_MAX_LAYERS: nat := 16

  /** A call of internalMoveItem: q carries index, count and flags. */
  datatype Request = Request(
    from: Handle, x: Handle, to: Handle, ignoreAutoStack: bool, ignoreNotMoveable: bool, tradeItem: Option<Handle>, q: Query)

  /** Where queryDestination leads: at most one step to another container. */
  function Settled(f: Forest, boxes: map<Handle, Box>, m: Request): (p: Place)
    requires Domains(f) && f.items.Keys <= boxes.Keys && m.to in f.items
    ensures p.c in f.items
  {
    var p := Destination(f, boxes, Place(m.to, m.q.index, None), m.x, m.ignoreAutoStack, m.q.alike);
    if p.c == m.to then p else Destination(f, boxes, p, m.x, false, m.q.alike)
  }

  /** A second step never leads further. */
  lemma SettlesAtOnce(f: Forest, boxes: map<Handle, Box>, m: Request)
    requires Domains(f) && f.items.Keys <= boxes.Keys && m.to in f.items
    ensures var p := Destination(f, boxes, Place(m.to, m.q.index, None), m.x, m.ignoreAutoStack, m.q.alike);
            p.c != m.to ==> Destination(f, boxes, p, m.x, false, m.q.alike).c == p.c
  {
    hide FirstStack;
  }

  /** The query that is left once the place is settled; a step to another container clears the flags. */
  function Asking(m: Request, p: Place): Query {
    m.q.(index := p.index, noLimit := m.q.noLimit && p.c == m.to)
  }

  /** The loop over queryDestination, with its bound. */
  method Settle(store: Store, m: Request) returns (p: Place)
    requires store.Sound() && m.to in store.items
    ensures Domains(store.State()) && p == Settled(store.State(), store.boxes, m)
  {
    hide Weighed, Mirrored, Ranked, Destination;
    SettlesAtOnce(store.State(), store.boxes, m);
    var ignoreAutoStack, toCylinder, floorN := m.ignoreAutoStack, m.to, 0;
    p := QueryDestination(store, Place(m.to, m.q.index, None), m.x, ignoreAutoStack, m.q.alike);
    while p.c != toCylinder
      invariant floorN == 0 ==>
                  toCylinder == m.to && ignoreAutoStack == m.ignoreAutoStack
                  && p == Destination(store.State(), store.boxes, Place(m.to, m.q.index, None), m.x, m.ignoreAutoStack, m.q.alike)
      invariant floorN > 0 ==> p.c == toCylinder && p == Settled(store.State(), store.boxes, m)
      decreases MAP_MAX_LAYERS - floorN
    {
      toCylinder := p.c;
      ignoreAutoStack := false;
      floorN := floorN + 1;
      if floorN >= MAP_MAX_LAYERS {
        break;
      }
      p := QueryDestination(store, p, m.x, ignoreAutoStack, m.q.alike);
    }
  }

  // ---------- what is to be done ----------

  /** The answer: no, nothing to do, or a part of the item goes to a place. */
  datatype Plan = Refused(r: ReturnValue) | Ignored | Moves(p: Place, part: nat, r: ReturnValue)

  /** How much goes; 255 pieces stand for all of them. */
  function Part(f: Forest, x: Handle, count: nat, maxQueryCount: nat): nat
    requires x in f.info
  {
    if Stackable(f, x) then
      var m := if count < maxQueryCount then count else maxQueryCount;
      if m == 255 then f.info[x].count else m
    else maxQueryCount
  }

  ghost predicate Blocked(f: Forest, d: Depths, c: Handle, tradeItem: Option<Handle>) {
    tradeItem.Some? && Above(f, d, tradeItem.value, c)
  }

  /** The requests internalMoveItem is made for. */
  ghost predicate Posed(f: Forest, boxes: map<Handle, Box>, m: Request) {
    Domains(f) && f.items.Keys <= boxes.Keys && m.x in f.info && m.from in f.items && m.to in f.items
  }

  ghost function Planned(f: Forest, d: Depths, boxes: map<Handle, Box>, m: Request): Plan
    requires Posed(f, boxes, m)
  {
    var p := Settled(f, boxes, m);
    var q := Asking(m, p);
    if p.toItem == Some(m.x) then Ignored
    else
      var r := Verdict(f, d, boxes, p.c, m.x, q);
      var (retMax, max) := MaxCount(f, d, boxes, p.c, m.x, q);
      var part := Part(f, m.x, m.q.count, max);
      var taken := Removable(f, m.from, m.x, part, m.ignoreNotMoveable && p.c == m.to);
      if r != NoError then Refused(r)
      else if retMax != NoError && max == 0 then Refused(retMax)
      else if taken != NoError then Refused(taken)
      else if Blocked(f, d, p.c, m.tradeItem) then Refused(NotEnoughRoom)
      else Moves(p, part, if Stackable(f, m.x) && max < m.q.count then retMax else NoError)
  }

  /** Everything internalMoveItem asks before it moves anything. */
  method MakePlan(store: Store, m: Request) returns (plan: Plan)
    requires store.Sound() && m.x in store.info && m.from in store.items && m.to in store.items && !m.q.childIsOwner
    ensures Posed(store.State(), store.boxes, m)
    ensures plan == Planned(store.State(), store.depths, store.boxes, m)
  {
    hide Inv, Settled, Verdict, MaxCount, Removable, Above;
    var p := Settle(store, m);
    if p.toItem == Some(m.x) {
      return Ignored;
    }
    var q := Asking(m, p);
    var r := QueryAdd(store, p.c, m.x, q);
    if r != NoError {
      return Refused(r);
    }
    var retMax, max := QueryMaxCount(store, p.c, m.x, q);
    if retMax != NoError && max == 0 {
      return Refused(retMax);
    }
    var part := Part(store.State(), m.x, m.q.count, max);
    r := QueryRemove(store, m.from, m.x, part, m.ignoreNotMoveable && p.c == m.to);
    if r != NoError {
      return Refused(r);
    }
    var blocked := HoldsTradeItem(store, p.c, m.tradeItem);
    if blocked {
      return Refused(NotEnoughRoom);
    }
    return Moves(p, part, if Stackable(store.State(), m.x) && max < m.q.count then retMax else NoError);
  }

  /** Whether the container is the item being traded or lies in it. */
  method HoldsTradeItem(store: Store, c: Handle, tradeItem: Option<Handle>) returns (blocked: bool)
    requires store.Sound() && c in store.items
    ensures blocked <==> Blocked(store.State(), store.depths, c, tradeItem)
  {
    hide Mirrored, Weighed;
    if tradeItem == None {
      return false;
    }
    var h := c;
    while h in store.parent
      invariant h in store.info
      invariant Above(store.State(), store.depths, tradeItem.value, h) == Above(store.State(), store.depths, tradeItem.value, c)
      decreases Depth(store.depths, h)
    {
      if h == tradeItem.value {
        return true;
      }
      h := store.parent[h];
    }
    return h == tradeItem.value;
  }

  // ---------- what is done ----------

  /** removeThing: a part of a stack is counted down, anything else leaves the container. */
  ghost function Taken(f: Forest, d: Depths, c: Handle, x: Handle, part: nat): (Forest, Depths)
    requires c in f.items && x in f.items[c] && x in f.info
  {
    if Partly(f, x, part) then (Updated(f, d, c, Position(f.items[c], x), Counted(f.info[x], part)), d)
    else (Removed(f, d, c, Position(f.items[c], x)), DepthsUnlinked(f, d, x))
  }

  /** The item joins the stack it meets. */
  predicate Merges(f: Forest, x: Handle, toItem: Option<Handle>, alike: (seq<Block>, seq<Block>) -> bool) {
    Stackable(f, x) && toItem.Some? && Equal(f, x, toItem.value, alike)
  }

  /** How much of a part the stack takes: min<uint32_t>(100 - count, part). */
  function Merged(f: Forest, x: Handle, toItem: Option<Handle>, part: nat, alike: (seq<Block>, seq<Block>) -> bool): (n: nat)
    ensures n <= part
  {
    if !Merges(f, x, toItem, alike) then 0
    else if Wrap(100 - f.info[toItem.value].count) < part then Wrap(100 - f.info[toItem.value].count) else part
  }

  /** The stack with n more, once updateThing has left `left` of its attributes. */
  function Grown(f: Forest, y: Handle, n: nat, left: seq<Block>): Info
    requires y in f.info
  {
    Retyped(f.types, f.info[y], f.info[y].id, f.info[y].count + n, left)
  }

  /** The clone that carries n pieces of x. */
  function Clone(f: Forest, x: Handle, n: nat): Info
    requires x in f.info
  {
    f.info[x].(count := n % 256)
  }

  ghost function Put(f: Forest, d: Depths, c: Handle, index: int, capacity: nat, x: Handle): (Forest, Depths) {
    if index >= capacity then (f, d) else (Added(f, d, c, 0, x), DepthsLinked(f, d, c, x))
  }

  ghost function Joined(f: Forest, d: Depths, c: Handle, y: Handle, what: Info): Forest {
    if c in f.items && y in f.items[c] then Updated(f, d, c, Position(f.items[c], y), what) else f
  }

  /** The state after a part of the item has gone to its place; h is the clone of a stack, if one is made. */
  ghost function Carried(f: Forest, d: Depths, m: Request, p: Place, part: nat, capacity: nat, h: Handle, left: seq<Block>): (Forest, Depths)
    requires m.from in f.items && m.x in f.items[m.from] && m.x in f.info
  {
    var (f1, d1) := Taken(f, d, m.from, m.x, part);
    if !Stackable(f, m.x) then Put(f1, d1, p.c, p.index, capacity, m.x)
    else
      var n := Merged(f, m.x, p.toItem, part, m.q.alike);
      var f2 := if Merges(f, m.x, p.toItem, m.q.alike) then Joined(f1, d1, p.c, p.toItem.value, Grown(f, p.toItem.value, n, left)) else f1;
      if part == n then (f2, d1)
      else Put(Created(f2, h, Clone(f, m.x, part - n)), d1[h := 0], p.c, p.index, capacity, h)
  }

  lemma UpdatedFields(f: Forest, d: Depths, c: Handle, i: nat, what: Info)
    requires c in f.items && i < |f.items[c]|
    ensures var f' := Updated(f, d, c, i, what);
            && f'.parent == f.parent && f'.items == f.items && f'.types == f.types
            && f'.info == f.info[f.items[c][i] := what]
  {
    hide Above, Weight, Difference;
  }

  lemma TakenKeeps(f: Forest, d: Depths, c: Handle, x: Handle, part: nat, c2: Handle)
    requires Inv(f, d) && c in f.items && x in f.items[c] && c2 in f.items && !Above(f, d, x, c2)
    ensures x in f.info && x in f.parent && f.parent[x] == c
    ensures var (f1, d1) := Taken(f, d, c, x, part);
            && Inv(f1, d1) && f1.types == f.types
            && f1.info == InfoTaken(f, x, part) && f1.parent == ParentTaken(f, x, part)
            && f1.items == (if Partly(f, x, part) then f.items else f.items[c := Without(f.items[c], Position(f.items[c], x))])
            && (!Partly(f, x, part) ==> CanLink(f1, d1, c2, x))
  {
    hide Inv, Above, Removed, Updated, DepthsUnlinked, CanLink, Counted, Without, Weight;
    var i := Position(f.items[c], x);
    InvMeans(f, d);
    InList(f, d, c, i);
    hide Valid;
    if Partly(f, x, part) {
      UpdateKeeps(f, d, c, i, Counted(f.info[x], part));
      UpdatedFields(f, d, c, i, Counted(f.info[x], part));
    } else {
      RemoveKeeps(f, d, c, i);
      TakenOutIs(f, d, c, x);
      TakenOutFields(f, d, x);
      MoveCanLink(f, d, x, c2);
    }
  }

  lemma TakenOutIs(f: Forest, d: Depths, c: Handle, x: Handle)
    requires x in f.parent && f.parent[x] == c && c in f.items && x in f.items[c]
    ensures Slot(f, x) == Position(f.items[c], x) && TakenOut(f, d, x) == Removed(f, d, c, Position(f.items[c], x))
  {
    hide Removed;
  }

  lemma JoinedKeeps(f: Forest, d: Depths, c: Handle, y: Handle, what: Info)
    requires Inv(f, d) && c in f.items && y in f.items[c]
    ensures var f' := Joined(f, d, c, y, what);
            Inv(f', d) && f'.types == f.types && f'.info == f.info[y := what] && f'.parent == f.parent && f'.items == f.items
  {
    hide Inv, Updated;
    var i := Position(f.items[c], y);
    UpdateKeeps(f, d, c, i, what);
    UpdatedFields(f, d, c, i, what);
  }

  lemma PutKeeps(f: Forest, d: Depths, c: Handle, index: int, capacity: nat, x: Handle)
    requires Inv(f, d) && CanLink(f, d, c, x)
    ensures var (f', d') := Put(f, d, c, index, capacity, x);
            && Inv(f', d') && f'.types == f.types && f'.info == f.info
            && f'.parent == (if index < capacity then f.parent[x := c] else f.parent)
            && f'.items == (if index < capacity then f.items[c := [x] + f.items[c]] else f.items)
  {
    hide Inv, Added, DepthsLinked, Above;
    if index < capacity {
      AddKeeps(f, d, c, 0, x);
      AddedFields(f, d, c, x);
    }
  }

  /** A new item that is no container can go anywhere. */
  lemma NewItemLinks(f: Forest, d: Depths, c: Handle, h: Handle, what: Info)
    requires Inv(f, d) && h !in f.info && c in f.items && !IsContainer(f.types, what)
    ensures var f' := Created(f, h, what);
            && Inv(f', d[h := 0]) && CanLink(f', d[h := 0], c, h) && f'.types == f.types
            && f'.info == f.info[h := what] && f'.parent == f.parent && f'.items == f.items
  {
    hide Weighed, Mirrored, Ranked, Above;
    CreateKeeps(f, d, h, what);
    CreateAbove(f, d, h, what, h, c);
    assert h !in f.parent;
  }

  /** No item type both stacks and holds things. */
  predicate StacksHoldNothing(types: ItemTypes) {
    forall id :: id in types ==> !(types[id].stackable && types[id].container)
  }

  /** What a plan to move relies on. */
  ghost predicate Ready(f: Forest, d: Depths, boxes: map<Handle, Box>, m: Request, p: Place) {
    && StacksHoldNothing(f.types) && f.items.Keys <= boxes.Keys && p.c in f.items
    && m.from in f.items && m.x in f.items[m.from] && !Above(f, d, m.x, p.c)
    && p.toItem != Some(m.x) && (p.toItem.Some? ==> p.toItem.value in f.items[p.c])
  }

  /** The stack it meets is still there once the item is taken. */
  lemma StillListed(list: seq<Handle>, x: Handle, y: Handle)
    requires x in list && y in list && y != x
    ensures y in Without(list, Position(list, x))
  {
    var i, j := Position(list, x), Position(list, y);
    if j < i {
      assert list[..i][j] == y;
    } else {
      assert list[i + 1..][j - i - 1] == y;
    }
  }

  /** Carrying out a plan keeps links and weights right, and touches only the item, the stack it joins
      and the clone. */
  lemma CarriedKeeps(f: Forest, d: Depths, boxes: map<Handle, Box>, m: Request, p: Place, part: nat, h: Handle, left: seq<Block>)
    requires Inv(f, d) && Ready(f, d, boxes, m, p) && h !in f.info
    ensures m.x in f.info && m.x in f.parent && f.parent[m.x] == m.from
    ensures p.toItem.Some? ==> p.toItem.value in f.info
    ensures var (f', d') := Carried(f, d, m, p, part, boxes[p.c].capacity, h, left);
            && Inv(f', d') && f'.types == f.types && f'.items.Keys == f.items.Keys
            && f'.info == InfoAfter(f, m, p, part, h, left)
            && f'.parent == ParentAfter(f, m, p, part, boxes[p.c].capacity, h)
  {
    hide Inv, Above, Taken, Joined, Put, Created, CanLink, Merged, Grown, Without, DepthsUnlinked, Equal, Clone, InfoTaken, ParentTaken;
    var c := p.c;
    TakenKeeps(f, d, m.from, m.x, part, c);
    var (f1, d1) := Taken(f, d, m.from, m.x, part);
    if p.toItem.Some? {
      MeetsItem(f, d, c, p.toItem.value);
    }
    if !Stackable(f, m.x) {
      PutKeeps(f1, d1, c, p.index, boxes[c].capacity, m.x);
    } else {
      var n := Merged(f, m.x, p.toItem, part, m.q.alike);
      var f2 := f1;
      if Merges(f, m.x, p.toItem, m.q.alike) {
        var y := p.toItem.value;
        if m.from == c {
          StillListed(f.items[c], m.x, y);
        }
        JoinedKeeps(f1, d1, c, y, Grown(f, y, n, left));
        f2 := Joined(f1, d1, c, y, Grown(f, y, n, left));
      }
      if part != n {
        CloneKeeps(f, f2, d1, m, c, p.index, boxes[c].capacity, h, part - n);
      }
    }
  }

  lemma MeetsItem(f: Forest, d: Depths, c: Handle, y: Handle)
    requires Inv(f, d) && c in f.items && y in f.items[c]
    ensures y in f.info && y in f.parent && f.parent[y] == c
  {
    InList(f, d, c, Position(f.items[c], y));
  }

  lemma CloneKeeps(f: Forest, f2: Forest, d: Depths, m: Request, c: Handle, index: int, capacity: nat, h: Handle, n: nat)
    requires Inv(f2, d) && h !in f2.info && c in f2.items && f2.types == f.types
    requires StacksHoldNothing(f.types) && Stackable(f, m.x)
    ensures var f3 := Created(f2, h, Clone(f, m.x, n));
            var (f', d') := Put(f3, d[h := 0], c, index, capacity, h);
            && Inv(f', d') && f'.types == f.types
            && f'.info == f2.info[h := Clone(f, m.x, n)]
            && f'.parent == (if index < capacity then f2.parent[h := c] else f2.parent)
            && f'.items == (if index < capacity then f2.items[c := [h] + f2.items[c]] else f2.items)
  {
    hide Inv, Created, CanLink, Put;
    NewItemLinks(f2, d, c, h, Clone(f, m.x, n));
    PutKeeps(Created(f2, h, Clone(f, m.x, n)), d[h := 0], c, index, capacity, h);
  }

  function InfoTaken(f: Forest, x: Handle, part: nat): (info: map<Handle, Info>)
    requires x in f.info
    ensures info.Keys == f.info.Keys
  {
    if Partly(f, x, part) then f.info[x := Counted(f.info[x], part)] else f.info
  }

  function ParentTaken(f: Forest, x: Handle, part: nat): map<Handle, Handle> {
    if Partly(f, x, part) then f.parent else f.parent - {x}
  }

  function InfoJoined(f: Forest, m: Request, p: Place, part: nat, left: seq<Block>, info1: map<Handle, Info>): map<Handle, Info>
    requires p.toItem.Some? ==> p.toItem.value in f.info
  {
    if !Merges(f, m.x, p.toItem, m.q.alike) then info1
    else info1[p.toItem.value := Grown(f, p.toItem.value, Merged(f, m.x, p.toItem, part, m.q.alike), left)]
  }

  /** The items after a move: the item counted down, the stack it joins grown, and the clone. */
  function InfoAfter(f: Forest, m: Request, p: Place, part: nat, h: Handle, left: seq<Block>): map<Handle, Info>
    requires m.x in f.info && (p.toItem.Some? ==> p.toItem.value in f.info)
  {
    var info2 := InfoJoined(f, m, p, part, left, InfoTaken(f, m.x, part));
    if Stackable(f, m.x) && part != Merged(f, m.x, p.toItem, part, m.q.alike)
    then info2[h := Clone(f, m.x, part - Merged(f, m.x, p.toItem, part, m.q.alike))] else info2
  }

  /** The links after a move: the item is gone unless a part of it stays, and it or its clone is in the
      place unless the index is not below the capacity or the stack has taken all. */
  function ParentAfter(f: Forest, m: Request, p: Place, part: nat, capacity: nat, h: Handle): map<Handle, Handle> {
    var left := ParentTaken(f, m.x, part);
    if p.index >= capacity then left
    else if !Stackable(f, m.x) then left[m.x := p.c]
    else if part != Merged(f, m.x, p.toItem, part, m.q.alike) then left[h := p.c]
    else left
  }

  // ---------- internalMoveItem ----------

  /** The request is carried out: part of the item goes to p. */
  ghost predicate Sends(f: Forest, d: Depths, boxes: map<Handle, Box>, m: Request, p: Place, part: nat, r: ReturnValue) {
    Posed(f, boxes, m) && StacksHoldNothing(f.types) && !m.q.childIsOwner && Planned(f, d, boxes, m) == Moves(p, part, r)
  }

  /** A plan to move has asked queryAdd for the place it found, and part of the item can go. */
  lemma PlanReady(f: Forest, d: Depths, boxes: map<Handle, Box>, m: Request, p: Place, part: nat, r: ReturnValue)
    requires Inv(f, d) && Sends(f, d, boxes, m, p, part, r)
    ensures Ready(f, d, boxes, m, p) && Allowed(f, d, boxes, p.c, m.x, Asking(m, p))
    ensures m.x in f.info && m.from in f.items && m.x in f.items[m.from] && p.c in boxes && boxes[p.c].unlocked
    ensures m.to in f.items && m.to in boxes && Domains(f) && f.items.Keys <= boxes.Keys && p == Settled(f, boxes, m)
    ensures part > 0 && (Stackable(f, m.x) ==> part <= f.info[m.x].count)
  {
    hide Verdict, MaxCount, Above, Mirrored, Ranked, Weighed, Settled, Stackable;
    InvMeans(f, d);
    AllowedMeans(f, d, boxes, p.c, m.x, Asking(m, p));
    SettledMeets(f, boxes, m);
  }

  /** What an item meets lies in the container it goes to. */
  lemma SettledMeets(f: Forest, boxes: map<Handle, Box>, m: Request)
    requires Domains(f) && f.items.Keys <= boxes.Keys && m.to in f.items
    ensures var p := Settled(f, boxes, m);
            p.toItem.Some? ==> p.toItem.value in f.items[p.c]
  {
    hide Joins;
  }

  /** Game::internalMoveItem between containers of the store. h is the handle for a clone, left what
      updateThing leaves of the attributes of a stack. */
  method MoveItem(store: Store, m: Request, h: Handle, left: seq<Block>) returns (r: ReturnValue)
    requires store.Sound() && m.x in store.info && m.from in store.items && m.to in store.items && h !in store.info
    requires StacksHoldNothing(store.types) && !m.q.childIsOwner
    modifies store
    ensures store.Sound() && Posed(old(store.State()), old(store.boxes), m)
    ensures match Planned(old(store.State()), old(store.depths), old(store.boxes), m)
            case Refused(why) => r == why && store.State() == old(store.State()) && store.depths == old(store.depths)
            case Ignored => r == NoError && store.State() == old(store.State()) && store.depths == old(store.depths)
            case Moves(p, part, result) =>
              && r == result && p.c in old(store.boxes) && m.x in old(store.items)[m.from]
              && (store.State(), store.depths)
                 == Carried(old(store.State()), old(store.depths), m, p, part, old(store.boxes)[p.c].capacity, h, left)
  {
    hide Inv, Planned, Ready, Carried, Allowed;
    var plan := MakePlan(store, m);
    match plan
    case Refused(why) => r := why;
    case Ignored => r := NoError;
    case Moves(p, part, result) =>
      PlanReady(store.State(), store.depths, store.boxes, m, p, part, result);
      CarryOut(store, m, p, part, h, left);
      r := result;
  }

  /** The second half: take a part, let it join the stack it meets, and put the rest or its clone. */
  method CarryOut(store: Store, m: Request, p: Place, part: nat, h: Handle, left: seq<Block>)
    requires store.Sound() && m.x in store.info && h !in store.info
    requires Ready(store.State(), store.depths, store.boxes, m, p)
    modifies store
    ensures store.Sound()
    ensures p.c in old(store.boxes)
    ensures (store.State(), store.depths)
         == Carried(old(store.State()), old(store.depths), m, p, part, old(store.boxes)[p.c].capacity, h, left)
  {
    hide Inv, Above, Added, Created, CanLink, Counted, DepthsLinked, Taken, Joined, Merged, Equal, Grown;
    ghost var f, d := store.State(), store.depths;
    TakenKeeps(f, d, m.from, m.x, part, p.c);
    var stackable := Stackable(store.State(), m.x);
    var merges, n := Merges(store.State(), m.x, p.toItem, m.q.alike), Merged(store.State(), m.x, p.toItem, part, m.q.alike);
    var clone := Clone(store.State(), m.x, part - n);
    if p.toItem.Some? {
      TargetStays(f, d, store.boxes, m, p, part);
    }
    TakePart(store, m.from, m.x, part, p.c);
    if stackable {
      if merges {
        JoinStack(store, p.c, p.toItem.value, n, left, f);
      }
      if part != n {
        AddClone(store, p, h, clone);
      }
    } else {
      store.AddThing(p.c, p.index, m.x);
    }
  }

  /** Taking the item leaves the stack it is to join as it is. */
  lemma TargetStays(f: Forest, d: Depths, boxes: map<Handle, Box>, m: Request, p: Place, part: nat)
    requires Inv(f, d) && Ready(f, d, boxes, m, p) && p.toItem.Some?
    ensures m.x in f.info && p.toItem.value in f.info
    ensures var f1 := Taken(f, d, m.from, m.x, part).0;
            && p.c in f1.items && p.toItem.value in f1.items[p.c] && p.toItem.value in f1.info
            && f1.info[p.toItem.value] == f.info[p.toItem.value]
  {
    hide Inv, Above, Taken, CanLink, Counted, Without;
    TakenKeeps(f, d, m.from, m.x, part, p.c);
    MeetsItem(f, d, p.c, p.toItem.value);
    if m.from == p.c {
      StillListed(f.items[p.c], m.x, p.toItem.value);
    }
  }

  method TakePart(store: Store, c: Handle, x: Handle, part: nat, ghost c2: Handle)
    requires store.Sound() && x in store.info && c in store.items && x in store.items[c] && c2 in store.items
    requires !Above(store.State(), store.depths, x, c2)
    modifies store
    ensures store.Sound() && store.boxes == old(store.boxes)
    ensures (store.State(), store.depths) == Taken(old(store.State()), old(store.depths), c, x, part)
  {
    hide Inv, Above, Removed, Updated, Counted, DepthsUnlinked;
    store.RemoveThing(c, x, part);
  }

  method JoinStack(store: Store, c: Handle, y: Handle, n: nat, left: seq<Block>, ghost f: Forest)
    requires store.Sound() && c in store.items && y in store.items[c]
    requires y in f.info && y in store.info && store.info[y] == f.info[y] && store.types == f.types
    modifies store
    ensures store.Sound() && store.boxes == old(store.boxes) && store.depths == old(store.depths)
    ensures store.State() == Joined(old(store.State()), old(store.depths), c, y, Grown(f, y, n, left))
    ensures store.info.Keys == old(store.info).Keys && store.items == old(store.items)
  {
    hide Inv, Above, Updated, Retyped;
    UpdatedFields(store.State(), store.depths, c, Position(store.items[c], y), Grown(f, y, n, left));
    store.UpdateThing(c, y, store.info[y].id, store.info[y].count + n, left);
  }

  method AddClone(store: Store, p: Place, h: Handle, clone: Info)
    requires store.Sound() && p.c in store.items && h !in store.info && !IsContainer(store.types, clone)
    modifies store
    ensures store.Sound()
    ensures (store.State(), store.depths)
         == Put(Created(old(store.State()), h, clone), old(store.depths)[h := 0], p.c, p.index, old(store.boxes)[p.c].capacity, h)
  {
    hide Inv, Added, Created, CanLink, DepthsLinked;
    NewItemLinks(store.State(), store.depths, p.c, h, clone);
    HoldersExist(store.State(), store.depths, p.c);
    store.NewItem(h, clone, Box(true, 0, false, false, false));
    store.AddThing(p.c, p.index, h);
  }
}
