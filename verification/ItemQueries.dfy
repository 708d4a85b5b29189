/** What the containers answer before anything is moved: queryAdd, queryMaxCount, queryRemove and
    queryDestination. */
module ItemQueries {
  import opened Bytes
  import opened ItemForest
  import opened ItemMoves
  import opened ItemStore
  import opened ContainerCounts

  datatype ReturnValue =
    | NoError | NotPossible | CannotPickup | ThisIsImpossible | ContainerNotEnoughRoom | NotEnoughRoom
    | OnlyAmmoInQuiver | NotMoveable

  /** What is asked for, and what comes from outside the containers: the configured limits, whether the
      item is ammunition, the verdict of a top parent that is no container of the store on so many pieces,
      and how attributes are compared. */
  datatype Query = Query(
    index: int, count: nat, childIsOwner: bool, noLimit: bool, maxItem: nat, maxContainer: nat,
    ammo: bool, topParent: Option<nat -> ReturnValue>, alike: (seq<Block>, seq<Block>) -> bool)

  const INDEX_WHEREEVER: int := -1

  // ---------- queryAdd ----------

  /** The walk over the holders of a container: the first thing met decides. */
  ghost function Walk(f: Forest, d: Depths, boxes: map<Handle, Box>, x: Handle, noLimit: bool, h: Handle): (r: Option<ReturnValue>)
    ensures r.Some? ==> r.value != NoError
    decreases Depth(d, h)
  {
    if h !in f.parent || Depth(d, f.parent[h]) >= Depth(d, h) then None
    else
      var p := f.parent[h];
      if p == x then Some(ThisIsImpossible)
      else if !noLimit && p in boxes && boxes[p].inbox then Some(ContainerNotEnoughRoom)
      else Walk(f, d, boxes, x, noLimit, p)
  }

  /** The container that the limits count for. For a container that sits in others this is the last one
      before the outermost. */
  ghost function LimitRoot(f: Forest, d: Depths, c: Handle): Handle
    decreases Depth(d, c)
  {
    if c !in f.parent || f.parent[c] !in f.parent || Depth(d, f.parent[c]) >= Depth(d, c) then c else LimitRoot(f, d, f.parent[c])
  }

  /** How many items, or how many containers, are in h at any depth. */
  ghost function Holding(f: Forest, d: Depths, h: Handle, boxesOnly: bool): nat {
    |if boxesOnly then BoxSet(f.items, Inside(f, d, h)) else Inside(f, d, h)|
  }

  /** The limits on how many items and containers there may be. */
  ghost function Limits(f: Forest, d: Depths, c: Handle, x: Handle, q: Query, quiver: bool): ReturnValue {
    var top := LimitRoot(f, d, c);
    if x in f.items && (Holding(f, d, x, true) + 1 + Holding(f, d, top, true) > q.maxContainer
                        || Holding(f, d, x, false) + 1 + Holding(f, d, top, false) > q.maxItem)
    then NotPossible
    else if Holding(f, d, top, false) + 1 > q.maxItem then NotPossible
    else if quiver && !q.ammo then OnlyAmmoInQuiver
    else if q.topParent.Some? then q.topParent.value(q.count)
    else NoError
  }

  predicate Pickupable(f: Forest, x: Handle) {
    x in f.info && f.info[x].id in f.types && f.types[f.info[x].id].pickupable
  }

  /** The answer to a query: lock and pick-up flag, then the holders, then room and limits. */
  ghost function Verdict(f: Forest, d: Depths, boxes: map<Handle, Box>, c: Handle, x: Handle, q: Query): ReturnValue
    requires c in boxes && x in f.info && c in f.items
  {
    if q.childIsOwner then NoError
    else if !boxes[c].unlocked then NotPossible
    else if !Pickupable(f, x) then CannotPickup
    else if c == x then ThisIsImpossible
    else match Walk(f, d, boxes, x, q.noLimit, c)
      case Some(met) => met
      case None =>
        if !q.noLimit && q.index == INDEX_WHEREEVER && |f.items[c]| >= boxes[c].capacity && !boxes[c].pagination then ContainerNotEnoughRoom
        else Limits(f, d, c, x, q, boxes[c].quiver)
  }

  /** A walk that meets nothing has not met x: x does not hold h. */
  lemma {:induction false} WalkClear(f: Forest, d: Depths, boxes: map<Handle, Box>, x: Handle, noLimit: bool, h: Handle)
    requires Ranked(f, d) && h in f.info && h != x && Walk(f, d, boxes, x, noLimit, h) == None
    ensures !Above(f, d, x, h)
    decreases Depth(d, h)
  {
    if h in f.parent {
      WalkClear(f, d, boxes, x, noLimit, f.parent[h]);
    }
  }

  /** Without the limits the walk finds x exactly when x holds h. */
  lemma {:induction false} WalkFinds(f: Forest, d: Depths, boxes: map<Handle, Box>, x: Handle, h: Handle)
    requires Ranked(f, d) && h in f.info && h != x
    ensures Walk(f, d, boxes, x, true, h) == (if Above(f, d, x, h) then Some(ThisIsImpossible) else None)
    decreases Depth(d, h)
  {
    if h in f.parent && f.parent[h] != x {
      WalkFinds(f, d, boxes, x, f.parent[h]);
    }
  }

  /** queryAdd has answered that x may go into c, and not on behalf of a child container. */
  ghost predicate Allowed(f: Forest, d: Depths, boxes: map<Handle, Box>, c: Handle, x: Handle, q: Query) {
    c in boxes && x in f.info && c in f.items && !q.childIsOwner && Verdict(f, d, boxes, c, x, q) == NoError
  }

  /** That answer rules out that x holds c. */
  lemma AllowedMeans(f: Forest, d: Depths, boxes: map<Handle, Box>, c: Handle, x: Handle, q: Query)
    requires Valid(f, d) && Allowed(f, d, boxes, c, x, q)
    ensures c != x && !Above(f, d, x, c)
    ensures boxes[c].unlocked && f.info[x].id in f.types
    ensures Limits(f, d, c, x, q, boxes[c].quiver) == NoError
  {
    hide Above, Mirrored, Limits;
    WalkClear(f, d, boxes, x, q.noLimit, c);
  }

  /** Without limits the cycle error comes exactly for holders. */
  lemma HoldersRefused(f: Forest, d: Depths, boxes: map<Handle, Box>, c: Handle, x: Handle, q: Query)
    requires Valid(f, d) && c in boxes && x in f.info && c in f.items
    requires q.noLimit && !q.childIsOwner && boxes[c].unlocked && Pickupable(f, x)
    ensures Verdict(f, d, boxes, c, x, q) == ThisIsImpossible <==>
            Above(f, d, x, c) || Limits(f, d, c, x, q, boxes[c].quiver) == ThisIsImpossible
  {
    hide Limits, Mirrored;
    if c != x {
      WalkFinds(f, d, boxes, x, c);
    }
  }

  /** getTopParentContainer. */
  method GetTopParentContainer(store: Store, c: Handle) returns (top: Handle)
    requires store.Sound() && c in store.items
    ensures top == LimitRoot(store.State(), store.depths, c) && top in store.items
  {
    hide Mirrored, Weighed;
    if c !in store.parent {
      return c;
    }
    ghost var f, d := store.State(), store.depths;
    var thing := store.parent[c];
    top := c;
    while thing in store.parent
      invariant top in store.parent && thing == store.parent[top] && thing in store.items && top in store.items
      invariant LimitRoot(f, d, top) == LimitRoot(f, d, c)
      decreases Depth(d, top)
    {
      top := thing;
      thing := store.parent[thing];
    }
  }

  /** Container::queryAdd. */
  method QueryAdd(store: Store, c: Handle, x: Handle, q: Query) returns (r: ReturnValue)
    requires store.Sound() && c in store.items && x in store.info
    ensures r == Verdict(store.State(), store.depths, store.boxes, c, x, q)
    ensures r == NoError && !q.childIsOwner ==> !Above(store.State(), store.depths, x, c)
    ensures q.noLimit && !q.childIsOwner && store.boxes[c].unlocked && Pickupable(store.State(), x) ==>
              (r == ThisIsImpossible <==>
               Above(store.State(), store.depths, x, c)
               || Limits(store.State(), store.depths, c, x, q, store.boxes[c].quiver) == ThisIsImpossible)
  {
    ghost var f, d, boxes := store.State(), store.depths, store.boxes;
    hide Limits, Mirrored, Weighed, Walk, Above;
    if q.noLimit && !q.childIsOwner && boxes[c].unlocked && Pickupable(f, x) {
      HoldersRefused(f, d, boxes, c, x, q);
    }
    if q.childIsOwner {
      return NoError;
    }
    if !store.boxes[c].unlocked {
      return NotPossible;
    }
    if !Pickupable(store.State(), x) {
      return CannotPickup;
    }
    if c == x {
      return ThisIsImpossible;
    }
    var met := WalkUp(store, c, x, q.noLimit);
    if met.Some? {
      return met.value;
    }
    if !q.noLimit && q.index == INDEX_WHEREEVER && |store.items[c]| >= store.boxes[c].capacity && !store.boxes[c].pagination {
      return ContainerNotEnoughRoom;
    }
    r := CheckLimits(store, c, x, q);
  }

  /** The loop over the parents. */
  method WalkUp(store: Store, c: Handle, x: Handle, noLimit: bool) returns (met: Option<ReturnValue>)
    requires store.Sound() && c in store.items && c != x
    ensures met == Walk(store.State(), store.depths, store.boxes, x, noLimit, c)
    ensures met == None ==> !Above(store.State(), store.depths, x, c)
  {
    hide Mirrored, Weighed;
    ghost var f, d, boxes := store.State(), store.depths, store.boxes;
    var h := c;
    while h in store.parent
      invariant h in store.info && h != x
      invariant Walk(f, d, boxes, x, noLimit, h) == Walk(f, d, boxes, x, noLimit, c)
      decreases Depth(d, h)
    {
      h := store.parent[h];
      if h == x {
        return Some(ThisIsImpossible);
      }
      if !noLimit && h in store.boxes && store.boxes[h].inbox {
        return Some(ContainerNotEnoughRoom);
      }
    }
    WalkClear(f, d, boxes, x, noLimit, c);
    return None;
  }

  method CheckLimits(store: Store, c: Handle, x: Handle, q: Query) returns (r: ReturnValue)
    requires store.Sound() && c in store.items && x in store.info
    ensures r == Limits(store.State(), store.depths, c, x, q, store.boxes[c].quiver)
  {
    hide Valid, Weighed, Inside, BoxSet, LimitRoot;
    var top := GetTopParentContainer(store, c);
    var topContainers := GetContainerHoldingCount(store, top);
    var topItems := GetItemHoldingCount(store, top);
    if x in store.items {
      var addContainers := GetContainerHoldingCount(store, x);
      if addContainers + 1 + topContainers > q.maxContainer {
        return NotPossible;
      }
      var addItems := GetItemHoldingCount(store, x);
      if addItems + 1 + topItems > q.maxItem {
        return NotPossible;
      }
    }
    if topItems + 1 > q.maxItem {
      return NotPossible;
    }
    if store.boxes[c].quiver && !q.ammo {
      return OnlyAmmoInQuiver;
    }
    if q.topParent.Some? {
      return q.topParent.value(q.count);
    }
    return NoError;
  }

  // ---------- queryMaxCount and queryRemove ----------

  predicate Stackable(f: Forest, x: Handle) {
    x in f.info && f.info[x].id in f.types && f.types[f.info[x].id].stackable
  }

  /** Item::equals. */
  predicate Equal(f: Forest, x: Handle, y: Handle, alike: (seq<Block>, seq<Block>) -> bool) {
    x in f.info && y in f.info && f.info[x].id == f.info[y].id && alike(f.info[x].attrs, f.info[y].attrs)
  }

  /** y is a stack that x could join. */
  predicate Joins(f: Forest, y: Handle, x: Handle, alike: (seq<Block>, seq<Block>) -> bool) {
    y != x && Equal(f, y, x, alike) && f.info[y].count < 100
  }

  /** What the stacks of a list have room for. */
  ghost function RoomOnStacks(f: Forest, d: Depths, boxes: map<Handle, Box>, c: Handle, x: Handle, q: Query, list: seq<Handle>): nat
    requires c in boxes && x in f.info && c in f.items
  {
    if list == [] then 0
    else
      var y := list[|list| - 1];
      RoomOnStacks(f, d, boxes, c, x, q, list[..|list| - 1])
      + if Joins(f, y, x, q.alike) && Verdict(f, d, boxes, c, x, q.(index := 0, count := 100 - f.info[y].count)) == NoError
        then 100 - f.info[y].count else 0
  }

  /** What the item at an index has room for. */
  ghost function RoomAt(f: Forest, d: Depths, boxes: map<Handle, Box>, c: Handle, x: Handle, q: Query): nat
    requires c in boxes && x in f.info && c in f.items
  {
    if 0 <= q.index < |f.items[c]| && Equal(f, x, f.items[c][q.index], q.alike) && f.info[f.items[c][q.index]].count < 100
       && Verdict(f, d, boxes, c, x, q.(count := 100 - f.info[f.items[c][q.index]].count)) == NoError
    then 100 - f.info[f.items[c][q.index]].count else 0
  }

  /** How much of an item there is room for, and whether that is less than asked for. */
  ghost function MaxCount(f: Forest, d: Depths, boxes: map<Handle, Box>, c: Handle, x: Handle, q: Query): (ReturnValue, nat)
    requires c in boxes && x in f.info && c in f.items
  {
    if q.noLimit || boxes[c].pagination then (NoError, if q.count > 1 then q.count else 1)
    else
      var free := if boxes[c].capacity > |f.items[c]| then boxes[c].capacity - |f.items[c]| else 0;
      if Stackable(f, x) then
        var n := if q.index == INDEX_WHEREEVER then RoomOnStacks(f, d, boxes, c, x, q, f.items[c]) else RoomAt(f, d, boxes, c, x, q);
        (if free * 100 + n < q.count then ContainerNotEnoughRoom else NoError, free * 100 + n)
      else (if free == 0 then ContainerNotEnoughRoom else NoError, free)
  }

  /** Container::queryMaxCount. */
  method QueryMaxCount(store: Store, c: Handle, x: Handle, q: Query) returns (r: ReturnValue, maxQueryCount: nat)
    requires store.Sound() && c in store.items && x in store.info
    ensures (r, maxQueryCount) == MaxCount(store.State(), store.depths, store.boxes, c, x, q)
    ensures r == if maxQueryCount < (if Stackable(store.State(), x) then q.count else 1) then ContainerNotEnoughRoom else NoError
  {
    hide Inv, Verdict, Joins, RoomOnStacks, RoomAt;
    if q.noLimit || store.boxes[c].pagination {
      return NoError, if q.count > 1 then q.count else 1;
    }
    var freeSlots := if store.boxes[c].capacity > |store.items[c]| then store.boxes[c].capacity - |store.items[c]| else 0;
    if Stackable(store.State(), x) {
      var n;
      if q.index == INDEX_WHEREEVER {
        n := CountRoomOnStacks(store, c, x, q);
      } else {
        n := CountRoomAt(store, c, x, q);
      }
      maxQueryCount := freeSlots * 100 + n;
      r := if maxQueryCount < q.count then ContainerNotEnoughRoom else NoError;
    } else {
      maxQueryCount := freeSlots;
      r := if maxQueryCount == 0 then ContainerNotEnoughRoom else NoError;
    }
  }

  method CountRoomAt(store: Store, c: Handle, x: Handle, q: Query) returns (n: nat)
    requires store.Sound() && c in store.items && x in store.info
    ensures n == RoomAt(store.State(), store.depths, store.boxes, c, x, q)
  {
    hide Inv, Verdict;
    n := 0;
    if 0 <= q.index < |store.items[c]| {
      var y := store.items[c][q.index];
      if Equal(store.State(), x, y, q.alike) && store.info[y].count < 100 {
        var r := QueryAdd(store, c, x, q.(count := 100 - store.info[y].count));
        if r == NoError {
          n := 100 - store.info[y].count;
        }
      }
    }
  }

  method CountRoomOnStacks(store: Store, c: Handle, x: Handle, q: Query) returns (n: nat)
    requires store.Sound() && c in store.items && x in store.info
    ensures n == RoomOnStacks(store.State(), store.depths, store.boxes, c, x, q, store.items[c])
  {
    hide Inv, Verdict;
    ghost var f, d, boxes, list := store.State(), store.depths, store.boxes, store.items[c];
    n := 0;
    var slotIndex, k := 0, 0;
    while k < |store.items[c]|
      invariant 0 <= k <= |list| && slotIndex >= 0
      invariant n == RoomOnStacks(f, d, boxes, c, x, q, list[..k])
    {
      var y := store.items[c][k];
      assert list[..k + 1][..k] == list[..k];
      if Joins(store.State(), y, x, q.alike) {
        var remainder := 100 - store.info[y].count;
        var r := QueryAdd(store, c, x, q.(index := slotIndex, count := remainder));
        IndexOnlyForRoom(f, d, boxes, c, x, q.(count := remainder), slotIndex);
        slotIndex := slotIndex + 1;
        if r == NoError {
          n := n + remainder;
        }
      }
      k := k + 1;
    }
    assert list[..k] == list;
  }

  /** An index matters to queryAdd only where it stands for any index. */
  lemma IndexOnlyForRoom(f: Forest, d: Depths, boxes: map<Handle, Box>, c: Handle, x: Handle, q: Query, k: nat)
    requires c in boxes && x in f.info && c in f.items
    ensures Verdict(f, d, boxes, c, x, q.(index := k)) == Verdict(f, d, boxes, c, x, q.(index := 0))
  {
    hide Walk, LimitRoot, Holding;
  }

  /** Container::queryRemove. */
  function Removable(f: Forest, c: Handle, x: Handle, count: nat, ignoreNotMoveable: bool): ReturnValue
    requires c in f.items && x in f.info
  {
    if x !in f.items[c] then NotPossible
    else if count == 0 || (Stackable(f, x) && count > f.info[x].count) then NotPossible
    else if !(f.info[x].id in f.types && f.types[f.info[x].id].moveable) && !ignoreNotMoveable then NotMoveable
    else NoError
  }

  method QueryRemove(store: Store, c: Handle, x: Handle, count: nat, ignoreNotMoveable: bool) returns (r: ReturnValue)
    requires c in store.items && x in store.info
    ensures r == Removable(store.State(), c, x, count, ignoreNotMoveable)
  {
    var index := store.GetThingIndex(c, x);
    if index == -1 {
      return NotPossible;
    }
    if count == 0 || (Stackable(store.State(), x) && count > store.info[x].count) {
      return NotPossible;
    }
    if !(store.info[x].id in store.types && store.types[store.info[x].id].moveable) && !ignoreNotMoveable {
      return NotMoveable;
    }
    return NoError;
  }

  // ---------- queryDestination ----------

  const MOVE_UP: int := 254
  const ADD_WHEREEVER: int := 255

  /** Where something is to go: a container, an index in it, and the item it meets there. */
  datatype Place = Place(c: Handle, index: int, toItem: Option<Handle>)

  /** The first stack in a list that x could join. */
  function FirstStack(f: Forest, x: Handle, list: seq<Handle>, k: nat, alike: (seq<Block>, seq<Block>) -> bool): (r: Option<nat>)
    requires k <= |list|
    ensures r.Some? ==> k <= r.value < |list| && Joins(f, list[r.value], x, alike)
    ensures r.Some? ==> forall j :: k <= j < r.value ==> !Joins(f, list[j], x, alike)
    ensures r == None ==> forall j :: k <= j < |list| ==> !Joins(f, list[j], x, alike)
    decreases |list| - k
  {
    if k == |list| then None else if Joins(f, list[k], x, alike) then Some(k) else FirstStack(f, x, list, k + 1, alike)
  }

  /** An item that stacks goes to a stack it can join, if there is one in another container than its own. */
  function AutoStack(f: Forest, x: Handle, p: Place, ignoreAutoStack: bool, alike: (seq<Block>, seq<Block>) -> bool): Place
    requires p.c in f.items
  {
    if ignoreAutoStack || !Stackable(f, x) || (x in f.parent && f.parent[x] == p.c) then p
    else match FirstStack(f, x, f.items[p.c], 0, alike)
      case None => p
      case Some(n) => p.(index := n, toItem := Some(f.items[p.c][n]))
  }

  /** An index that the container does not show stands for any index. */
  function Shown(box: Box, index: int): bool {
    index != ADD_WHEREEVER && (index < box.capacity || box.pagination)
  }

  function Destination(f: Forest, boxes: map<Handle, Box>, p: Place, x: Handle, ignoreAutoStack: bool,
                       alike: (seq<Block>, seq<Block>) -> bool): (r: Place)
    requires p.c in f.items && p.c in boxes && Domains(f)
    ensures r.c in f.items
  {
    if !boxes[p.c].unlocked then p.(toItem := None)
    else if p.index == MOVE_UP then Place(if p.c in f.parent then f.parent[p.c] else p.c, INDEX_WHEREEVER, None)
    else if !Shown(boxes[p.c], p.index) || p.index == INDEX_WHEREEVER then
      AutoStack(f, x, if Shown(boxes[p.c], p.index) then p else Place(p.c, INDEX_WHEREEVER, None), ignoreAutoStack, alike)
    else
      var met := if 0 <= p.index < |f.items[p.c]| then Some(f.items[p.c][p.index]) else p.toItem;
      if met.Some? && met.value in f.items then Place(met.value, INDEX_WHEREEVER, None)
      else AutoStack(f, x, p.(toItem := met), ignoreAutoStack, alike)
  }

  /** Container::queryDestination. */
  method QueryDestination(store: Store, p: Place, x: Handle, ignoreAutoStack: bool, alike: (seq<Block>, seq<Block>) -> bool)
    returns (r: Place)
    requires store.Sound() && p.c in store.items
    ensures r == Destination(store.State(), store.boxes, p, x, ignoreAutoStack, alike)
    ensures r.c in store.items
  {
    hide Weighed, Mirrored;
    if !store.boxes[p.c].unlocked {
      return p.(toItem := None);
    }
    var index, destItem := p.index, p.toItem;
    if index == MOVE_UP {
      return Place(if p.c in store.parent then store.parent[p.c] else p.c, INDEX_WHEREEVER, None);
    }
    if index == ADD_WHEREEVER {
      index, destItem := INDEX_WHEREEVER, None;
    } else if index >= store.boxes[p.c].capacity && !store.boxes[p.c].pagination {
      index, destItem := INDEX_WHEREEVER, None;
    }
    if index != INDEX_WHEREEVER {
      if 0 <= index < |store.items[p.c]| {
        destItem := Some(store.items[p.c][index]);
      }
      if destItem.Some? && destItem.value in store.items {
        return Place(destItem.value, INDEX_WHEREEVER, None);
      }
    }
    r := FindStack(store, Place(p.c, index, destItem), x, ignoreAutoStack, alike);
  }

  /** The loop that looks for a stack to join. */
  method FindStack(store: Store, p: Place, x: Handle, ignoreAutoStack: bool, alike: (seq<Block>, seq<Block>) -> bool)
    returns (r: Place)
    requires p.c in store.items
    ensures r == AutoStack(store.State(), x, p, ignoreAutoStack, alike)
  {
    hide Joins;
    r := p;
    if !ignoreAutoStack && Stackable(store.State(), x) && !(x in store.parent && store.parent[x] == p.c) {
      var n := 0;
      while n < |store.items[p.c]|
        invariant 0 <= n <= |store.items[p.c]|
        invariant FirstStack(store.State(), x, store.items[p.c], n, alike) == FirstStack(store.State(), x, store.items[p.c], 0, alike)
      {
        if Joins(store.State(), store.items[p.c][n], x, alike) {
          return p.(index := n, toItem := Some(store.items[p.c][n]));
        }
        n := n + 1;
      }
    }
  }
}
