/** How much room there is for a move: what queryAdd lets in, when a request is refused for room, how much of
    a stack goes, and that no container is filled beyond its capacity. */
module TransferRoom {
  import opened Bytes
  import opened ItemForest
  import opened ItemMoves
  import opened ItemStore
  import opened ContainerCounts
  import opened ItemQueries
  import opened ItemTransfers

  // ---------- what queryAdd lets in ----------

  /** Being around the container keeps nothing out: it is not the item, and no inbox if that matters. */
  predicate Harmless(boxes: map<Handle, Box>, x: Handle, noLimit: bool, h: Handle) {
    h != x && (noLimit || !(h in boxes && boxes[h].inbox))
  }

  lemma {:induction false} WalkMeetsNothing(f: Forest, d: Depths, boxes: map<Handle, Box>, x: Handle, noLimit: bool, c: Handle)
    requires Ranked(f, d) && c in f.info
    ensures Walk(f, d, boxes, x, noLimit, c) == None <==> forall h :: Above(f, d, h, c) && h != c ==> Harmless(boxes, x, noLimit, h)
    decreases d[c]
  {
    if c in f.parent {
      var p := f.parent[c];
      WalkMeetsNothing(f, d, boxes, x, noLimit, p);
      forall h
        ensures (Above(f, d, h, c) && h != c) == (h == p || (Above(f, d, h, p) && h != p))
      {
        if Above(f, d, h, p) {
          AboveIsShallower(f, d, h, p);
        }
      }
      assert (forall h :: Above(f, d, h, c) && h != c ==> Harmless(boxes, x, noLimit, h)) <==>
             Harmless(boxes, x, noLimit, p) && forall h :: Above(f, d, h, p) && h != p ==> Harmless(boxes, x, noLimit, h) by {
        assert Above(f, d, p, c);
      }
    }
  }

  /** queryAdd lets an item in exactly when the container is open, the item can be picked up and does not hold
      the container; no inbox is around it and it has a place left, unless limits do not matter; what it holds
      stays within the limits; a quiver gets ammunition; and the top parent agrees. */
  lemma AllowedIff(f: Forest, d: Depths, boxes: map<Handle, Box>, c: Handle, x: Handle, q: Query)
    requires Valid(f, d) && c in boxes && x in f.info && c in f.items && !q.childIsOwner
    ensures var top := LimitRoot(f, d, c);
            Verdict(f, d, boxes, c, x, q) == NoError <==>
            && boxes[c].unlocked
            && f.info[x].id in f.types && f.types[f.info[x].id].pickupable
            && !Above(f, d, x, c)
            && (q.noLimit || forall h :: Above(f, d, h, c) && h != c && h in boxes ==> !boxes[h].inbox)
            && (q.noLimit || q.index != -1 || |f.items[c]| < boxes[c].capacity || boxes[c].pagination)
            && (x in f.items ==>
                  && |Inside(f, d, x)| + 1 + |Inside(f, d, top)| <= q.maxItem
                  && |BoxSet(f.items, Inside(f, d, x))| + 1 + |BoxSet(f.items, Inside(f, d, top))| <= q.maxContainer)
            && |Inside(f, d, top)| + 1 <= q.maxItem
            && (boxes[c].quiver ==> q.ammo)
            && (q.topParent.Some? ==> q.topParent.value(q.count) == NoError)
  {
    WalkIs(f, d, boxes, x, q.noLimit, c);
    hide Inside, BoxSet, LimitRoot, Valid, Walk;
    assert c == x ==> Above(f, d, x, c);
    hide Above;
  }

  lemma WalkIs(f: Forest, d: Depths, boxes: map<Handle, Box>, x: Handle, noLimit: bool, c: Handle)
    requires Valid(f, d) && c in f.items
    ensures c != x ==>
              (Walk(f, d, boxes, x, noLimit, c) == None <==>
               !Above(f, d, x, c) && (noLimit || forall h :: Above(f, d, h, c) && h != c && h in boxes ==> !boxes[h].inbox))
  {
    hide Mirrored, Walk, Above;
    WalkMeetsNothing(f, d, boxes, x, noLimit, c);
    if c != x && !Above(f, d, x, c) && (noLimit || forall h :: Above(f, d, h, c) && h != c && h in boxes ==> !boxes[h].inbox) {
      assert forall h :: Above(f, d, h, c) && h != c ==> Harmless(boxes, x, noLimit, h);
    }
    if c != x && Walk(f, d, boxes, x, noLimit, c) == None {
      assert forall h :: Above(f, d, h, c) && h != c ==> Harmless(boxes, x, noLimit, h);
    }
  }

  // ---------- refused for room ----------

  /** The item at the place can take some of x. */
  ghost predicate CanTake(f: Forest, d: Depths, boxes: map<Handle, Box>, c: Handle, x: Handle, q: Query)
    requires c in boxes && x in f.info && c in f.items
  {
    Stackable(f, x) && 0 <= q.index < |f.items[c]|
    && var y := f.items[c][q.index];
       && y in f.info && f.info[x].id == f.info[y].id && q.alike(f.info[x].attrs, f.info[y].attrs) && f.info[y].count < 100
       && Verdict(f, d, boxes, c, x, q.(count := 100 - f.info[y].count)) == NoError
  }

  /** A request that nothing else stands against is refused for room exactly when limits matter, the container
      has no pages and no free place, and the stack in the place can take nothing. */
  lemma RefusedForRoom(f: Forest, d: Depths, boxes: map<Handle, Box>, m: Request)
    requires Posed(f, boxes, m) && !m.q.childIsOwner && m.q.count > 0
    requires var p := Settled(f, boxes, m);
             p.toItem != Some(m.x) && Verdict(f, d, boxes, p.c, m.x, Asking(m, p).(index := 0)) == NoError
    ensures var p := Settled(f, boxes, m);
            Planned(f, d, boxes, m) == Refused(ContainerNotEnoughRoom) <==>
            !(m.q.noLimit && p.c == m.to) && !boxes[p.c].pagination && |f.items[p.c]| >= boxes[p.c].capacity
            && !CanTake(f, d, boxes, p.c, m.x, Asking(m, p))
  {
    hide Settled, Above, RoomOnStacks;
    var p := Settled(f, boxes, m);
    IndexForRoom(f, d, boxes, p.c, m.x, Asking(m, p));
    RoomOrNot(f, d, boxes, p.c, m.x, Asking(m, p));
    hide Verdict, MaxCount, Removable, CanTake;
  }

  /** An index for any place asks for a free one; any other index asks for nothing more. */
  lemma IndexForRoom(f: Forest, d: Depths, boxes: map<Handle, Box>, c: Handle, x: Handle, q: Query)
    requires c in boxes && x in f.info && c in f.items && !q.childIsOwner && Verdict(f, d, boxes, c, x, q.(index := 0)) == NoError
    ensures Verdict(f, d, boxes, c, x, q)
         == if !q.noLimit && q.index == -1 && |f.items[c]| >= boxes[c].capacity && !boxes[c].pagination
            then ContainerNotEnoughRoom else NoError
  {
    hide Walk, LimitRoot, Holding;
  }

  lemma RoomOrNot(f: Forest, d: Depths, boxes: map<Handle, Box>, c: Handle, x: Handle, q: Query)
    requires c in boxes && x in f.info && c in f.items && q.count > 0
    ensures var (r, max) := MaxCount(f, d, boxes, c, x, q);
            && (r == NoError || r == ContainerNotEnoughRoom)
            && (q.index != -1 ==>
                  (r != NoError && max == 0 <==>
                   !q.noLimit && !boxes[c].pagination && |f.items[c]| >= boxes[c].capacity && !CanTake(f, d, boxes, c, x, q)))
            && (|f.items[c]| < boxes[c].capacity ==> !(r != NoError && max == 0))
            && (q.noLimit || boxes[c].pagination ==> r == NoError)
  {
    hide Verdict, RoomOnStacks;
  }

  // ---------- no container is overfilled ----------

  /** Something is put into the container, not just added to a stack. */
  predicate TakesPlace(f: Forest, m: Request, p: Place, part: nat, capacity: nat) {
    p.index < capacity && (!Stackable(f, m.x) || part != Merged(f, m.x, p.toItem, part, m.q.alike))
  }

  /** Within the limits and without pages that takes a free place. */
  lemma TakesFreePlace(f: Forest, d: Depths, boxes: map<Handle, Box>, m: Request, p: Place, part: nat, r: ReturnValue)
    requires Inv(f, d) && Sends(f, d, boxes, m, p, part, r)
    requires p.c in boxes && p.c in f.items && !boxes[p.c].pagination && !(m.q.noLimit && p.c == m.to)
    requires TakesPlace(f, m, p, part, boxes[p.c].capacity)
    ensures |f.items[p.c]| < boxes[p.c].capacity
  {
    hide Inv, Ready, Allowed, Above, Verdict, Settled, RoomOnStacks, Wrap, Stackable;
    PlanReady(f, d, boxes, m, p, part, r);
    if |f.items[p.c]| >= boxes[p.c].capacity {
      FullWhereever(f, d, boxes, p.c, m.x, Asking(m, p));
      MeetsAtIndex(f, boxes, m);
      NoPlaceTaken(f, d, boxes, m, p, part, r);
    }
  }

  lemma FullWhereever(f: Forest, d: Depths, boxes: map<Handle, Box>, c: Handle, x: Handle, q: Query)
    requires Allowed(f, d, boxes, c, x, q) && !q.noLimit && !boxes[c].pagination && |f.items[c]| >= boxes[c].capacity
    ensures q.index != -1
  {
    hide Walk, Limits;
  }

  /** A settled index of the list goes with the item in that place. */
  lemma MeetsAtIndex(f: Forest, boxes: map<Handle, Box>, m: Request)
    requires Domains(f) && f.items.Keys <= boxes.Keys && m.to in f.items && boxes[Settled(f, boxes, m).c].unlocked
    ensures var p := Settled(f, boxes, m);
            0 <= p.index < |f.items[p.c]| ==> p.toItem == Some(f.items[p.c][p.index])
  {
    hide Joins, Stackable;
  }

  lemma NoPlaceTaken(f: Forest, d: Depths, boxes: map<Handle, Box>, m: Request, p: Place, part: nat, r: ReturnValue)
    requires Sends(f, d, boxes, m, p, part, r) && p == Settled(f, boxes, m) && part > 0
    requires p.c in boxes && p.c in f.items && !boxes[p.c].pagination && !(m.q.noLimit && p.c == m.to)
    requires |f.items[p.c]| >= boxes[p.c].capacity && p.index != -1
    requires 0 <= p.index < |f.items[p.c]| ==> p.toItem == Some(f.items[p.c][p.index])
    ensures Stackable(f, m.x) && part == Merged(f, m.x, p.toItem, part, m.q.alike)
  {
    hide Verdict, Settled, Above, RoomOnStacks;
    var (retMax, max) := MaxCount(f, d, boxes, p.c, m.x, Asking(m, p));
    assert Stackable(f, m.x) ==> max == RoomAt(f, d, boxes, p.c, m.x, Asking(m, p));
    assert !(retMax != NoError && max == 0);
    assert part <= max;
  }

  /** The lists after a move. */
  lemma CarriedLists(f: Forest, d: Depths, boxes: map<Handle, Box>, m: Request, p: Place, part: nat, h: Handle, left: seq<Block>)
    requires Inv(f, d) && Ready(f, d, boxes, m, p) && h !in f.info && p.c in boxes && m.x in f.info
    requires m.from in f.items && m.x in f.items[m.from] && (p.toItem.Some? ==> p.toItem.value in f.info)
    ensures var g := Carried(f, d, m, p, part, boxes[p.c].capacity, h, left).0;
            && p.c in g.items && p.c in f.items
            && |g.items[p.c]| == |f.items[p.c]| - (if m.from == p.c && !Partly(f, m.x, part) then 1 else 0)
                                 + (if TakesPlace(f, m, p, part, boxes[p.c].capacity) then 1 else 0)
  {
    hide Inv, Above, Taken, Joined, Put, Created, CanLink, Merged, Grown, DepthsUnlinked, Equal, Clone, InfoTaken, ParentTaken, Counted;
    var c := p.c;
    TakenKeeps(f, d, m.from, m.x, part, c);
    var (f1, d1) := Taken(f, d, m.from, m.x, part);
    if !Stackable(f, m.x) {
      PutKeeps(f1, d1, c, p.index, boxes[c].capacity, m.x);
    } else {
      var n := Merged(f, m.x, p.toItem, part, m.q.alike);
      var f2 := f1;
      if Merges(f, m.x, p.toItem, m.q.alike) {
        TargetStays(f, d, boxes, m, p, part);
        JoinedKeeps(f1, d1, c, p.toItem.value, Grown(f, p.toItem.value, n, left));
        f2 := Joined(f1, d1, c, p.toItem.value, Grown(f, p.toItem.value, n, left));
      }
      if part != n {
        CloneKeeps(f, f2, d1, m, c, p.index, boxes[c].capacity, h, part - n);
      }
    }
  }

  /** Within the limits and without pages, a move never fills a container beyond its capacity. */
  lemma CapacityKept(f: Forest, d: Depths, boxes: map<Handle, Box>, m: Request, p: Place, part: nat, r: ReturnValue, h: Handle,
                     left: seq<Block>)
    requires Inv(f, d) && Sends(f, d, boxes, m, p, part, r) && h !in f.info
    requires p.c in boxes && !boxes[p.c].pagination && !(m.q.noLimit && p.c == m.to)
    ensures m.x in f.info && m.from in f.items && m.x in f.items[m.from] && p.c in f.items
    ensures var g := Carried(f, d, m, p, part, boxes[p.c].capacity, h, left).0;
            && p.c in g.items
            && |g.items[p.c]| <= if |f.items[p.c]| > boxes[p.c].capacity then |f.items[p.c]| else boxes[p.c].capacity
  {
    hide Inv, Sends, Carried, Allowed, Above, TakesPlace, Partly;
    PlanReady(f, d, boxes, m, p, part, r);
    PlaceKnown(f, d, boxes, m, p);
    hide Ready;
    CarriedLists(f, d, boxes, m, p, part, h, left);
    if TakesPlace(f, m, p, part, boxes[p.c].capacity) {
      TakesFreePlace(f, d, boxes, m, p, part, r);
    }
  }

  lemma PlaceKnown(f: Forest, d: Depths, boxes: map<Handle, Box>, m: Request, p: Place)
    requires Inv(f, d) && Ready(f, d, boxes, m, p)
    ensures p.c in f.items && (p.toItem.Some? ==> p.toItem.value in f.info)
  {
    hide Inv, Above;
    if p.toItem.Some? {
      MeetsItem(f, d, p.c, p.toItem.value);
    }
  }

  // ---------- how much goes ----------

  /** An item that does not stack goes through exactly when it does not stay where it is, queryAdd lets it in,
      there is room, it lies where it is taken from and can be moved, and the place is not in a traded item. */
  lemma MovesIff(f: Forest, d: Depths, boxes: map<Handle, Box>, m: Request)
    requires Posed(f, boxes, m) && !Stackable(f, m.x)
    ensures var p := Settled(f, boxes, m);
            var q := m.q.(index := p.index, noLimit := m.q.noLimit && p.c == m.to);
            Planned(f, d, boxes, m).Moves? <==>
            && p.toItem != Some(m.x)
            && Verdict(f, d, boxes, p.c, m.x, q) == NoError
            && (q.noLimit || boxes[p.c].pagination || |f.items[p.c]| < boxes[p.c].capacity)
            && m.x in f.items[m.from]
            && ((f.info[m.x].id in f.types && f.types[f.info[m.x].id].moveable) || (m.ignoreNotMoveable && p.c == m.to))
            && !(m.tradeItem.Some? && Above(f, d, m.tradeItem.value, p.c))
  {
    hide Settled, Verdict, Above;
  }

  /** Into a container that is full, exactly what the stack in the place has left up to 100 pieces goes. */
  lemma FullTakesRest(f: Forest, d: Depths, boxes: map<Handle, Box>, m: Request, p: Place, part: nat, r: ReturnValue)
    requires Inv(f, d) && Sends(f, d, boxes, m, p, part, r) && Stackable(f, m.x) && m.q.count > 0
    requires p.c in boxes && p.c in f.items && !boxes[p.c].pagination && !(m.q.noLimit && p.c == m.to)
    requires |f.items[p.c]| >= boxes[p.c].capacity
    ensures 0 <= p.index < |f.items[p.c]|
    ensures var y := f.items[p.c][p.index];
            && p.toItem == Some(y) && y in f.info && f.info[y].count < 100
            && part == (if f.info[y].count + m.q.count <= 100 then m.q.count else 100 - f.info[y].count)
            && r == (if f.info[y].count + m.q.count <= 100 then NoError else ContainerNotEnoughRoom)
  {
    hide Inv, Ready, Allowed, Above, Verdict, Settled, RoomOnStacks, Wrap, Stackable;
    PlanReady(f, d, boxes, m, p, part, r);
    FullWhereever(f, d, boxes, p.c, m.x, Asking(m, p));
    MeetsAtIndex(f, boxes, m);
  }

  /** In general the free places take 100 pieces each and the stack in the place what it has left; what is
      more than that stays behind. An amount of 255 stands for the whole stack. */
  lemma RoomDecides(f: Forest, d: Depths, boxes: map<Handle, Box>, m: Request, p: Place, part: nat, r: ReturnValue)
    requires Sends(f, d, boxes, m, p, part, r) && Stackable(f, m.x) && p.c in boxes && p.c in f.items && p.index != -1
    requires !boxes[p.c].pagination && !(m.q.noLimit && p.c == m.to)
    ensures var free := if boxes[p.c].capacity > |f.items[p.c]| then boxes[p.c].capacity - |f.items[p.c]| else 0;
            var rest := if CanTake(f, d, boxes, p.c, m.x, Asking(m, p)) then 100 - f.info[f.items[p.c][p.index]].count else 0;
            var fits := if m.q.count <= 100 * free + rest then m.q.count else 100 * free + rest;
            && part == (if fits == 255 then f.info[m.x].count else fits)
            && r == (if fits == m.q.count then NoError else ContainerNotEnoughRoom)
  {
    hide Settled, Verdict, Above, RoomOnStacks;
  }

  /** A stack is moved exactly when it does not stay where it is, queryAdd lets that many in, a free place or
      the stack in the place can take some, between one piece and all it has would go, it lies where it is
      taken from and can be moved, and the place is not in a traded item. */
  lemma StackMovesIff(f: Forest, d: Depths, boxes: map<Handle, Box>, m: Request)
    requires Posed(f, boxes, m) && Stackable(f, m.x) && m.q.count > 0 && Settled(f, boxes, m).index != -1
    ensures var p := Settled(f, boxes, m);
            var q := m.q.(index := p.index, noLimit := m.q.noLimit && p.c == m.to);
            var open := q.noLimit || boxes[p.c].pagination;
            var free := if boxes[p.c].capacity > |f.items[p.c]| then boxes[p.c].capacity - |f.items[p.c]| else 0;
            var rest := if CanTake(f, d, boxes, p.c, m.x, q) then 100 - f.info[f.items[p.c][p.index]].count else 0;
            var fits := if open || m.q.count <= 100 * free + rest then m.q.count else 100 * free + rest;
            var part := if fits == 255 then f.info[m.x].count else fits;
            Planned(f, d, boxes, m).Moves? <==>
            && p.toItem != Some(m.x)
            && Verdict(f, d, boxes, p.c, m.x, q) == NoError
            && (open || free > 0 || rest > 0)
            && 1 <= part <= f.info[m.x].count
            && m.x in f.items[m.from]
            && (f.types[f.info[m.x].id].moveable || (m.ignoreNotMoveable && p.c == m.to))
            && !(m.tradeItem.Some? && Above(f, d, m.tradeItem.value, p.c))
  {
    hide Settled, Verdict, Above, RoomOnStacks;
  }

  /** With any index, the room is what all the stacks together have left: a stack of the same kind up to 100
      pieces, if queryAdd lets that many in at the first place. */
  lemma {:induction false} RoomOfLists(f: Forest, d: Depths, boxes: map<Handle, Box>, c: Handle, x: Handle, q: Query, a: seq<Handle>,
                                       b: seq<Handle>)
    requires c in boxes && x in f.info && c in f.items
    ensures RoomOnStacks(f, d, boxes, c, x, q, a + b) == RoomOnStacks(f, d, boxes, c, x, q, a) + RoomOnStacks(f, d, boxes, c, x, q, b)
    decreases |b|
  {
    hide Joins, Verdict;
    if b == [] {
      assert a + b == a;
    } else {
      assert (a + b)[..|a + b| - 1] == a + b[..|b| - 1];
      RoomOfLists(f, d, boxes, c, x, q, a, b[..|b| - 1]);
    }
  }

  lemma RoomOfStack(f: Forest, d: Depths, boxes: map<Handle, Box>, c: Handle, x: Handle, q: Query, y: Handle)
    requires c in boxes && x in f.info && c in f.items && y in f.info
    ensures RoomOnStacks(f, d, boxes, c, x, q, [y])
         == if y != x && f.info[y].id == f.info[x].id && q.alike(f.info[y].attrs, f.info[x].attrs) && f.info[y].count < 100
               && Verdict(f, d, boxes, c, x, q.(index := 0, count := 100 - f.info[y].count)) == NoError
            then 100 - f.info[y].count else 0
  {
    hide Verdict;
    assert [y][..0] == [] && RoomOnStacks(f, d, boxes, c, x, q, []) == 0;
  }

  /** Of a stack all that is asked for goes if there is a free place and no more than 100 are asked for. */
  lemma AsMuchAsAsked(f: Forest, d: Depths, boxes: map<Handle, Box>, m: Request, p: Place, part: nat, r: ReturnValue)
    requires Sends(f, d, boxes, m, p, part, r) && Stackable(f, m.x) && p.c in boxes && p.c in f.items
    requires |f.items[p.c]| < boxes[p.c].capacity && m.q.count <= 100
    ensures part == m.q.count && r == NoError
  {
    hide Settled, Verdict, Above, RoomOnStacks, RoomAt;
  }

  /** Where limits do not matter 255 stands for the whole stack, and any other number for itself. */
  lemma AllOfIt(f: Forest, d: Depths, boxes: map<Handle, Box>, m: Request, p: Place, part: nat, r: ReturnValue)
    requires Sends(f, d, boxes, m, p, part, r) && Stackable(f, m.x) && p.c in boxes
    requires (m.q.noLimit && p.c == m.to) || boxes[p.c].pagination
    ensures part == (if m.q.count == 255 then f.info[m.x].count else m.q.count) && r == NoError
  {
    hide Settled, Verdict, Above, RoomOnStacks, RoomAt;
  }

  /** A part joins a stack of up to 100 pieces until that has 100. */
  lemma FillsUp(f: Forest, m: Request, p: Place, part: nat, left: seq<Block>)
    requires m.x in f.info && p.toItem.Some? && p.toItem.value in f.info && f.info[p.toItem.value].count <= 100
    requires Stackable(f, m.x) && f.info[m.x].id == f.info[p.toItem.value].id
    requires m.q.alike(f.info[m.x].attrs, f.info[p.toItem.value].attrs) && !f.types[f.info[m.x].id].subTypeAttribute
    ensures var y, n := p.toItem.value, Merged(f, m.x, p.toItem, part, m.q.alike);
            Grown(f, y, n, left).count == if f.info[y].count + part <= 100 then f.info[y].count + part else 100
  {
  }
}
