/** What items weigh: the weight of an item from its type, its attributes and its count, and what moving a
    stack does to the weights around it. */
module ItemWeights {
  import opened Bytes
  import opened ItemForest
  import opened ItemMoves
  import opened ItemStore
  import opened ItemQueries
  import opened ItemTransfers
  import opened TransferLaws

  // ---------- one item ----------

  /** An item weighs what its type says, unless attribute 27 says otherwise; the last one counts. */
  lemma BaseWeights(types: ItemTypes, id: nat, count: nat, attrs: seq<Block>, b: Block)
    ensures BaseWeight(types, Info(id, count, [])) == if id in types then types[id].weight else 0
    ensures BaseWeight(types, Info(id, count, attrs + [b]))
         == if b.tag == 27 then DecodeLE(b.payload) else BaseWeight(types, Info(id, count, attrs))
  {
    assert (attrs + [b])[..|attrs|] == attrs;
  }

  /** The pieces of a stack weigh the same each, in 32 bits, and an item of count 0 weighs as one piece. */
  lemma StackWeighs(types: ItemTypes, info: Info)
    requires info.id in types && types[info.id].stackable
    ensures OwnWeight(types, info) == (BaseWeight(types, info) * (if info.count == 0 then 1 else info.count)) % 0x1_0000_0000
  {
  }

  /** Two stacks weigh as much as one with the pieces of both. */
  lemma StacksAddUp(types: ItemTypes, info: Info, a: nat, b: nat)
    requires info.id in types && types[info.id].stackable && a >= 1 && b >= 1
    ensures OwnWeight(types, info.(count := a + b))
         == (OwnWeight(types, info.(count := a)) + OwnWeight(types, info.(count := b))) % 0x1_0000_0000
  {
    var w := BaseWeight(types, info);
    hide BaseWeight;
    SameBase(types, info.(count := a + b), info);
    SameBase(types, info.(count := a), info);
    SameBase(types, info.(count := b), info);
    assert w * (a + b) == w * a + w * b;
    WrapAdds(w * a, w * b);
  }

  lemma WrapAdds(x: int, y: int)
    ensures Wrap(Wrap(x) + Wrap(y)) == Wrap(x + y)
  {
    WrapShift(x, Wrap(y));
    WrapShift(y, x);
  }

  /** The count of anything else does not matter. */
  lemma OthersWeigh(types: ItemTypes, info: Info, count: nat)
    requires !(info.id in types && types[info.id].stackable)
    ensures OwnWeight(types, info) == OwnWeight(types, info.(count := count)) == BaseWeight(types, info) % 0x1_0000_0000
  {
  }

  /** A hundred coins of weight 10 weigh 1000. */
  method WeighCoins() returns (w: nat)
    ensures w == 1000
  {
    var store := new Store(Coinage());
    assert 0 !in store.total;
    hide Inv, OwnWeight;
    store.NewItem(0, Info(3, 100, []), Box(true, 0, false, false, false));
    w := store.GetWeight(0);
    HundredCoins();
  }

  function Coinage(): ItemTypes {
    map[3 := ItemType(false, true, 10, true, false, true, false)]
  }

  lemma HundredCoins()
    ensures OwnWeight(Coinage(), Info(3, 100, [])) == 1000 && !IsContainer(Coinage(), Info(3, 100, []))
  {
    BaseWeights(Coinage(), 3, 100, [], Block(0, []));
  }

  // ---------- moving a stack inside a container ----------

  /** What is inside h weighs, before any wrap. */
  ghost function Load(f: Forest, d: Depths, h: Handle): int {
    Sum(f, Inside(f, d, h))
  }

  lemma SameLoad(f: Forest, g: Forest, d: Depths, h: Handle)
    requires g.parent == f.parent && g.info == f.info && g.types == f.types
    ensures Load(g, d, h) == Load(f, d, h)
  {
    SameLinksInside(f, g, d, h);
    SameOwn(f, g, Inside(f, d, h));
  }

  /** Changing an item changes the load around it by the difference of its weights. */
  lemma UpdatedLoad(f: Forest, d: Depths, c: Handle, i: nat, what: Info, h: Handle)
    requires Inv(f, d) && c in f.items && i < |f.items[c]| && h in f.info && Above(f, d, h, c)
    ensures Load(Updated(f, d, c, i, what), d, h) == Load(f, d, h) + OwnWeight(f.types, what) - Own(f, f.items[c][i])
  {
    hide Inv, Above, Updated, Inside, Own, OwnWeight, Sum;
    var x := f.items[c][i];
    MeetsItem(f, d, c, x);
    InvMeans(f, d);
    hide Valid;
    InfoSum(f, d, c, x, what, h);
    UpdatedFields(f, d, c, i, what);
    SameLoad(f.(info := f.info[x := what]), Updated(f, d, c, i, what), d, h);
  }

  /** Taking out an item that holds nothing lightens the load around it by its weight. */
  lemma RemovedLoad(f: Forest, d: Depths, c: Handle, i: nat, h: Handle)
    requires Inv(f, d) && c in f.items && i < |f.items[c]| && f.items[c][i] !in f.items && h in f.info && Above(f, d, h, c)
    ensures Load(Removed(f, d, c, i), DepthsUnlinked(f, d, f.items[c][i]), h) == Load(f, d, h) - Own(f, f.items[c][i])
  {
    hide Inv, Above, Removed, Inside, Own, Sum, DepthsUnlinked, Unlinked, Subtree;
    var x := f.items[c][i];
    MeetsItem(f, d, c, x);
    InvMeans(f, d);
    hide Valid;
    UnlinkSum(f, d, c, i, h);
    UnlinkAbove(f, d, c, i, h);
    SubtreeSum(f, d, x);
    NothingInside(f, d, x);
    EmptySum(f);
    RemovedLinks(f, d, c, i);
    UnlinkedTypes(f, d, c, i);
    SameLoad(Unlinked(f, c, i), Removed(f, d, c, i), DepthsUnlinked(f, d, x), h);
  }

  lemma EmptySum(f: Forest)
    ensures Sum(f, {}) == 0
  {
  }

  lemma UnlinkedTypes(f: Forest, d: Depths, c: Handle, i: nat)
    ensures Removed(f, d, c, i).types == Unlinked(f, c, i).types
  {
  }

  /** Putting in an item that holds nothing adds its weight to the load around. */
  lemma AddedLoad(f: Forest, d: Depths, c: Handle, x: Handle, h: Handle)
    requires Inv(f, d) && CanLink(f, d, c, x) && x !in f.items && h in f.info && Above(f, d, h, c)
    ensures Load(Added(f, d, c, 0, x), DepthsLinked(f, d, c, x), h) == Load(f, d, h) + Own(f, x)
  {
    hide Inv, Above, Added, Inside, Own, Sum, DepthsLinked, Linked, Subtree;
    assert c in f.items && x in f.info;
    InvMeans(f, d);
    LinkValid(f, d, c, 0, x);
    hide Valid, CanLink;
    ValidRanked(Linked(f, c, 0, x), DepthsLinked(f, d, c, x));
    LinkSum(f, d, c, 0, x, h);
    SubtreeSum(f, d, x);
    NothingInside(f, d, x);
    EmptySum(f);
    AddedLinks(f, d, c, x);
    AddedTypes(f, d, c, x);
    SameLoad(Linked(f, c, 0, x), Added(f, d, c, 0, x), DepthsLinked(f, d, c, x), h);
  }

  lemma ValidRanked(f: Forest, d: Depths)
    requires Valid(f, d)
    ensures Ranked(f, d)
  {
  }

  lemma AddedTypes(f: Forest, d: Depths, c: Handle, x: Handle)
    ensures Added(f, d, c, 0, x).types == Linked(f, c, 0, x).types
  {
  }

  /** A new item in nothing weighs on nobody. */
  lemma CreatedLoad(f: Forest, d: Depths, h: Handle, what: Info, k: Handle)
    requires Inv(f, d) && h !in f.info && k in f.info
    ensures Load(Created(f, h, what), d[h := 0], k) == Load(f, d, k)
  {
    hide Sum, Inside, Created;
    InvMeans(f, d);
    CreateInside(f, d, h, what, k);
  }

  lemma WrapsAway(l: int, a: int, b: int)
    ensures Wrap(l + Wrap(a) - Wrap(b)) == Wrap(l + a - b)
    ensures Wrap(l + Wrap(a)) == Wrap(l + a)
    ensures Wrap(l - Wrap(b)) == Wrap(l - b)
  {
    WrapTwice(a);
    WrapTwice(b);
    WrapSame(Wrap(a), a, l);
    WrapNegate(Wrap(b), b);
    WrapSame(0 - Wrap(b), -b, l);
    WrapSame(0 - Wrap(b), -b, l + Wrap(a));
    WrapSame(Wrap(a), a, l - b);
  }

  /** The weight of n pieces of x, before any wrap. */
  function PiecesWeigh(f: Forest, x: Handle, n: int): int
    requires x in f.info
  {
    BaseWeight(f.types, f.info[x]) * n
  }

  /** Taking part of a stack lightens the load by the weight of that part. */
  lemma TakenLoad(f: Forest, d: Depths, c: Handle, x: Handle, part: nat, k: Handle)
    requires Inv(f, d) && c in f.items && x in f.items[c] && x !in f.items && k in f.info && Above(f, d, k, c)
    requires x in f.info && Stackable(f, x) && ByteCounts(f) && 1 <= part <= f.info[x].count
    ensures Wrap(Load(Taken(f, d, c, x, part).0, Taken(f, d, c, x, part).1, k)) == Wrap(Load(f, d, k) - PiecesWeigh(f, x, part))
  {
    hide Inv, Above, Updated, Removed, DepthsUnlinked, Load, Wrap, Counted, ByteCounts, BaseWeight;
    var i, count, w := Position(f.items[c], x), f.info[x].count, BaseWeight(f.types, f.info[x]);
    CountedDown(f, x, part);
    OwnPieces(f, x);
    if Partly(f, x, part) {
      UpdatedLoad(f, d, c, i, Counted(f.info[x], part), k);
      CountedWeighs(f, x, part);
      WrapsAway(Load(f, d, k), w * (count - part), w * count);
      assert w * (count - part) - w * count == 0 - w * part;
    } else {
      RemovedLoad(f, d, c, i, k);
      WrapsAway(Load(f, d, k), 0, w * count);
    }
  }

  lemma OwnPieces(f: Forest, x: Handle)
    requires x in f.info && Stackable(f, x) && f.info[x].count >= 1
    ensures Own(f, x) == Wrap(PiecesWeigh(f, x, f.info[x].count))
  {
    hide BaseWeight, Wrap;
  }

  lemma CountedWeighs(f: Forest, x: Handle, part: nat)
    requires x in f.info && Stackable(f, x) && ByteCounts(f) && part < f.info[x].count
    ensures OwnWeight(f.types, Counted(f.info[x], part)) == Wrap(PiecesWeigh(f, x, f.info[x].count - part))
  {
    CountedDown(f, x, part);
    assert Counted(f.info[x], part).attrs == f.info[x].attrs && Counted(f.info[x], part).id == f.info[x].id;
    SameBase(f.types, Counted(f.info[x], part), f.info[x]);
    hide BaseWeight, Wrap, Counted;
  }

  lemma SameBase(types: ItemTypes, a: Info, b: Info)
    requires a.id == b.id && a.attrs == b.attrs
    ensures BaseWeight(types, a) == BaseWeight(types, b)
  {
  }

  /** Joining n pieces adds their weight, if a piece of the stack weighs as much as one of the item. */
  lemma JoinedLoad(f: Forest, d: Depths, c: Handle, y: Handle, what: Info, w: nat, n: nat, k: Handle)
    requires Inv(f, d) && c in f.items && y in f.items[c] && y in f.info && k in f.info && Above(f, d, k, c)
    requires Stackable(f, y) && f.info[y].count >= 1 && what.id == f.info[y].id && what.count == f.info[y].count + n
    requires BaseWeight(f.types, f.info[y]) == BaseWeight(f.types, what) == w
    ensures Wrap(Load(Joined(f, d, c, y, what), d, k)) == Wrap(Load(f, d, k) + w * n)
  {
    hide Inv, Above, Updated, Load, Wrap, BaseWeight;
    UpdatedLoad(f, d, c, Position(f.items[c], y), what, k);
    OwnPieces(f, y);
    var count := f.info[y].count;
    assert OwnWeight(f.types, what) == Wrap(w * (count + n));
    WrapsAway(Load(f, d, k), w * (count + n), w * count);
    assert w * (count + n) - w * count == w * n;
  }

  /** The clone with the rest adds the weight of the rest. */
  lemma ClonedLoad(f: Forest, d: Depths, c: Handle, index: int, capacity: nat, h: Handle, clone: Info, w: nat, k: Handle)
    requires Inv(f, d) && h !in f.info && c in f.items && k in f.info && Above(f, d, k, c) && index < capacity
    requires clone.id in f.types && f.types[clone.id].stackable && !f.types[clone.id].container && clone.count >= 1
    requires BaseWeight(f.types, clone) == w
    ensures var (g, e) := Put(Created(f, h, clone), d[h := 0], c, index, capacity, h);
            Wrap(Load(g, e, k)) == Wrap(Load(f, d, k) + w * clone.count)
  {
    hide Inv, Above, Added, DepthsLinked, Created, Load, Wrap, BaseWeight, CanLink, Own;
    CreatedFacts(f, d, h, clone, k, c);
    NewItemLinks(f, d, c, h, clone);
    CreatedLoad(f, d, h, clone, k);
    AddedLoad(Created(f, h, clone), d[h := 0], c, h, k);
    CloneOwn(f, h, clone, w);
    WrapsAway(Load(f, d, k), w * clone.count, 0);
  }

  lemma CloneOwn(f: Forest, h: Handle, clone: Info, w: nat)
    requires clone.id in f.types && f.types[clone.id].stackable && clone.count >= 1 && BaseWeight(f.types, clone) == w
    ensures Own(Created(f, h, clone), h) == Wrap(w * clone.count)
  {
    hide BaseWeight, Wrap;
  }

  lemma CreatedFacts(f: Forest, d: Depths, h: Handle, what: Info, k: Handle, c: Handle)
    requires Inv(f, d) && h !in f.info && c in f.items && k in f.info && Above(f, d, k, c) && !IsContainer(f.types, what)
    ensures Above(Created(f, h, what), d[h := 0], k, c) && h !in Created(f, h, what).items && k in Created(f, h, what).info
  {
    hide Above, Mirrored, Ranked, Weighed;
    CreateAbove(f, d, h, what, k, c);
  }

  lemma TakenAbove(f: Forest, d: Depths, c: Handle, x: Handle, part: nat, c2: Handle, k: Handle)
    requires Inv(f, d) && c in f.items && x in f.items[c] && x in f.info && c2 in f.items && !Above(f, d, x, c2) && Above(f, d, k, c2)
    ensures Above(Taken(f, d, c, x, part).0, Taken(f, d, c, x, part).1, k, c2)
  {
    hide Inv, Above, Updated, Removed, DepthsUnlinked, Counted;
    var i := Position(f.items[c], x);
    MeetsItem(f, d, c, x);
    HoldersExist(f, d, c2);
    if Partly(f, x, part) {
      UpdatedFields(f, d, c, i, Counted(f.info[x], part));
      SameLinksAbove(f, Updated(f, d, c, i, Counted(f.info[x], part)), d, k, c2);
    } else {
      TakenOutIs(f, d, c, x);
      TakenOutAbove(f, d, x, k, c2);
    }
  }

  /** A piece of the stack that is joined weighs as much as one of the item, before and after. */
  predicate SamePieces(f: Forest, m: Request, p: Place, part: nat, left: seq<Block>)
    requires m.x in f.info && (p.toItem.Some? ==> p.toItem.value in f.info)
  {
    Merges(f, m.x, p.toItem, m.q.alike) ==>
      var y := p.toItem.value;
      && f.info[y].count >= 1
      && BaseWeight(f.types, f.info[y]) == BaseWeight(f.types, f.info[m.x])
      && BaseWeight(f.types, Grown(f, y, Merged(f, m.x, p.toItem, part, m.q.alike), left)) == BaseWeight(f.types, f.info[m.x])
  }

  /** Moving a stack, or a part of it, inside a container leaves the weight of that container alone when no
      piece is lost, however the pieces are split and joined. */
  lemma StackMoveKeepsWeight(f: Forest, d: Depths, boxes: map<Handle, Box>, m: Request, p: Place, part: nat, r: ReturnValue, h: Handle,
                             left: seq<Block>, k: Handle)
    requires Inv(f, d) && Sends(f, d, boxes, m, p, part, r) && Stackable(f, m.x) && m.x !in f.items && h !in f.info && ByteCounts(f)
    requires p.c in boxes && (p.toItem.Some? ==> p.toItem.value in f.info)
    requires AllFits(f, m, p, part, boxes[p.c].capacity) && SamePieces(f, m, p, part, left)
    requires k in f.items && Above(f, d, k, m.from) && Above(f, d, k, p.c)
    ensures m.from in f.items && m.x in f.items[m.from] && k in f.total
    ensures var g := Carried(f, d, m, p, part, boxes[p.c].capacity, h, left).0;
            k in g.total && g.total[k] == f.total[k]
  {
    hide Inv, Sends, Carried, Allowed, Above, InfoAfter, ParentAfter, ByteCounts, AllFits, Ready, Load, SamePieces;
    PlanReady(f, d, boxes, m, p, part, r);
    CarriedKeeps(f, d, boxes, m, p, part, h, left);
    CarriedLoad(f, d, boxes, m, p, part, h, left, k);
    TotalIsLoad(f, d, k);
    var (g, e) := Carried(f, d, m, p, part, boxes[p.c].capacity, h, left);
    TotalIsLoad(g, e, k);
  }

  lemma TotalIsLoad(f: Forest, d: Depths, k: Handle)
    requires Inv(f, d) && k in f.items
    ensures k in f.total && f.total[k] == Wrap(Load(f, d, k))
  {
    WeighedAt(f, d, k);
  }

  lemma CarriedLoad(f: Forest, d: Depths, boxes: map<Handle, Box>, m: Request, p: Place, part: nat, h: Handle, left: seq<Block>, k: Handle)
    requires Inv(f, d) && Ready(f, d, boxes, m, p) && m.x in f.info && Stackable(f, m.x) && m.x !in f.items && h !in f.info && ByteCounts(f)
    requires m.from in f.items && m.x in f.items[m.from] && p.c in boxes && (p.toItem.Some? ==> p.toItem.value in f.info)
    requires 1 <= part <= f.info[m.x].count && AllFits(f, m, p, part, boxes[p.c].capacity) && SamePieces(f, m, p, part, left)
    requires k in f.items && Above(f, d, k, m.from) && Above(f, d, k, p.c)
    ensures var (g, e) := Carried(f, d, m, p, part, boxes[p.c].capacity, h, left);
            Wrap(Load(g, e, k)) == Wrap(Load(f, d, k))
  {
    hide Inv, Ready, Above, Taken, Joined, Put, Created, Merged, Equal, Grown, Clone, InfoTaken, ParentTaken, Load, Wrap, BaseWeight,
         Partly, Without, AllFits, SamePieces, Stackable, ByteCounts, PiecesWeigh;
    var w, n := BaseWeight(f.types, f.info[m.x]), Merged(f, m.x, p.toItem, part, m.q.alike);
    var (f1, d1) := Taken(f, d, m.from, m.x, part);
    ReadyFacts(f, d, boxes, m, p, part);
    TakenStep(f, d, m.from, m.x, part, p.c, k);
    var f2 := if Merges(f, m.x, p.toItem, m.q.alike) then Joined(f1, d1, p.c, p.toItem.value, Grown(f, p.toItem.value, n, left)) else f1;
    if Merges(f, m.x, p.toItem, m.q.alike) {
      GrownMeans(f, f1, m, p, part, boxes[p.c].capacity, left);
      JoinedStep(f1, d1, p.c, p.toItem.value, Grown(f, p.toItem.value, n, left), w, n, k);
    } else {
      assert w * n == 0 by { NotMerged(f, m, p, part); }
    }
    PartAndMerged(w, part, n, Load(f, d, k), Load(f1, d1, k), Load(f2, d1, k));
    if part != n {
      CloneCounts(f, m, p, part, boxes[p.c].capacity, n);
      ClonedLoad(f2, d1, p.c, p.index, boxes[p.c].capacity, h, Clone(f, m.x, part - n), w, k);
      RestAdded(w, part, n, Load(f, d, k), Load(f2, d1, k));
    }
  }

  lemma NotMerged(f: Forest, m: Request, p: Place, part: nat)
    requires !Merges(f, m.x, p.toItem, m.q.alike)
    ensures Merged(f, m.x, p.toItem, part, m.q.alike) == 0
  {
  }

  lemma ReadyFacts(f: Forest, d: Depths, boxes: map<Handle, Box>, m: Request, p: Place, part: nat)
    requires Inv(f, d) && Ready(f, d, boxes, m, p) && m.x in f.info
    ensures p.c in f.items && m.from in f.items && m.x in f.items[m.from] && !Above(f, d, m.x, p.c) && StacksHoldNothing(f.types)
    ensures p.toItem.Some? ==>
              var (f1, d1) := Taken(f, d, m.from, m.x, part);
              var y := p.toItem.value;
              y in f.info && p.c in f1.items && y in f1.items[p.c] && y in f1.info && f1.info[y] == f.info[y]
  {
    hide Inv, Taken, Above;
    if p.toItem.Some? {
      TargetStays(f, d, boxes, m, p, part);
    }
  }

  lemma CloneCounts(f: Forest, m: Request, p: Place, part: nat, capacity: nat, n: nat)
    requires m.x in f.info && Stackable(f, m.x) && StacksHoldNothing(f.types) && ByteCounts(f) && part <= f.info[m.x].count
    requires n == Merged(f, m.x, p.toItem, part, m.q.alike) && n != part && (p.toItem.Some? ==> p.toItem.value in f.info)
    requires AllFits(f, m, p, part, capacity)
    ensures p.index < capacity
    ensures var clone := Clone(f, m.x, part - n);
            && clone.count == part - n && clone.id in f.types && f.types[clone.id].stackable && !f.types[clone.id].container
            && BaseWeight(f.types, clone) == BaseWeight(f.types, f.info[m.x])
  {
    hide Merged;
    assert f.info[m.x].count < 256;
    SameBase(f.types, Clone(f, m.x, part - n), f.info[m.x]);
    hide BaseWeight;
  }

  lemma PartAndMerged(w: int, part: int, n: int, l0: int, l1: int, l2: int)
    requires Wrap(l1) == Wrap(l0 - w * part) && Wrap(l2) == Wrap(l1 + w * n)
    ensures Wrap(l2) == Wrap(l0 - w * (part - n))
  {
    WrapSame(l1, l0 - w * part, w * n);
    assert w * n + (l0 - w * part) == l0 - w * (part - n);
  }

  lemma RestAdded(w: int, part: int, n: int, l0: int, l2: int)
    requires Wrap(l2) == Wrap(l0 - w * (part - n))
    ensures Wrap(l2 + w * (part - n)) == Wrap(l0)
  {
    WrapSame(l2, l0 - w * (part - n), w * (part - n));
  }

  lemma TakenStep(f: Forest, d: Depths, c: Handle, x: Handle, part: nat, c2: Handle, k: Handle)
    requires Inv(f, d) && c in f.items && x in f.items[c] && x in f.info && c2 in f.items && !Above(f, d, x, c2)
    requires Stackable(f, x) && x !in f.items && ByteCounts(f)
    requires 1 <= part <= f.info[x].count && k in f.items && Above(f, d, k, c) && Above(f, d, k, c2)
    ensures var (f1, d1) := Taken(f, d, c, x, part);
            && Inv(f1, d1) && f1.types == f.types && f1.info.Keys == f.info.Keys && c2 in f1.items && k in f1.info && Above(f1, d1, k, c2)
            && Wrap(Load(f1, d1, k)) == Wrap(Load(f, d, k) - BaseWeight(f.types, f.info[x]) * part)
  {
    hide Inv, Taken, Load, Wrap, BaseWeight, CanLink, Without, Counted, ByteCounts, Above, Stackable, Partly, InfoTaken, ParentTaken;
    HoldersExist(f, d, k);
    TakenLists(f, d, c, x, part, c2);
    TakenLoad(f, d, c, x, part, k);
    TakenAbove(f, d, c, x, part, c2, k);
  }

  lemma TakenLists(f: Forest, d: Depths, c: Handle, x: Handle, part: nat, c2: Handle)
    requires Inv(f, d) && c in f.items && x in f.items[c] && x in f.info && c2 in f.items && !Above(f, d, x, c2)
    ensures var (f1, d1) := Taken(f, d, c, x, part);
            Inv(f1, d1) && f1.types == f.types && f1.info.Keys == f.info.Keys && c2 in f1.items
  {
    hide Inv, Taken, CanLink, Without, Counted, Above;
    TakenKeeps(f, d, c, x, part, c2);
  }

  lemma JoinedStep(f: Forest, d: Depths, c: Handle, y: Handle, what: Info, w: nat, n: nat, k: Handle)
    requires Inv(f, d) && c in f.items && y in f.items[c] && y in f.info && k in f.info && Above(f, d, k, c)
    requires Stackable(f, y) && f.info[y].count >= 1 && what.id == f.info[y].id && what.count == f.info[y].count + n
    requires BaseWeight(f.types, f.info[y]) == BaseWeight(f.types, what) == w
    ensures var g := Joined(f, d, c, y, what);
            && Inv(g, d) && g.types == f.types && g.info.Keys == f.info.Keys && c in g.items && k in g.info && Above(g, d, k, c)
            && Wrap(Load(g, d, k)) == Wrap(Load(f, d, k) + w * n)
  {
    hide Inv, Load, Wrap, BaseWeight, Above, Joined, Stackable;
    JoinedLoad(f, d, c, y, what, w, n, k);
    JoinedKeeps(f, d, c, y, what);
    SameLinksAbove(f, Joined(f, d, c, y, what), d, k, c);
  }

  /** What the stack it joins is like. */
  lemma GrownMeans(f: Forest, f1: Forest, m: Request, p: Place, part: nat, capacity: nat, left: seq<Block>)
    requires m.x in f.info && ByteCounts(f) && p.toItem.Some? && p.toItem.value in f.info
    requires Merges(f, m.x, p.toItem, m.q.alike) && AllFits(f, m, p, part, capacity) && SamePieces(f, m, p, part, left)
    requires f1.types == f.types && p.toItem.value in f1.info && f1.info[p.toItem.value] == f.info[p.toItem.value]
    ensures var y, n := p.toItem.value, Merged(f, m.x, p.toItem, part, m.q.alike);
            && Stackable(f1, y) && f1.info[y].count >= 1
            && Grown(f, y, n, left).id == f1.info[y].id && Grown(f, y, n, left).count == f1.info[y].count + n
            && BaseWeight(f1.types, f1.info[y]) == BaseWeight(f1.types, Grown(f, y, n, left)) == BaseWeight(f.types, f.info[m.x])
  {
    GrownCount(f, m, p, part, capacity, left);
    hide BaseWeight, Grown, Merged;
  }

  lemma GrownCount(f: Forest, m: Request, p: Place, part: nat, capacity: nat, left: seq<Block>)
    requires m.x in f.info && ByteCounts(f) && p.toItem.Some? && p.toItem.value in f.info
    requires Merges(f, m.x, p.toItem, m.q.alike) && AllFits(f, m, p, part, capacity)
    ensures var y, n := p.toItem.value, Merged(f, m.x, p.toItem, part, m.q.alike);
            && Grown(f, y, n, left).count == f.info[y].count + n && Grown(f, y, n, left).id == f.info[y].id
            && Stackable(f, y)
  {
    assert f.info[p.toItem.value].count < 256;
  }
}
