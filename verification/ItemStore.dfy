/** The objects themselves: one store holds the fields of all items and containers, and the container
    operations change them in place. */
module ItemStore {
  import opened Bytes
  import opened ItemForest
  import opened ItemMoves

  /** The fields of a container that its item type and its class decide. */
  datatype Box = Box(unlocked: bool, capacity: nat, pagination: bool, inbox: bool, quiver: bool)

  class Store {
    const types: ItemTypes
    var info: map<Handle, Info>
    var parent: map<Handle, Handle>
    var items: map<Handle, seq<Handle>>
    var total: map<Handle, nat>
    var boxes: map<Handle, Box>
    ghost var depths: Depths

    function State(): Forest
      reads this
    {
      Forest(types, info, parent, items, total)
    }

    ghost predicate Sound()
      reads this
    {
      Inv(State(), depths) && items.Keys <= boxes.Keys
    }

    constructor (types: ItemTypes)
      ensures Sound() && this.types == types && info == map[] && items == map[] && parent == map[]
    {
      this.types := types;
      info, parent, items, total, boxes, depths := map[], map[], map[], map[], map[], map[];
    }

    /** Item::CreateItem: a new object, in no container. */
    method NewItem(h: Handle, what: Info, box: Box)
      requires Sound() && h !in info
      modifies this
      ensures Sound() && boxes == old(boxes)[h := box] && depths == old(depths)[h := 0]
      ensures State() == Created(old(State()), h, what)
    {
      CreateKeeps(State(), depths, h, what);
      hide Inv;
      info := info[h := what];
      boxes := boxes[h := box];
      depths := depths[h := 0];
      if IsContainer(types, what) {
        items := items[h := []];
        total := total[h := 0];
      }
    }

    method GetWeight(x: Handle) returns (w: nat)
      requires x in info
      ensures w == Weight(State(), x) < WORD
    {
      w := OwnWeight(types, info[x]);
      if x in total {
        w := Wrap(w + total[x]);
      }
    }

    method GetThingIndex(c: Handle, x: Handle) returns (index: int)
      requires c in items
      ensures index == if x in items[c] then Position(items[c], x) else -1
    {
      index := 0;
      while index < |items[c]|
        invariant 0 <= index <= |items[c]| && x !in items[c][..index]
      {
        if items[c][index] == x {
          PositionAt(items[c], x, index);
          return;
        }
        index := index + 1;
      }
      index := -1;
    }

    method UpdateItemWeight(c: Handle, diff: int)
      requires Valid(State(), depths) && c in items
      modifies `total
      ensures State() == Reweighed(old(State()), depths, c, diff)
    {
      hide Wrap, Above, Mirrored, Ranked, Climbed, Reweighed;
      ghost var f, d := State(), depths;
      total := total[c := Wrap(total[c] + diff)];
      var h := c;
      RootOnly(f, d, c, diff);
      while h in parent
        invariant h in f.items && Above(f, d, h, c)
        invariant total == Climbed(f, d, c, h, diff)
        decreases Depth(d, h)
      {
        ClimbStep(f, d, c, h, diff);
        h := parent[h];
        total := total[h := Wrap(total[h] + diff)];
      }
      ClimbEnd(f, d, c, h, diff);
      ReweighedFields(f, d, c, diff);
    }

    /** Container::internalAddThing: push_front and weigh, no questions asked. */
    method InternalAddThing(c: Handle, x: Handle)
      requires Sound() && CanLink(State(), depths, c, x)
      modifies `parent, `items, `total, `depths
      ensures Sound()
      ensures State() == Added(old(State()), old(depths), c, 0, x)
      ensures depths == DepthsLinked(old(State()), old(depths), c, x)
    {
      InsertAt(c, 0, x);
    }

    /** Container::addThing: like internalAddThing, but an index not below the capacity drops the item. */
    method AddThing(c: Handle, index: int, x: Handle)
      requires Sound() && CanLink(State(), depths, c, x)
      modifies `parent, `items, `total, `depths
      ensures Sound()
      ensures index >= boxes[c].capacity ==> State() == old(State()) && depths == old(depths)
      ensures index < boxes[c].capacity ==>
                && State() == Added(old(State()), old(depths), c, 0, x)
                && depths == DepthsLinked(old(State()), old(depths), c, x)
    {
      if index >= boxes[c].capacity {
        return;
      }
      InternalAddThing(c, x);
    }

    /** Container::addItemBack. */
    method AddItemBack(c: Handle, x: Handle)
      requires Sound() && CanLink(State(), depths, c, x)
      modifies `parent, `items, `total, `depths
      ensures Sound()
      ensures State() == Added(old(State()), old(depths), c, |old(items)[c]|, x)
      ensures depths == DepthsLinked(old(State()), old(depths), c, x)
    {
      InsertAt(c, |items[c]|, x);
    }

    method InsertAt(c: Handle, i: nat, x: Handle)
      requires Sound() && CanLink(State(), depths, c, x) && i <= |items[c]|
      modifies `parent, `items, `total, `depths
      ensures Sound()
      ensures State() == Added(old(State()), old(depths), c, i, x)
      ensures depths == DepthsLinked(old(State()), old(depths), c, x)
    {
      hide Wrap, AsInt32, Above, Mirrored, Ranked, Weighed, DepthsLinked, Weight, Inside;
      AddKeeps(State(), depths, c, i, x);
      LinkValid(State(), depths, c, i, x);
      var w := GetWeight(x);
      ghost var d := DepthsLinked(State(), depths, c, x);
      parent := parent[x := c];
      items := items[c := items[c][..i] + [x] + items[c][i..]];
      depths := d;
      UpdateItemWeight(c, AsInt32(w));
    }

    /** Container::updateThing: the item changes its type and sub type where it lies. `attrs` is what
        setID and setSubType leave of its attributes. */
    method UpdateThing(c: Handle, x: Handle, itemId: nat, count: nat, attrs: seq<Block>)
      requires Sound() && c in items
      modifies `info, `total
      ensures Sound()
      ensures x !in old(items)[c] ==> State() == old(State())
      ensures x in old(items)[c] ==>
                && x in old(info)
                && State() == Updated(old(State()), depths, c, Position(old(items)[c], x), Retyped(types, old(info)[x], itemId, count, attrs))
    {
      hide Updated, Removed, DepthsUnlinked, Counted, Retyped, Wrap, Weighed;
      var index := GetThingIndex(c, x);
      if index == -1 {
        return;
      }
      InList(State(), depths, c, index);
      SetInfo(c, index, Retyped(types, info[x], itemId, count, attrs));
    }

    method SetInfo(c: Handle, i: nat, what: Info)
      requires Sound() && c in items && i < |items[c]|
      modifies `info, `total
      ensures Sound() && State() == Updated(old(State()), depths, c, i, what)
    {
      hide Wrap, AsInt32, Difference, Above, Mirrored, Ranked, Weighed, WeighedBut, Weight, Inside;
      UpdateKeeps(State(), depths, c, i, what);
      InList(State(), depths, c, i);
      var x := items[c][i];
      InfoWeighs(State(), depths, c, x, what);
      var was := GetWeight(x);
      info := info[x := what];
      var now := GetWeight(x);
      UpdateItemWeight(c, Difference(was, now));
    }

    /** Container::replaceThing. */
    method ReplaceThing(c: Handle, index: nat, y: Handle)
      requires Sound() && CanLink(State(), depths, c, y)
      modifies `parent, `items, `total, `depths
      ensures Sound()
      ensures index >= |old(items)[c]| ==> State() == old(State()) && depths == old(depths)
      ensures index < |old(items)[c]| ==>
                && State() == Replaced(old(State()), old(depths), c, index, y)
                && depths == DepthsReplaced(old(State()), old(depths), c, index, y)
    {
      if index >= |items[c]| {
        return;
      }
      ReplaceAt(c, index, y);
    }

    method ReplaceAt(c: Handle, i: nat, y: Handle)
      requires Sound() && CanLink(State(), depths, c, y) && i < |items[c]|
      modifies `parent, `items, `total, `depths
      ensures Sound()
      ensures State() == Replaced(old(State()), old(depths), c, i, y)
      ensures depths == DepthsReplaced(old(State()), old(depths), c, i, y)
    {
      hide Wrap, AsInt32, Difference, Above, Valid, Weighed, Weight, Inside, Linked, Unlinked, DepthsReplaced, Reweighed, CanLink;
      CanLinkMeans(State(), depths, c, y);
      ReplaceKeeps(State(), depths, c, i, y);
      InList(State(), depths, c, i);
      var was := GetWeight(items[c][i]);
      var now := GetWeight(y);
      OverwriteAt(c, i, y);
      UpdateItemWeight(c, Difference(was, now));
    }

    method OverwriteAt(c: Handle, i: nat, y: Handle)
      requires Valid(State(), depths) && CanLink(State(), depths, c, y) && i < |items[c]|
      modifies `parent, `items, `depths
      ensures State() == Linked(Unlinked(old(State()), c, i), c, i, y)
      ensures depths == DepthsReplaced(old(State()), old(depths), c, i, y)
      ensures Valid(State(), depths) && c in items && items.Keys == old(items).Keys
    {
      hide Mirrored, Ranked, Linked, Unlinked, DepthsReplaced, Above;
      ReplaceInPlace(State(), depths, c, i, y);
      ghost var d := DepthsReplaced(State(), depths, c, i, y);
      var x := items[c][i];
      items := items[c := Overwritten(items[c], i, y)];
      parent := parent[y := c] - {x};
      depths := d;
    }

    /** Container::removeThing: part of a stack is counted down, anything else leaves the container. */
    method RemoveThing(c: Handle, x: Handle, count: nat)
      requires Sound() && c in items
      modifies `info, `parent, `items, `total, `depths
      ensures Sound()
      ensures x !in old(items)[c] ==> State() == old(State()) && depths == old(depths)
      ensures x in old(items)[c] && Partly(old(State()), x, count) ==>
                && State() == Updated(old(State()), old(depths), c, Position(old(items)[c], x), Counted(old(info)[x], count))
                && depths == old(depths)
      ensures x in old(items)[c] && !Partly(old(State()), x, count) ==>
                && State() == Removed(old(State()), old(depths), c, Position(old(items)[c], x))
                && depths == DepthsUnlinked(old(State()), old(depths), x)
    {
      hide Updated, Removed, DepthsUnlinked, Counted, Wrap, Weighed;
      var index := GetThingIndex(c, x);
      if index == -1 {
        return;
      }
      InList(State(), depths, c, index);
      if info[x].id in types && types[info[x].id].stackable && count != info[x].count {
        SetInfo(c, index, Counted(info[x], count));
      } else {
        RemoveAt(c, index);
      }
    }

    method RemoveAt(c: Handle, i: nat)
      requires Sound() && c in items && i < |items[c]|
      modifies `parent, `items, `total, `depths
      ensures Sound() && State() == Removed(old(State()), old(depths), c, i)
      ensures depths == DepthsUnlinked(old(State()), old(depths), old(items)[c][i])
    {
      hide Wrap, AsInt32, Above, Mirrored, Ranked, Weighed, Weight, Inside, DepthsUnlinked;
      RemoveKeeps(State(), depths, c, i);
      InList(State(), depths, c, i);
      var x := items[c][i];
      ghost var d := DepthsUnlinked(State(), depths, x);
      var w := GetWeight(x);
      UpdateItemWeight(c, -AsInt32(w));
      parent := parent - {x};
      items := items[c := items[c][..i] + items[c][i + 1..]];
      depths := d;
    }
  }

  /** Where a list first holds x. */
  function Position(list: seq<Handle>, x: Handle): (i: nat)
    requires x in list
    ensures i < |list| && list[i] == x && x !in list[..i]
  {
    if list[0] == x then 0
    else
      var i := Position(list[1..], x);
      assert list[..i + 1] == [list[0]] + list[1..][..i];
      i + 1
  }

  lemma PositionAt(list: seq<Handle>, x: Handle, i: nat)
    requires i < |list| && list[i] == x && x !in list[..i]
    ensures Position(list, x) == i
  {
  }

  predicate Partly(f: Forest, x: Handle, count: nat) {
    x in f.info && f.info[x].id in f.types && f.types[f.info[x].id].stackable && count != f.info[x].count
  }

  /** setItemCount(static_cast<uint8_t>(max(0, itemCount - count))). */
  function Counted(info: Info, count: nat): Info {
    var left := AsInt32(Wrap(info.count - count));
    info.(count := if left <= 0 then 0 else left % 256)
  }

  /** setID and setSubType(static_cast<uint16_t>(count)): the count of an item has eight bits. */
  function Retyped(types: ItemTypes, info: Info, itemId: nat, count: nat, attrs: seq<Block>): Info {
    Info(itemId, if itemId in types && types[itemId].subTypeAttribute then info.count else count % 256, attrs)
  }

  // ---------- creating ----------

  function Created(f: Forest, h: Handle, what: Info): Forest {
    var f' := f.(info := f.info[h := what]);
    if IsContainer(f.types, what) then f'.(items := f.items[h := []], total := f.total[h := 0]) else f'
  }

  lemma CreateKeeps(f: Forest, d: Depths, h: Handle, what: Info)
    requires Inv(f, d) && h !in f.info
    ensures Inv(Created(f, h, what), d[h := 0])
  {
    hide Wrap, Sum, Inside, Valid, Own, Created;
    CreateValid(f, d, h, what);
    CreateWeighed(f, d, h, what);
  }

  lemma CreateValid(f: Forest, d: Depths, h: Handle, what: Info)
    requires Valid(f, d) && h !in f.info
    ensures Valid(Created(f, h, what), d[h := 0])
  {
    hide Created, Domains, Ranked, Mirrored;
    CreateDomains(f, h, what);
    CreateRanked(f, d, h, what);
    CreateMirrored(f, h, what);
  }

  lemma CreateDomains(f: Forest, h: Handle, what: Info)
    requires Domains(f) && h !in f.info
    ensures Domains(Created(f, h, what))
  {
  }

  lemma CreateRanked(f: Forest, d: Depths, h: Handle, what: Info)
    requires Domains(f) && Ranked(f, d) && h !in f.info
    ensures Ranked(Created(f, h, what), d[h := 0])
  {
  }

  lemma CreateMirrored(f: Forest, h: Handle, what: Info)
    requires Domains(f) && Mirrored(f) && h !in f.info
    ensures Mirrored(Created(f, h, what))
  {
    hide Holds;
    var f' := Created(f, h, what);
    forall c | c in f'.items
      ensures Holds(f', c, f'.items[c])
    {
      if c != h {
        SameLinksHolds(f, f', c, f.items[c]);
      } else {
        HoldsNothing(f', h);
      }
    }
  }

  lemma CreateWeighed(f: Forest, d: Depths, h: Handle, what: Info)
    requires Inv(f, d) && h !in f.info
    ensures Weighed(Created(f, h, what), d[h := 0])
  {
    hide Wrap, Sum, Inside, Ranked, Mirrored;
    WrapZero();
    var f', d' := Created(f, h, what), d[h := 0];
    forall c | c in f'.total
      ensures f'.total[c] == Wrap(Sum(f', Inside(f', d', c)))
    {
      CreateInside(f, d, h, what, c);
    }
  }

  lemma HoldsNothing(f: Forest, c: Handle)
    ensures Holds(f, c, [])
  {
  }

  lemma WrapZero()
    ensures Wrap(0) == 0
  {
  }

  lemma CreateInside(f: Forest, d: Depths, h: Handle, what: Info, c: Handle)
    requires Valid(f, d) && h !in f.info
    ensures var f', d' := Created(f, h, what), d[h := 0];
            && Inside(f', d', c) == (if c == h then {} else Inside(f, d, c))
            && Sum(f', Inside(f', d', c)) == (if c == h then 0 else Sum(f, Inside(f, d, c)))
  {
    var f', d' := Created(f, h, what), d[h := 0];
    forall y | y in f.info
      ensures Above(f', d', c, y) == (c != h && Above(f, d, c, y))
    {
      CreateAbove(f, d, h, what, c, y);
    }
    SumFrame(f, f', Inside(f, d, c));
  }

  lemma {:induction false} CreateAbove(f: Forest, d: Depths, h: Handle, what: Info, a: Handle, y: Handle)
    requires Valid(f, d) && h !in f.info && y in f.info
    ensures Above(Created(f, h, what), d[h := 0], a, y) == (a != h && Above(f, d, a, y))
    decreases d[y]
  {
    if y in f.parent {
      CreateAbove(f, d, h, what, a, f.parent[y]);
    }
  }

  // ---------- the loop of updateItemWeight ----------

  /** The cached weights once the walk up from c has reached h. */
  ghost function Climbed(f: Forest, d: Depths, c: Handle, h: Handle, diff: int): map<Handle, nat> {
    map a | a in f.total :: if Above(f, d, a, c) && (a == h || !Above(f, d, a, h)) then Wrap(f.total[a] + diff) else f.total[a]
  }

  lemma RootOnly(f: Forest, d: Depths, c: Handle, diff: int)
    requires c in f.total
    ensures Above(f, d, c, c)
    ensures f.total[c := Wrap(f.total[c] + diff)] == Climbed(f, d, c, c, diff)
  {
    hide Wrap;
  }

  lemma ClimbStep(f: Forest, d: Depths, c: Handle, h: Handle, diff: int)
    requires Valid(f, d) && h in f.parent && Above(f, d, h, c) && c in f.info
    ensures var p := f.parent[h];
            && Above(f, d, p, c) && p in f.items && Depth(d, p) < Depth(d, h)
            && p in Climbed(f, d, c, h, diff)
            && Climbed(f, d, c, h, diff)[p := Wrap(Climbed(f, d, c, h, diff)[p] + diff)] == Climbed(f, d, c, p, diff)
  {
    hide Wrap, Mirrored;
    var p := f.parent[h];
    AboveTransitive(f, d, p, h, c);
    forall a | a in f.total
      ensures Above(f, d, a, h) == (a == h || Above(f, d, a, p))
    {
    }
    if Above(f, d, h, p) {
      AboveIsShallower(f, d, h, p);
    }
  }

  lemma ReweighedFields(f: Forest, d: Depths, c: Handle, diff: int)
    ensures Reweighed(f, d, c, diff) == f.(total := Reweighed(f, d, c, diff).total)
  {
  }

  /** What updateThing sets: the id, and the last eight bits of the count unless the sub type is an
      attribute. No other item changes. */
  lemma UpdateSets(f: Forest, d: Depths, c: Handle, i: nat, itemId: nat, count: nat, attrs: seq<Block>)
    requires Inv(f, d) && c in f.items && i < |f.items[c]|
    ensures var x := f.items[c][i];
            x in f.info &&
            var f' := Updated(f, d, c, i, Retyped(f.types, f.info[x], itemId, count, attrs));
            && f' == f.(info := f'.info, total := f'.total) && f'.info.Keys == f.info.Keys
            && (forall y :: y in f.info && y != x ==> f'.info[y] == f.info[y])
            && f'.info[x].id == itemId && f'.info[x].attrs == attrs
            && f'.info[x].count == if itemId in f.types && f.types[itemId].subTypeAttribute then f.info[x].count else count % 256
  {
    hide Weighed, Above, Difference, Weight;
    InList(f, d, c, i);
  }

  lemma ClimbEnd(f: Forest, d: Depths, c: Handle, h: Handle, diff: int)
    requires h !in f.parent
    ensures Climbed(f, d, c, h, diff) == Reweighed(f, d, c, diff).total
  {
  }

  // ---------- replacing in place ----------

  lemma CanLinkMeans(f: Forest, d: Depths, c: Handle, x: Handle)
    requires CanLink(f, d, c, x)
    ensures c in f.items && x in f.info
  {
  }

  function Overwritten(list: seq<Handle>, i: nat, y: Handle): seq<Handle>
    requires i < |list|
  {
    list[..i] + [y] + list[i + 1..]
  }

  /** Overwriting the list entry and moving the two parent links is what Replaced does to the links. */
  lemma ReplaceInPlace(f: Forest, d: Depths, c: Handle, i: nat, y: Handle)
    requires Valid(f, d) && c in f.items && i < |f.items[c]| && CanLink(f, d, c, y)
    ensures var f' := Linked(Unlinked(f, c, i), c, i, y);
            && f'.items == f.items[c := Overwritten(f.items[c], i, y)]
            && f'.parent == f.parent[y := c] - {f.items[c][i]}
            && f' == f.(items := f'.items, parent := f'.parent)
            && Valid(f', DepthsReplaced(f, d, c, i, y))
  {
    hide Ranked, Mirrored, DepthsUnlinked, DepthsLinked, Above;
    InList(f, d, c, i);
    ReplaceCanLink(f, d, c, i, y);
    LinkValid(Unlinked(f, c, i), DepthsUnlinked(f, d, f.items[c][i]), c, i, y);
    var list := f.items[c];
    var cut := list[..i] + list[i + 1..];
    assert cut[..i] + [y] + cut[i..] == Overwritten(list, i, y);
  }
}
