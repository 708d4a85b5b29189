/** Items, containers and who holds whom, as a value: every object is a handle, and a forest says for
    each handle what it is, which container it sits in, what it contains and which weight it caches. */
module ItemForest {
  import opened Bytes

  const WORD: int := 0x1_0000_0000

  /** Conversion to uint32_t: what every addition to a cached weight goes through. */
  function Wrap(x: int): (r: nat)
    ensures r < WORD
  {
    x % WORD
  }

  lemma WrapShift(x: int, y: int)
    ensures Wrap(Wrap(x) + y) == Wrap(x + y)
  {
    ModAdd(x, y);
  }

  lemma ModAdd(x: int, y: int)
    ensures (x % WORD + y) % WORD == (x + y) % WORD
  {
    var q := x / WORD;
    assert x == WORD * q + x % WORD;
    var z := x % WORD + y;
    var q', r := z / WORD, z % WORD;
    assert x + y == WORD * (q + q') + r;
  }

  /** One attribute of an item as it is stored: its tag and the bytes that follow it. */
  datatype Block = Block(tag: byte, payload: seq<byte>)

  datatype Info = Info(id: nat, count: nat, attrs: seq<Block>)

  /** subTypeAttribute: the sub type is an attribute and not the count, as for fluids and for charges that
      do not stack. */
  datatype ItemType = ItemType(
    container: bool, stackable: bool, weight: nat, moveable: bool, carpet: bool, pickupable: bool, subTypeAttribute: bool)

  type ItemTypes = map<nat, ItemType>

  const ATTR_WEIGHT: byte := 27

  function LastBlock(attrs: seq<Block>, tag: byte): Option<seq<byte>> {
    if attrs == [] then None
    else if attrs[|attrs| - 1].tag == tag then Some(attrs[|attrs| - 1].payload)
    else LastBlock(attrs[..|attrs| - 1], tag)
  }

  function BaseWeight(types: ItemTypes, info: Info): nat {
    match LastBlock(info.attrs, ATTR_WEIGHT)
    case Some(payload) => DecodeLE(payload)
    case None => if info.id in types then types[info.id].weight else 0
  }

  predicate IsContainer(types: ItemTypes, info: Info) {
    info.id in types && types[info.id].container
  }

  /** The weight of the item itself, without contents. */
  function OwnWeight(types: ItemTypes, info: Info): nat {
    if info.id in types && types[info.id].stackable
    then Wrap(BaseWeight(types, info) * (if info.count > 1 then info.count else 1))
    else Wrap(BaseWeight(types, info))
  }

  type Handle = nat

  /** parent is defined for the items that sit in a container; items and total for the containers. */
  datatype Forest = Forest(
    types: ItemTypes,
    info: map<Handle, Info>,
    parent: map<Handle, Handle>,
    items: map<Handle, seq<Handle>>,
    total: map<Handle, nat>)

  /** How deep every object sits: the measure that makes the parent links acyclic. */
  type Depths = map<Handle, nat>

  ghost predicate Ranked(f: Forest, d: Depths) {
    && d.Keys == f.info.Keys
    && (forall x :: x in f.parent ==> x in f.info && f.parent[x] in f.info && d[x] == d[f.parent[x]] + 1)
    && (forall x :: x in f.info && x !in f.parent ==> d[x] == 0)
  }

  ghost predicate Domains(f: Forest) {
    && f.items.Keys == f.total.Keys && f.items.Keys <= f.info.Keys && f.parent.Keys <= f.info.Keys
    && (forall x :: x in f.parent ==> f.parent[x] in f.items)
  }

  /** Parent links and item lists say the same, and no list holds an item twice. */
  ghost predicate Mirrored(f: Forest) {
    && (forall c :: c in f.items ==> Holds(f, c, f.items[c]))
    && (forall x :: x in f.parent ==> f.parent[x] in f.items && x in f.items[f.parent[x]])
  }

  ghost predicate Holds(f: Forest, c: Handle, list: seq<Handle>) {
    && (forall i :: 0 <= i < |list| ==> list[i] in f.parent && f.parent[list[i]] == c)
    && (forall i, j :: 0 <= i < j < |list| ==> list[i] != list[j])
  }

  ghost predicate Valid(f: Forest, d: Depths) {
    Domains(f) && Ranked(f, d) && Mirrored(f)
  }

  /** a is x or holds x, at any depth. */
  ghost predicate Above(f: Forest, d: Depths, a: Handle, x: Handle)
    decreases Depth(d, x)
  {
    a == x || (x in f.parent && Depth(d, f.parent[x]) < Depth(d, x) && Above(f, d, a, f.parent[x]))
  }

  function Depth(d: Depths, x: Handle): nat {
    if x in d then d[x] else 0
  }

  lemma {:induction false} AboveTransitive(f: Forest, d: Depths, a: Handle, b: Handle, x: Handle)
    requires Ranked(f, d) && x in f.info && Above(f, d, b, x)
    requires b in f.info && Above(f, d, a, b)
    ensures Above(f, d, a, x)
    decreases d[x]
  {
    if b != x {
      AboveTransitive(f, d, a, b, f.parent[x]);
    }
  }

  lemma {:induction false} AboveIsShallower(f: Forest, d: Depths, a: Handle, x: Handle)
    requires Ranked(f, d) && x in f.info && Above(f, d, a, x)
    ensures a in f.info && d[a] <= d[x] && (a != x ==> d[a] < d[x])
    decreases d[x]
  {
    if a != x {
      AboveIsShallower(f, d, a, f.parent[x]);
    }
  }

  /** Two ancestors of one object lie on one line. */
  lemma {:induction false} AboveLinear(f: Forest, d: Depths, a: Handle, b: Handle, x: Handle)
    requires Ranked(f, d) && x in f.info && Above(f, d, a, x) && Above(f, d, b, x)
    requires a in f.info && b in f.info
    ensures Above(f, d, a, b) || Above(f, d, b, a)
    decreases d[x]
  {
    if a != x && b != x {
      AboveLinear(f, d, a, b, f.parent[x]);
    }
  }

  // ---------- sums of weights ----------

  /** Everything that sits in c, at any depth. */
  ghost function Inside(f: Forest, d: Depths, c: Handle): set<Handle> {
    set x | x in f.info && x != c && Above(f, d, c, x)
  }

  ghost function Sum(f: Forest, s: set<Handle>): nat {
    if s == {} then 0
    else
      var x :| x in s;
      Own(f, x) + Sum(f, s - {x})
  }

  /** The weight of the object itself, without contents. */
  function Own(f: Forest, x: Handle): nat {
    if x in f.info then OwnWeight(f.types, f.info[x]) else 0
  }

  lemma {:induction false} SumWithout(f: Forest, s: set<Handle>, x: Handle)
    requires x in s
    ensures Sum(f, s) == Own(f, x) + Sum(f, s - {x})
    decreases s
  {
    var y :| y in s && Sum(f, s) == Own(f, y) + Sum(f, s - {y});
    if y != x {
      SumWithout(f, s - {y}, x);
      SumWithout(f, s - {x}, y);
      assert s - {y} - {x} == s - {x} - {y};
    }
  }

  lemma {:induction false} SumUnion(f: Forest, s: set<Handle>, t: set<Handle>)
    requires s !! t
    ensures Sum(f, s + t) == Sum(f, s) + Sum(f, t)
    decreases s
  {
    if s == {} {
      assert s + t == t;
    } else {
      var x :| x in s;
      SumWithout(f, s, x);
      SumWithout(f, s + t, x);
      assert s + t - {x} == (s - {x}) + t;
      SumUnion(f, s - {x}, t);
    }
  }

  lemma {:induction false} SumFrame(f: Forest, f': Forest, s: set<Handle>)
    requires forall x :: x in s ==> Own(f, x) == Own(f', x)
    ensures Sum(f, s) == Sum(f', s)
    decreases s
  {
    if s != {} {
      var x :| x in s;
      SumWithout(f, s, x);
      SumWithout(f', s, x);
      SumFrame(f, f', s - {x});
    }
  }

  /** Every cached weight is the weight of everything inside, modulo 2^32. */
  ghost predicate Weighed(f: Forest, d: Depths) {
    forall c :: c in f.total ==> f.total[c] == Wrap(Sum(f, Inside(f, d, c)))
  }

  /** getWeight: the item with its contents. */
  function Weight(f: Forest, x: Handle): nat {
    if x in f.total then Wrap(Own(f, x) + f.total[x]) else Own(f, x)
  }

  // ---------- the elementary changes ----------

  /** updateItemWeight: c and every container around it change by diff. */
  ghost function Reweighed(f: Forest, d: Depths, c: Handle, diff: int): Forest {
    f.(total := map h | h in f.total :: if Above(f, d, h, c) then Wrap(f.total[h] + diff) else f.total[h])
  }

  /** x becomes element i of c's list. */
  ghost function Linked(f: Forest, c: Handle, i: nat, x: Handle): Forest {
    if c !in f.items || i > |f.items[c]| then f else
    f.(parent := f.parent[x := c], items := f.items[c := f.items[c][..i] + [x] + f.items[c][i..]])
  }

  /** Element i leaves c's list. */
  ghost function Unlinked(f: Forest, c: Handle, i: nat): Forest {
    if c !in f.items || i >= |f.items[c]| then f else
    f.(parent := f.parent - {f.items[c][i]}, items := f.items[c := f.items[c][..i] + f.items[c][i + 1..]])
  }

  // ---------- linking ----------

  /** Depths once x, a root that does not hold c, sits in c. */
  ghost function DepthsLinked(f: Forest, d: Depths, c: Handle, x: Handle): Depths {
    map y | y in d :: if Above(f, d, x, y) then d[y] + Depth(d, c) + 1 else d[y]
  }

  ghost predicate CanLink(f: Forest, d: Depths, c: Handle, x: Handle) {
    c in f.items && c in f.info && x in f.info && x !in f.parent && !Above(f, d, x, c)
  }

  lemma LinkValid(f: Forest, d: Depths, c: Handle, i: nat, x: Handle)
    requires Valid(f, d) && CanLink(f, d, c, x) && i <= |f.items[c]|
    ensures Valid(Linked(f, c, i, x), DepthsLinked(f, d, c, x))
  {
    LinkRanked(f, d, c, i, x);
    LinkMirrored(f, d, c, i, x);
  }

  lemma LinkRanked(f: Forest, d: Depths, c: Handle, i: nat, x: Handle)
    requires Valid(f, d) && CanLink(f, d, c, x) && i <= |f.items[c]|
    ensures Ranked(Linked(f, c, i, x), DepthsLinked(f, d, c, x)) && Domains(Linked(f, c, i, x))
  {
    var f', d' := Linked(f, c, i, x), DepthsLinked(f, d, c, x);
    forall y | y in f'.parent
      ensures y in f'.info && f'.parent[y] in f'.info && d'[y] == d'[f'.parent[y]] + 1
    {
      if y == x {
        assert Above(f, d, x, x);
      } else {
        assert Above(f, d, x, y) == Above(f, d, x, f.parent[y]);
      }
    }
  }

  lemma LinkMirrored(f: Forest, d: Depths, c: Handle, i: nat, x: Handle)
    requires Valid(f, d) && CanLink(f, d, c, x) && i <= |f.items[c]|
    ensures Mirrored(Linked(f, c, i, x))
  {
    var f' := Linked(f, c, i, x);
    forall h | h in f'.items
      ensures Holds(f', h, f'.items[h])
    {
      assert Holds(f, h, f.items[h]);
      if h == c {
        InsertHolds(f, f', c, f.items[c], i, x);
      }
    }
    forall y | y in f'.parent
      ensures f'.parent[y] in f'.items && y in f'.items[f'.parent[y]]
    {
      if y == x {
        SpliceKeeps(f.items[c], i, x, x);
      } else if f.parent[y] == c {
        SpliceKeeps(f.items[c], i, x, y);
      }
    }
  }

  lemma InsertHolds(f: Forest, f': Forest, c: Handle, list: seq<Handle>, i: nat, x: Handle)
    requires Holds(f, c, list) && i <= |list| && x !in f.parent && f'.parent == f.parent[x := c]
    ensures Holds(f', c, list[..i] + [x] + list[i..])
  {
  }

  lemma SpliceKeeps(list: seq<Handle>, i: nat, x: Handle, y: Handle)
    requires i <= |list| && (y == x || y in list)
    ensures y in list[..i] + [x] + list[i..]
  {
    var now := list[..i] + [x] + list[i..];
    assert now[i] == x;
    if y != x {
      var k :| 0 <= k < |list| && list[k] == y;
      assert now[if k < i then k else k + 1] == y;
    }
  }

  /** Who holds whom after linking: what was, plus everything around c now also holds x's subtree. */
  lemma {:induction false} LinkAbove(f: Forest, d: Depths, c: Handle, i: nat, x: Handle, a: Handle, y: Handle)
    requires Valid(f, d) && CanLink(f, d, c, x) && i <= |f.items[c]| && y in f.info
    requires Ranked(Linked(f, c, i, x), DepthsLinked(f, d, c, x))
    ensures Above(Linked(f, c, i, x), DepthsLinked(f, d, c, x), a, y)
         <==> Above(f, d, a, y) || (Above(f, d, x, y) && Above(f, d, a, c))
    decreases DepthsLinked(f, d, c, x)[y]
  {
    var f', d' := Linked(f, c, i, x), DepthsLinked(f, d, c, x);
    if y == x {
      LinkAbove(f, d, c, i, x, a, c);
    } else if y in f.parent {
      assert f'.parent[y] == f.parent[y];
      LinkAbove(f, d, c, i, x, a, f.parent[y]);
    }
  }

  /** x with everything inside it. */
  ghost function Subtree(f: Forest, d: Depths, x: Handle): set<Handle> {
    {x} + Inside(f, d, x)
  }

  lemma LinkInsideMember(f: Forest, d: Depths, c: Handle, i: nat, x: Handle, h: Handle, y: Handle)
    requires Valid(f, d) && CanLink(f, d, c, x) && i <= |f.items[c]| && h in f.info && y in f.info
    requires Ranked(Linked(f, c, i, x), DepthsLinked(f, d, c, x))
    ensures y in Inside(Linked(f, c, i, x), DepthsLinked(f, d, c, x), h)
         <==> y in Inside(f, d, h) || (Above(f, d, h, c) && y in Subtree(f, d, x))
  {
    hide Above, Ranked, Mirrored, DepthsLinked;
    LinkAbove(f, d, c, i, x, h, y);
    AboveSelf(f, d, x);
    if Above(f, d, h, c) {
      NotUnder(f, d, c, x, h);
    }
  }

  lemma AboveSelf(f: Forest, d: Depths, x: Handle)
    ensures Above(f, d, x, x)
  {
  }

  /** Linking adds x and its subtree to whatever holds c, and changes no other container. */
  lemma LinkInside(f: Forest, d: Depths, c: Handle, i: nat, x: Handle, h: Handle)
    requires Valid(f, d) && CanLink(f, d, c, x) && i <= |f.items[c]| && h in f.info
    requires Ranked(Linked(f, c, i, x), DepthsLinked(f, d, c, x))
    ensures var inside' := Inside(Linked(f, c, i, x), DepthsLinked(f, d, c, x), h);
            if Above(f, d, h, c)
            then inside' == Inside(f, d, h) + Subtree(f, d, x) && Inside(f, d, h) !! Subtree(f, d, x)
            else inside' == Inside(f, d, h)
  {
    hide Above, Ranked, Mirrored, DepthsLinked;
    var inside' := Inside(Linked(f, c, i, x), DepthsLinked(f, d, c, x), h);
    var inside, subtree := Inside(f, d, h), Subtree(f, d, x);
    forall y | y in f.info
      ensures y in inside' <==> y in inside || (Above(f, d, h, c) && y in subtree)
    {
      LinkInsideMember(f, d, c, i, x, h, y);
    }
    SetFromMembers(f.info.Keys, inside', inside, subtree, Above(f, d, h, c));
    if Above(f, d, h, c) {
      LinkDisjoint(f, d, c, x, h);
    }
  }

  lemma SetFromMembers(all: set<Handle>, s': set<Handle>, s: set<Handle>, t: set<Handle>, both: bool)
    requires s' <= all && s <= all && t <= all
    requires forall y :: y in all ==> (y in s' <==> y in s || (both && y in t))
    ensures s' == if both then s + t else s
  {
  }

  lemma LinkDisjoint(f: Forest, d: Depths, c: Handle, x: Handle, h: Handle)
    requires Valid(f, d) && CanLink(f, d, c, x) && h in f.info && Above(f, d, h, c)
    ensures Inside(f, d, h) !! Subtree(f, d, x)
  {
    NotUnder(f, d, c, x, h);
    assert Above(f, d, x, x);
  }

  /** x is a root: nothing that holds c can hold, or lie in, the subtree of x. */
  lemma NotUnder(f: Forest, d: Depths, c: Handle, x: Handle, h: Handle)
    requires Valid(f, d) && CanLink(f, d, c, x) && h in f.info && Above(f, d, h, c)
    ensures !Above(f, d, x, h)
    ensures forall y :: y in f.info && Above(f, d, x, y) ==> !Above(f, d, h, y)
  {
    if Above(f, d, x, h) {
      AboveTransitive(f, d, x, h, c);
    }
    forall y | y in f.info && Above(f, d, x, y)
      ensures !Above(f, d, h, y)
    {
      if Above(f, d, h, y) {
        AboveLinear(f, d, x, h, y);
      }
    }
  }

  // ---------- unlinking ----------

  ghost function DepthsUnlinked(f: Forest, d: Depths, x: Handle): Depths {
    map y | y in d :: if Above(f, d, x, y) && d[y] >= Depth(d, x) then d[y] - Depth(d, x) else d[y]
  }

  /** Taking element i out of c leaves a valid forest in which that element is a root outside c. */
  lemma UnlinkValid(f: Forest, d: Depths, c: Handle, i: nat)
    requires Valid(f, d) && c in f.items && i < |f.items[c]|
    ensures var x := f.items[c][i];
            var f', d' := Unlinked(f, c, i), DepthsUnlinked(f, d, x);
            Valid(f', d') && CanLink(f', d', c, x)
  {
    var x := f.items[c][i];
    var f', d' := Unlinked(f, c, i), DepthsUnlinked(f, d, x);
    UnlinkRanked(f, d, c, i);
    UnlinkMirrored(f, d, c, i);
    if Above(f', d', x, c) {
      UnlinkAboveBefore(f, d, c, i, x, c);
      AboveIsShallower(f, d, x, c);
    }
  }

  lemma UnlinkRanked(f: Forest, d: Depths, c: Handle, i: nat)
    requires Valid(f, d) && c in f.items && i < |f.items[c]|
    ensures Ranked(Unlinked(f, c, i), DepthsUnlinked(f, d, f.items[c][i])) && Domains(Unlinked(f, c, i))
  {
    UnlinkDomains(f, c, i);
    UnlinkDepths(f, d, f.items[c][i]);
  }

  lemma UnlinkDepths(f: Forest, d: Depths, x: Handle)
    requires Ranked(f, d) && x in f.parent
    ensures Ranked(f.(parent := f.parent - {x}), DepthsUnlinked(f, d, x))
  {
    forall y | y in f.parent && y != x
      ensures y in f.info && f.parent[y] in f.info
      ensures DepthsUnlinked(f, d, x)[y] == DepthsUnlinked(f, d, x)[f.parent[y]] + 1
    {
      UnlinkedStep(f, d, x, y);
    }
  }

  lemma UnlinkDomains(f: Forest, c: Handle, i: nat)
    requires Domains(f) && c in f.items && i < |f.items[c]|
    ensures Domains(Unlinked(f, c, i))
  {
  }

  lemma UnlinkedStep(f: Forest, d: Depths, x: Handle, y: Handle)
    requires Ranked(f, d) && y in f.parent && y != x
    ensures y in f.info && f.parent[y] in f.info
    ensures DepthsUnlinked(f, d, x)[y] == DepthsUnlinked(f, d, x)[f.parent[y]] + 1
  {
    var p := f.parent[y];
    assert Above(f, d, x, y) == Above(f, d, x, p);
    if Above(f, d, x, p) {
      AboveIsShallower(f, d, x, p);
    }
  }

  lemma UnlinkMirrored(f: Forest, d: Depths, c: Handle, i: nat)
    requires Valid(f, d) && c in f.items && i < |f.items[c]|
    ensures Mirrored(Unlinked(f, c, i))
  {
    var f' := Unlinked(f, c, i);
    assert Holds(f, c, f.items[c]);
    forall h | h in f'.items
      ensures Holds(f', h, f'.items[h])
    {
      assert Holds(f, h, f.items[h]);
      if h == c {
        RemoveHolds(f, f', c, f.items[c], i);
      }
    }
    forall y | y in f'.parent
      ensures f'.parent[y] in f'.items && y in f'.items[f'.parent[y]]
    {
      if f.parent[y] == c {
        CutKeeps(f.items[c], i, y);
      }
    }
  }

  lemma RemoveHolds(f: Forest, f': Forest, c: Handle, list: seq<Handle>, i: nat)
    requires Holds(f, c, list) && i < |list| && f'.parent == f.parent - {list[i]}
    ensures Holds(f', c, list[..i] + list[i + 1..])
  {
  }

  lemma CutKeeps(list: seq<Handle>, i: nat, y: Handle)
    requires i < |list| && y in list && y != list[i]
    ensures y in list[..i] + list[i + 1..]
  {
    var k :| 0 <= k < |list| && list[k] == y;
    assert (list[..i] + list[i + 1..])[if k < i then k else k - 1] == y;
  }

  lemma {:induction false} UnlinkAboveBefore(f: Forest, d: Depths, c: Handle, i: nat, a: Handle, y: Handle)
    requires Valid(f, d) && c in f.items && i < |f.items[c]| && y in f.info
    requires Ranked(Unlinked(f, c, i), DepthsUnlinked(f, d, f.items[c][i]))
    requires Above(Unlinked(f, c, i), DepthsUnlinked(f, d, f.items[c][i]), a, y)
    ensures Above(f, d, a, y)
    decreases d[y]
  {
    if a != y {
      UnlinkAboveBefore(f, d, c, i, a, f.parent[y]);
    }
  }

  /** Putting the element back where it was undoes the unlinking, links and depths alike. */
  lemma UnlinkThenLink(f: Forest, d: Depths, c: Handle, i: nat)
    requires Valid(f, d) && c in f.items && i < |f.items[c]|
    ensures var x := f.items[c][i];
            var f', d' := Unlinked(f, c, i), DepthsUnlinked(f, d, x);
            && Valid(f', d') && CanLink(f', d', c, x) && i <= |f'.items[c]|
            && Linked(f', c, i, x) == f && DepthsLinked(f', d', c, x) == d
  {
    var x := f.items[c][i];
    var f', d' := Unlinked(f, c, i), DepthsUnlinked(f, d, x);
    UnlinkValid(f, d, c, i);
    RemoveThenInsert(f, d, c, i);
    LinkRanked(f', d', c, i, x);
    SameDepths(f, d, DepthsLinked(f', d', c, x));
  }

  lemma RemoveThenInsert(f: Forest, d: Depths, c: Handle, i: nat)
    requires Valid(f, d) && c in f.items && i < |f.items[c]|
    ensures Linked(Unlinked(f, c, i), c, i, f.items[c][i]) == f
  {
    hide Ranked;
    var x, f', list := f.items[c][i], Unlinked(f, c, i), f.items[c];
    assert Holds(f, c, list);
    SpliceBack(list, i);
    assert Linked(f', c, i, x).parent == f.parent;
    assert Linked(f', c, i, x).items == f.items;
  }

  lemma SpliceBack(list: seq<Handle>, i: nat)
    requires i < |list|
    ensures var without := list[..i] + list[i + 1..]; without[..i] + [list[i]] + without[i..] == list
  {
  }

  lemma SameDepths(f: Forest, d: Depths, d': Depths)
    requires Ranked(f, d) && Ranked(f, d')
    ensures d == d'
  {
    forall y | y in f.info
      ensures d[y] == d'[y]
    {
      SameDepth(f, d, d', y);
    }
  }

  /** The depths of a forest are determined by it. */
  lemma {:induction false} SameDepth(f: Forest, d: Depths, d': Depths, y: Handle)
    requires Ranked(f, d) && Ranked(f, d') && y in f.info
    ensures d[y] == d'[y]
    decreases d[y]
  {
    if y in f.parent {
      SameDepth(f, d, d', f.parent[y]);
    }
  }
}
