/** Item trees as plain values, when a handle of the store stands for one, and what linking a finished
    tree into a container that is still on its own does. */
module ItemTrees {
  import opened Bytes
  import opened ItemForest
  import opened ItemMoves

  datatype Item = Item(info: Info, contents: seq<Item>)

  /** The weight of a tree, and of a list of trees, before any 32-bit wrap. */
  function Deep(types: ItemTypes, t: Item): nat
    decreases t, 1
  {
    OwnWeight(types, t.info) + DeepSum(types, t.contents)
  }

  function DeepSum(types: ItemTypes, ts: seq<Item>): nat
    decreases ts, 0
  {
    if ts == [] then 0 else Deep(types, ts[0]) + DeepSum(types, ts[1..])
  }

  /** h is the tree t: same items in the same order all the way down, and every cached weight right.
      Objects inside a container have larger handles than the container. */
  ghost predicate Represents(f: Forest, h: Handle, t: Item)
    decreases t, 1
  {
    && h in f.info && f.info[h] == t.info
    && (h in f.items <==> IsContainer(f.types, t.info)) && (h in f.items <==> h in f.total)
    && (h !in f.items ==> t.contents == [])
    && (h in f.items ==> f.total[h] == Wrap(DeepSum(f.types, t.contents)) && RepresentsAll(f, h, f.items[h], t.contents))
  }

  ghost predicate RepresentsAll(f: Forest, lo: int, hs: seq<Handle>, ts: seq<Item>)
    decreases ts, 0
  {
    |hs| == |ts| && forall k :: 0 <= k < |ts| ==> hs[k] > lo && Represents(f, hs[k], ts[k])
  }

  /** Every object from lo on is as it was, its parent link aside. */
  ghost predicate Keeps(f: Forest, f': Forest, lo: int) {
    && f'.types == f.types
    && forall y :: y in f.info && y >= lo ==>
         && y in f'.info && f'.info[y] == f.info[y]
         && (y in f'.items <==> y in f.items) && (y in f'.total <==> y in f.total)
         && (y in f.items ==> f'.items[y] == f.items[y])
         && (y in f.total ==> f'.total[y] == f.total[y])
  }

  /** An object stands for one tree at most, and a container has the weight of its contents in 32 bits. */
  lemma {:induction false} OneTree(f: Forest, h: Handle, t: Item, u: Item)
    requires Represents(f, h, t) && Represents(f, h, u)
    ensures t == u
    ensures h in f.items ==> h in f.total && f.total[h] == DeepSum(f.types, t.contents) % 0x1_0000_0000
    decreases t
  {
    if h in f.items {
      forall k | 0 <= k < |t.contents| ensures t.contents[k] == u.contents[k] {
        OneTree(f, f.items[h][k], t.contents[k], u.contents[k]);
      }
      assert t.contents == u.contents;
    }
  }

  lemma {:induction false} RepresentsFrame(f: Forest, f': Forest, h: Handle, t: Item)
    requires Represents(f, h, t) && Keeps(f, f', h)
    ensures Represents(f', h, t)
    decreases t, 1
  {
    hide Wrap, DeepSum;
    if h in f.items {
      RepresentsAllFrame(f, f', h, f.items[h], t.contents);
    }
  }

  lemma {:induction false} RepresentsAllFrame(f: Forest, f': Forest, lo: int, hs: seq<Handle>, ts: seq<Item>)
    requires RepresentsAll(f, lo, hs, ts) && Keeps(f, f', lo)
    ensures RepresentsAll(f', lo, hs, ts)
    decreases ts, 0
  {
    forall k | 0 <= k < |ts|
      ensures Represents(f', hs[k], ts[k])
    {
      KeepsFrom(f, f', lo, hs[k]);
      RepresentsFrame(f, f', hs[k], ts[k]);
    }
  }

  lemma KeepsFrom(f: Forest, f': Forest, lo: int, hi: int)
    requires Keeps(f, f', lo) && lo <= hi
    ensures Keeps(f, f', hi)
  {
  }

  lemma KeepsTwice(f: Forest, f1: Forest, f2: Forest, lo: int)
    requires Keeps(f, f1, lo) && Keeps(f1, f2, lo)
    ensures Keeps(f, f2, lo)
  {
  }

  // ---------- linking into a root ----------

  lemma RootAbove(f: Forest, d: Depths, c: Handle, a: Handle)
    requires c !in f.parent
    ensures Above(f, d, a, c) <==> a == c
  {
  }

  /** The weight of a tree's handle is the weight of the tree. */
  lemma TreeWeight(f: Forest, h: Handle, t: Item)
    requires Represents(f, h, t)
    ensures Weight(f, h) == Wrap(Deep(f.types, t))
  {
    assert Represents(f, h, t);
    OwnWraps(f, h);
    var rest: int := DeepSum(f.types, t.contents);
    WrapShift(rest, Own(f, h));
  }

  /** What internalAddThing does to a container that sits in nothing itself. */
  lemma AddToRoot(f: Forest, d: Depths, c: Handle, x: Handle)
    requires Valid(f, d) && c in f.items && c !in f.parent && x in f.info && x !in f.parent && x != c
    ensures CanLink(f, d, c, x)
    ensures var f' := Added(f, d, c, 0, x);
            && c in f.total
            && f' == f.(parent := f.parent[x := c], items := f.items[c := [x] + f.items[c]],
                        total := f.total[c := Wrap(f.total[c] + AsInt32(Weight(f, x)))])
  {
    hide Wrap, AsInt32, Weight, Ranked, Mirrored;
    RootAbove(f, d, c, x);
    var f1, d1 := Linked(f, c, 0, x), DepthsLinked(f, d, c, x);
    assert f.items[c][..0] + [x] + f.items[c][0..] == [x] + f.items[c];
    forall h | h in f.total
      ensures Above(f1, d1, h, c) <==> h == c
    {
      RootAbove(f1, d1, c, h);
    }
  }

  /** Pushing a finished tree to the front of a root container that stands for ts makes it stand for
      the tree followed by ts. */
  lemma AddFront(f: Forest, d: Depths, c: Handle, x: Handle, t: Item, ts: seq<Item>)
    requires Valid(f, d) && c in f.items && c !in f.parent && x in f.info && x !in f.parent && c < x
    requires Represents(f, x, t)
    requires c in f.total && f.total[c] == Wrap(DeepSum(f.types, ts)) && RepresentsAll(f, c, f.items[c], ts)
    ensures var f' := Added(f, d, c, 0, x);
            && c in f'.items && c in f'.total
            && f'.total[c] == Wrap(DeepSum(f.types, [t] + ts))
            && RepresentsAll(f', c, f'.items[c], [t] + ts)
            && Keeps(f, f', c + 1)
  {
    hide Wrap, AsInt32, Weight, Added, CanLink, Valid, Represents, Deep;
    AddToRoot(f, d, c, x);
    var f' := Added(f, d, c, 0, x);
    var sum: int, w: int := DeepSum(f.types, ts), Deep(f.types, t);
    TreeWeight(f, x, t);
    WrapSame(AsInt32(Weight(f, x)), w, Wrap(sum)) by { Congruent(f, x, w); }
    WrapShift(sum, w);
    assert ([t] + ts)[0] == t && ([t] + ts)[1..] == ts;
    FrameList(f, f', c, x, t, ts);
  }

  lemma Congruent(f: Forest, x: Handle, w: int)
    requires Weight(f, x) == Wrap(w)
    ensures Weight(f, x) < WORD && Wrap(AsInt32(Weight(f, x))) == Wrap(w)
  {
    WrapTwice(w);
  }

  lemma FrameList(f: Forest, f': Forest, c: Handle, x: Handle, t: Item, ts: seq<Item>)
    requires Represents(f, x, t) && c < x && c in f.items && RepresentsAll(f, c, f.items[c], ts) && Keeps(f, f', c + 1)
    ensures RepresentsAll(f', c, [x] + f.items[c], [t] + ts)
  {
    hide Represents, Keeps;
    var hs, all := [x] + f.items[c], [t] + ts;
    forall k | 0 <= k < |all|
      ensures hs[k] > c && Represents(f', hs[k], all[k])
    {
      if k > 0 {
        assert hs[k] == f.items[c][k - 1] && all[k] == ts[k - 1];
      }
      KeepsFrom(f, f', c + 1, hs[k]);
      RepresentsFrame(f, f', hs[k], all[k]);
    }
  }

  /** The container c sits in nothing yet and stands for the trees acc. */
  ghost predicate Holding(f: Forest, c: Handle, acc: seq<Item>) {
    && c in f.items && c in f.total && c !in f.parent
    && f.total[c] == Wrap(DeepSum(f.types, acc))
    && RepresentsAll(f, c, f.items[c], acc)
  }

  lemma HoldingMeans(f: Forest, c: Handle, acc: seq<Item>)
    requires Holding(f, c, acc)
    ensures c in f.items && c in f.total && c !in f.parent
    ensures f.total[c] == Wrap(DeepSum(f.types, acc)) && RepresentsAll(f, c, f.items[c], acc)
  {
  }

  lemma HoldingIsTree(f: Forest, c: Handle, t: Item)
    requires Holding(f, c, t.contents) && c in f.info && f.info[c] == t.info && IsContainer(f.types, t.info)
    ensures Represents(f, c, t)
  {
  }
}
