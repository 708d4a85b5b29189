/** IOMapSerialize::loadItem and loadContainer: items are created in the store while the stream is read,
    and each is linked into its container as soon as it is complete. */
module MapLoader {
  import opened Bytes
  import opened ItemForest
  import opened ItemMoves
  import opened ItemAttributes
  import opened ItemTrees
  import opened ItemStore
  import opened MapItems

  /** Every object of f other than c is as it was, links included; c may have received items. */
  ghost predicate Untouched(f: Forest, f': Forest, c: Option<Handle>) {
    && f'.types == f.types
    && (forall y :: y in f.info ==> (
          && y in f'.info && f'.info[y] == f.info[y]
          && (y in f'.parent <==> y in f.parent)
          && (y in f'.items <==> y in f.items)
          && (y in f'.total <==> y in f.total)))
    && (forall y :: y in f.parent ==> y in f'.parent && f'.parent[y] == f.parent[y])
    && (forall y :: y in f.items && c != Some(y) ==> y in f'.items && f'.items[y] == f.items[y])
    && (forall y :: y in f.total && c != Some(y) ==> y in f'.total && f'.total[y] == f.total[y])
  }

  lemma UntouchedSelf(f: Forest, c: Option<Handle>)
    ensures Untouched(f, f, c)
  {
  }

  lemma UntouchedOne(f: Forest, f': Forest, c: Option<Handle>, y: Handle)
    requires Untouched(f, f', c) && y in f.info
    ensures f'.types == f.types && y in f'.info && f'.info[y] == f.info[y] && (y in f'.parent <==> y in f.parent)
  {
  }

  lemma UntouchedTwice(f: Forest, f1: Forest, f2: Forest, c: Option<Handle>)
    requires Untouched(f, f1, c) && Untouched(f1, f2, c)
    ensures Untouched(f, f2, c)
  {
  }

  /** An object made after f may be filled without touching anything of f. */
  lemma UntouchedNew(f: Forest, f1: Forest, f2: Forest, h: Handle, c: Option<Handle>)
    requires Domains(f) && Untouched(f, f1, c) && Untouched(f1, f2, Some(h)) && h !in f.info
    ensures Untouched(f, f2, c)
  {
  }

  lemma UntouchedKeeps(f: Forest, f': Forest, c: Option<Handle>, lo: int)
    requires Domains(f) && Untouched(f, f', c) && (c.Some? ==> c.value < lo)
    ensures Keeps(f, f', lo)
  {
  }

  lemma HoldingFrame(f: Forest, f': Forest, c: Handle, acc: seq<Item>)
    requires Domains(f) && Holding(f, c, acc) && Untouched(f, f', None)
    ensures Holding(f', c, acc) && c in f'.info
  {
    hide Wrap, DeepSum, Represents;
    UntouchedKeeps(f, f', None, 0);
    KeepsFrom(f, f', 0, c);
    RepresentsAllFrame(f, f', c, f.items[c], acc);
  }

  lemma CreatedEmpty(f: Forest, d: Depths, h: Handle, what: Info)
    requires Valid(f, d) && h !in f.info
    ensures var f' := Created(f, h, what);
            && Untouched(f, f', None) && h !in f'.parent && h in f'.info && f'.info[h] == what
            && (if IsContainer(f.types, what) then Holding(f', h, []) else Represents(f', h, Item(what, [])))
  {
    hide Ranked, Mirrored, OwnWeight;
    WrapZero();
  }

  /** Linking the tree just read into its container: what it stands for, and that nothing older moved. */
  lemma LinkRead(f: Forest, f1: Forest, d: Depths, c: Handle, h: Handle, t: Item, acc: seq<Item>)
    requires Domains(f) && Valid(f1, d) && Untouched(f, f1, None)
    requires Holding(f, c, acc) && c in f.info && h !in f.info && c < h
    requires h in f1.info && h !in f1.parent && Represents(f1, h, t)
    ensures CanLink(f1, d, c, h)
    ensures var f2 := Added(f1, d, c, 0, h);
            Holding(f2, c, [t] + acc) && Untouched(f, f2, Some(c)) && f2.info == f1.info
  {
    hide Wrap, AsInt32, Weight, DeepSum, Represents, RepresentsAll, Added, CanLink, Mirrored, Ranked, Deep;
    HoldingFrame(f, f1, c, acc);
    AddToRoot(f1, d, c, h);
    HoldingMeans(f1, c, acc);
    AddFront(f1, d, c, h, t, acc);
  }

  class Loader {
    const store: Store
    const stream: PropStream
    var next: Handle
    /** How many items each container being read still waits for. */
    var serializationCount: map<Handle, nat>

    constructor (store: Store, stream: PropStream, next: Handle)
      requires store.Sound() && stream.Valid() && forall h :: h in store.info ==> h < next
      ensures this.store == store && this.stream == stream && this.next == next && Ready()
    {
      this.store, this.stream, this.next := store, stream, next;
      serializationCount := map[];
    }

    ghost predicate Ready()
      reads this, store, stream
    {
      store.Sound() && stream.Valid() && forall h :: h in store.info ==> h < next
    }

    /** What every method leaves alone: the objects of f other than c. */
    ghost predicate Progress(f: Forest, n: Handle, c: Option<Handle>)
      reads this, store, stream
    {
      Ready() && n <= next && Untouched(f, store.State(), c)
    }

    /** ... and the counts of the older containers other than c. */
    ghost predicate Counting(n: Handle, counts: map<Handle, nat>, c: Option<Handle>)
      reads `serializationCount
    {
      forall k :: k in counts && k < n && c != Some(k) ==> k in serializationCount && serializationCount[k] == counts[k]
    }

    /** Item::CreateItem(id), with the attributes that were read for it. */
    method Create(what: Info) returns (h: Handle)
      requires Ready()
      modifies this`next, store
      ensures Ready() && h == old(next) && next == h + 1
      ensures store.State() == Created(old(store.State()), h, what)
    {
      h := next;
      store.NewItem(h, what, Box(true, 0, false, false, false));
      next := next + 1;
    }

    /** loadItem: one item with everything in it; parent is the container it is linked into, None for
        a tile. acc is what that container stands for before the call. */
    method LoadItem(parent: Option<Handle>, ghost acc: seq<Item>) returns (ok: bool, h: Option<Handle>)
      requires Ready()
      requires parent.Some? ==> Holding(store.State(), parent.value, acc) && parent.value in store.info
      modifies this`next, this`serializationCount, store, stream`p
      ensures Progress(old(store.State()), old(next), parent) && Counting(old(next), old(serializationCount), None)
      ensures var r := Load(store.types, old(stream.Rest()));
              && (ok <==> r.LoadedItem?)
              && (ok ==> stream.Rest() == r.rest && (h.Some? <==> r.item.Some?))
              && (ok && parent.Some? ==> Holding(store.State(), parent.value, Pushed(r.item, acc)))
              && (ok && parent.None? && h.Some? ==>
                    h.value >= old(next) && h.value !in store.parent && Represents(store.State(), h.value, r.item.value))
      decreases |stream.Rest()|, 1
    {
      hide Load, Holding, Represents, Untouched, Added, CanLink, Inv, Valid, Domains;
      ghost var f, r := store.State(), Load(store.types, stream.Rest());
      ghost var n, counts := next, serializationCount;
      SoundMeans(store);
      ok, h := ReadItem();
      SoundMeans(store);
      if ok && h.Some? && parent.Some? {
        LinkRead(f, store.State(), store.depths, parent.value, h.value, r.item.value, acc);
        store.InternalAddThing(parent.value, h.value);
      } else if parent.Some? {
        HoldingFrame(f, store.State(), parent.value, acc);
        UntouchedWeaken(f, store.State(), parent);
      }
    }

    /** The part of loadItem before the item is linked anywhere. */
    method ReadItem() returns (ok: bool, h: Option<Handle>)
      requires Ready()
      modifies this`next, this`serializationCount, store, stream`p
      ensures Progress(old(store.State()), old(next), None) && Counting(old(next), old(serializationCount), None)
      ensures var r := Load(store.types, old(stream.Rest()));
              && (ok <==> r.LoadedItem?)
              && (ok ==> stream.Rest() == r.rest && (h.Some? <==> r.item.Some?))
              && (ok && h.Some? ==>
                    && h.value >= old(next) && h.value in store.info && h.value !in store.parent
                    && Represents(store.State(), h.value, r.item.value))
      decreases |stream.Rest()|, 0
    {
      h := None;
      var id;
      ok, id := stream.Read(2);
      if !ok || id !in store.types {
        return;
      }
      var attrs := UnserializeAttr(stream, store.types[id].container);
      if attrs.Failed? {
        return false, None;
      }
      ok, h := FinishItem(LoadedInfo(id, 0, attrs.attrs), if attrs.Contents? then attrs.count else 0);
    }

    /** Creates the item and, if it is a container, reads its contents. */
    method FinishItem(what: Info, count: nat) returns (ok: bool, h: Option<Handle>)
      requires Ready() && what.id in store.types
      modifies this`next, this`serializationCount, store, stream`p
      ensures Progress(old(store.State()), old(next), None) && Counting(old(next), old(serializationCount), None)
      ensures var r := Finished(store.types, what, count, old(stream.Rest()));
              && (ok <==> r.LoadedItem?)
              && (ok ==> stream.Rest() == r.rest && h.Some? && r.item.Some?)
              && (ok ==>
                    && h.value >= old(next) && h.value in store.info && h.value !in store.parent
                    && Represents(store.State(), h.value, r.item.value))
      decreases |stream.Rest()|, 4
    {
      hide Untouched, Holding, Represents, LoadMany, Created, Valid, Domains, Weighed;
      ghost var f, n, counts := store.State(), next, serializationCount;
      SoundMeans(store);
      CreatedEmpty(f, store.depths, next, what);
      var c := Create(what);
      ghost var f1 := store.State();
      ok, h := true, Some(c);
      if store.types[what.id].container {
        serializationCount := serializationCount[c := count];
        ok := LoadContainer(c);
        UntouchedNew(f, f1, store.State(), c, None);
        UntouchedOne(f1, store.State(), Some(c), c);
        if ok {
          HoldingIsTree(store.State(), c, Finished(store.types, what, count, old(stream.Rest())).item.value);
        }
      }
    }

    /** One round of the loop in loadContainer. */
    method LoadNext(c: Handle, ghost acc: seq<Item>) returns (ok: bool)
      requires Ready() && Holding(store.State(), c, acc) && c in store.info && c in serializationCount && serializationCount[c] > 0
      modifies this`next, this`serializationCount, store, stream`p
      ensures Progress(old(store.State()), old(next), Some(c)) && Counting(old(next), old(serializationCount), Some(c))
      ensures c in store.info && c in serializationCount
      ensures var r := Load(store.types, old(stream.Rest()));
              && (ok <==> r.LoadedItem?)
              && (ok ==> stream.Rest() == r.rest && Holding(store.State(), c, Pushed(r.item, acc))
                         && serializationCount[c] == old(serializationCount[c]) - 1)
      decreases |stream.Rest()|, 2
    {
      hide Untouched, Holding, Load, Inv, Pushed;
      ghost var f := store.State();
      var h;
      ok, h := LoadItem(Some(c), acc);
      UntouchedOne(f, store.State(), Some(c), c);
      if ok {
        serializationCount := serializationCount[c := serializationCount[c] - 1];
      }
    }

    /** loadContainer. */
    method LoadContainer(c: Handle) returns (ok: bool)
      requires Ready() && Holding(store.State(), c, []) && c in store.info && c in serializationCount
      modifies this`next, this`serializationCount, store, stream`p
      ensures Progress(old(store.State()), old(next), Some(c)) && Counting(old(next), old(serializationCount), Some(c))
      ensures var many := LoadMany(store.types, old(serializationCount)[c], old(stream.Rest()), []);
              && (ok <==> many.Some? && many.value.1 != [] && many.value.1[0] == ATTR_END)
              && (ok ==> Holding(store.State(), c, many.value.0) && stream.Rest() == many.value.1[1..])
      decreases |stream.Rest()|, 3
    {
      hide Untouched, Holding, Load, LoadMany, Inv, Pushed;
      ghost var f, n, counts := store.State(), next, serializationCount;
      ghost var acc: seq<Item> := [];
      ghost var start := stream.Rest();
      UntouchedSelf(f, Some(c));
      while serializationCount[c] > 0
        invariant Progress(f, n, Some(c)) && Counting(n, counts, Some(c)) && c in store.info && c in serializationCount
        invariant |stream.Rest()| <= |start|
        invariant Holding(store.State(), c, acc)
        invariant LoadMany(store.types, serializationCount[c], stream.Rest(), acc) == LoadMany(store.types, counts[c], start, [])
        decreases serializationCount[c]
      {
        ghost var before, s := store.State(), stream.Rest();
        LoadManyStep(store.types, serializationCount[c], s, acc);
        ok := LoadNext(c, acc);
        UntouchedTwice(f, before, store.State(), Some(c));
        if !ok {
          return;
        }
        acc := Pushed(Load(store.types, s).item, acc);
      }
      LoadManyDone(store.types, stream.Rest(), acc);
      ok := ReadEnd();
    }

    /** The end mark after the contents. */
    method ReadEnd() returns (ok: bool)
      requires stream.Valid()
      modifies stream`p
      ensures stream.Valid() && |stream.Rest()| <= |old(stream.Rest())|
      ensures ok <==> old(stream.Rest()) != [] && old(stream.Rest())[0] == ATTR_END
      ensures ok ==> stream.Rest() == old(stream.Rest())[1..]
    {
      var endAttr;
      OneByte(stream.Rest());
      ok, endAttr := stream.Read(1);
      ok := ok && endAttr == ATTR_END as nat;
    }
  }

  /** What is left of Load once the attributes are read. */
  function Finished(types: ItemTypes, what: Info, count: nat, s: seq<byte>): Loaded {
    if !IsContainer(types, what) then LoadedItem(Some(Item(what, [])), s)
    else match LoadMany(types, count, s, [])
      case None => LoadFailed
      case Some((contents, rest)) => Close(Item(what, contents), rest)
  }

  lemma LoadManyStep(types: ItemTypes, count: nat, s: seq<byte>, acc: seq<Item>)
    requires count > 0
    ensures LoadMany(types, count, s, acc)
         == match Load(types, s)
            case LoadFailed => None
            case LoadedItem(item, rest) => LoadMany(types, count - 1, rest, Pushed(item, acc))
  {
    hide Load;
  }

  lemma LoadManyDone(types: ItemTypes, s: seq<byte>, acc: seq<Item>)
    ensures LoadMany(types, 0, s, acc) == Some((acc, s))
  {
  }

  lemma SoundMeans(store: Store)
    requires store.Sound()
    ensures Valid(store.State(), store.depths) && Domains(store.State())
  {
  }

  lemma UntouchedWeaken(f: Forest, f': Forest, c: Option<Handle>)
    requires Untouched(f, f', None)
    ensures Untouched(f, f', c)
  {
  }

  /** Saving a tree and loading it again, whatever follows it in the stream: the tree is back under a new
      handle, with every cached weight right, and exactly its own bytes are consumed. */
  method SaveThenLoad(store: Store, next: Handle, t: Item, tail: seq<byte>) returns (h: Handle, rest: seq<byte>)
    requires store.Sound() && StorableTree(store.types, t) && forall k :: k in store.info ==> k < next
    modifies store
    ensures store.Sound() && h >= next && Represents(store.State(), h, t) && rest == tail
    ensures Untouched(old(store.State()), store.State(), None)
  {
    hide Inv, Represents, Untouched, Load, Saved, StorableTree;
    var out := new PropWriteStream();
    SaveItem(store.types, out, t);
    out.WriteBytes(tail);
    var stream := new PropStream(out.buffer);
    LoadSaved(store.types, t, tail);
    assert stream.Rest() == Saved(store.types, t) + tail;
    var loader := new Loader(store, stream, next);
    var ok, loaded := loader.LoadItem(None, []);
    h, rest := loaded.value, stream.data[stream.p..];
  }
}
