/** Items on house tiles: the recursive byte format that saveItem writes and loadItem reads. */
module MapItems {
  import opened Bytes
  import opened ItemForest
  import opened ItemAttributes
  import opened ItemTrees

  // ---------- the format ----------

  /** What saveItem writes: id, attributes, for a container the number of its items and the items last
      to first, and a closing zero. */
  function Saved(types: ItemTypes, t: Item): seq<byte>
    decreases t, 1
  {
    EncodeLE(t.info.id, 2) + EncodeBlocks(t.info.attrs)
    + (if IsContainer(types, t.info) then [ATTR_CONTAINER_ITEMS] + EncodeLE(|t.contents|, 4) + SavedReversed(types, t.contents) else [])
    + [ATTR_END]
  }

  function SavedReversed(types: ItemTypes, ts: seq<Item>): seq<byte>
    decreases ts, 0
  {
    if ts == [] then [] else SavedReversed(types, ts[1..]) + Saved(types, ts[0])
  }

  /** Trees the format can hold: creatable items, 32-bit list lengths, contents only in containers. */
  predicate StorableTree(types: ItemTypes, t: Item) {
    && Storable(types, t.info)
    && |t.contents| < 0x1_0000_0000
    && (t.contents != [] ==> IsContainer(types, t.info))
    && forall k | k in t.contents :: StorableTree(types, k)
  }

  /** The outcome of loadItem. An id of no known type yields no item, and its attributes stay unread. */
  datatype Loaded = LoadFailed | LoadedItem(item: Option<Item>, rest: seq<byte>)

  function Load(types: ItemTypes, s: seq<byte>): (r: Loaded)
    ensures r.LoadedItem? ==> |r.rest| < |s|
    decreases |s|, 0
  {
    match TakeLE(s, 2)
    case None => LoadFailed
    case Some((id, s1)) =>
      if id !in types then LoadedItem(None, s1)
      else match ReadBlocks(s1, types[id].container)
        case Failed(_) => LoadFailed
        case Done(attrs, rest) =>
          var info := LoadedInfo(id, 0, attrs);
          if types[id].container then Close(Item(info, []), rest) else LoadedItem(Some(Item(info, [])), rest)
        case Contents(attrs, count, rest) =>
          match LoadMany(types, count, rest, [])
          case None => LoadFailed
          case Some((contents, rest')) => Close(Item(LoadedInfo(id, 0, attrs), contents), rest')
  }

  /** The closing zero of a container. */
  function Close(t: Item, s: seq<byte>): (r: Loaded)
    ensures r.LoadedItem? ==> |r.rest| < |s|
  {
    if s == [] || s[0] != ATTR_END then LoadFailed else LoadedItem(Some(t), s[1..])
  }

  /** loadContainer: count items, each pushed to the front. */
  function LoadMany(types: ItemTypes, count: nat, s: seq<byte>, acc: seq<Item>): (r: Option<(seq<Item>, seq<byte>)>)
    ensures r.Some? ==> |r.value.1| <= |s|
    decreases |s|, 1
  {
    if count == 0 then Some((acc, s))
    else match Load(types, s)
      case LoadFailed => None
      case LoadedItem(item, rest) => LoadMany(types, count - 1, rest, Pushed(item, acc))
  }

  function Pushed(item: Option<Item>, acc: seq<Item>): seq<Item> {
    if item == None then acc else [item.value] + acc
  }

  // ---------- round trip ----------

  /** Loading what was saved gives the tree back and consumes exactly the bytes written. */
  lemma {:induction false} LoadSaved(types: ItemTypes, t: Item, tail: seq<byte>)
    requires StorableTree(types, t)
    ensures Load(types, Saved(types, t) + tail) == LoadedItem(Some(t), tail)
    decreases t, 1
  {
    hide ReadBlocks, EncodeBlocks, WellFormedAttrs, EncodeLE;
    var info := t.info;
    var after := Saved(types, t)[2..] + tail;
    assert Saved(types, t) + tail == EncodeLE(info.id, 2) + after;
    Powers();
    TakeEncoded(info.id, 2, after);
    StorableLoads(types, info);
    hide Load;
    if IsContainer(types, info) {
      var listed := SavedReversed(types, t.contents) + ([ATTR_END] + tail);
      assert after == EncodeBlocks(info.attrs) + ([ATTR_CONTAINER_ITEMS] + EncodeLE(|t.contents|, 4) + listed);
      ReadUpToContents(info.attrs, |t.contents|, listed);
      LoadManySaved(types, t.contents, [], [ATTR_END] + tail);
      assert t.contents + [] == t.contents;
      LoadBox(types, t, Saved(types, t) + tail, after, listed, tail);
    } else {
      assert after == EncodeBlocks(info.attrs) + [ATTR_END] + tail;
      ReadClosed(info.attrs, tail, false);
      LoadPlain(types, t, Saved(types, t) + tail, after, tail);
    }
  }

  lemma LoadPlain(types: ItemTypes, t: Item, s: seq<byte>, after: seq<byte>, tail: seq<byte>)
    requires t.info.id in types && !types[t.info.id].container && t.contents == []
    requires LoadedInfo(t.info.id, 0, t.info.attrs) == t.info
    requires TakeLE(s, 2) == Some((t.info.id, after)) && ReadBlocks(after, false) == Done(t.info.attrs, tail)
    ensures Load(types, s) == LoadedItem(Some(t), tail)
  {
    hide ReadBlocks, TakeLE, LoadedInfo;
  }

  lemma LoadBox(types: ItemTypes, t: Item, s: seq<byte>, after: seq<byte>, listed: seq<byte>, tail: seq<byte>)
    requires t.info.id in types && types[t.info.id].container
    requires LoadedInfo(t.info.id, 0, t.info.attrs) == t.info
    requires TakeLE(s, 2) == Some((t.info.id, after))
    requires ReadBlocks(after, true) == Contents(t.info.attrs, |t.contents|, listed)
    requires LoadMany(types, |t.contents|, listed, []) == Some((t.contents, [ATTR_END] + tail))
    ensures Load(types, s) == LoadedItem(Some(t), tail)
  {
    hide ReadBlocks, TakeLE, LoadedInfo, LoadMany;
    assert ([ATTR_END] + tail)[1..] == tail;
  }

  lemma {:induction false} LoadManySaved(types: ItemTypes, ts: seq<Item>, acc: seq<Item>, tail: seq<byte>)
    requires forall k | k in ts :: StorableTree(types, k)
    ensures LoadMany(types, |ts|, SavedReversed(types, ts) + tail, acc) == Some((ts + acc, tail))
    decreases ts, 0
  {
    hide Saved, Load, StorableTree, SavedReversed, LoadMany;
    if ts == [] {
      NoneSaved(types);
      LoadNone(types, tail, acc);
      assert [] + tail == tail && ts + acc == acc;
    } else {
      var n := |ts| - 1;
      var front, last := ts[..n], ts[n];
      SavedLastFirst(types, ts);
      assert (Saved(types, last) + SavedReversed(types, front)) + tail == Saved(types, last) + (SavedReversed(types, front) + tail);
      LoadSaved(types, last, SavedReversed(types, front) + tail);
      LoadOne(types, n, Saved(types, last) + (SavedReversed(types, front) + tail), SavedReversed(types, front) + tail, last, acc);
      LoadManySaved(types, front, [last] + acc, tail);
      assert front + ([last] + acc) == ts + acc;
    }
  }

  lemma LoadNone(types: ItemTypes, s: seq<byte>, acc: seq<Item>)
    ensures LoadMany(types, 0, s, acc) == Some((acc, s))
  {
  }

  lemma LoadOne(types: ItemTypes, n: nat, s: seq<byte>, rest: seq<byte>, t: Item, acc: seq<Item>)
    requires Load(types, s) == LoadedItem(Some(t), rest)
    ensures LoadMany(types, n + 1, s, acc) == LoadMany(types, n, rest, [t] + acc)
  {
    hide Load;
  }

  lemma NoneSaved(types: ItemTypes)
    ensures SavedReversed(types, []) == []
  {
  }

  lemma {:induction false} SavedLastFirst(types: ItemTypes, ts: seq<Item>)
    requires ts != []
    ensures SavedReversed(types, ts) == Saved(types, ts[|ts| - 1]) + SavedReversed(types, ts[..|ts| - 1])
  {
    hide Saved;
    if |ts| > 1 {
      SavedLastFirst(types, ts[1..]);
      assert ts[1..][..|ts| - 2] == ts[..|ts| - 1][1..];
    }
  }

  // ---------- the writer ----------

  method SaveItem(types: ItemTypes, stream: PropWriteStream, t: Item)
    modifies stream
    ensures stream.buffer == old(stream.buffer) + Saved(types, t)
    decreases t
  {
    hide EncodeLE, EncodeBlocks;
    stream.Write(t.info.id, 2);
    stream.WriteBytes(EncodeBlocks(t.info.attrs));
    if IsContainer(types, t.info) {
      stream.Write(ATTR_CONTAINER_ITEMS as nat, 1);
      stream.Write(|t.contents|, 4);
      ghost var start := stream.buffer;
      var i := |t.contents|;
      while i > 0
        invariant 0 <= i <= |t.contents|
        invariant stream.buffer == start + SavedReversed(types, t.contents[i..])
      {
        i := i - 1;
        SaveItem(types, stream, t.contents[i]);
        assert t.contents[i..][0] == t.contents[i] && t.contents[i..][1..] == t.contents[i + 1..];
      }
      assert t.contents[0..] == t.contents;
    }
    stream.Write(ATTR_END as nat, 1);
    TagBytes();
  }

  lemma TagBytes()
    ensures EncodeLE(ATTR_CONTAINER_ITEMS as nat, 1) == [ATTR_CONTAINER_ITEMS]
    ensures EncodeLE(ATTR_END as nat, 1) == [ATTR_END]
  {
    assert EncodeLE(23, 1) == [23] + EncodeLE(0, 0);
    assert EncodeLE(0, 1) == [0] + EncodeLE(0, 0);
  }
}
