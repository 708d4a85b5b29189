/** Stored items byte by byte: numbers, attributes with their tags and sizes, and whole items. */
module ItemFormat {
  import opened Bytes
  import opened ItemForest
  import opened ItemAttributes
  import opened ItemTrees
  import opened MapItems

  // ---------- numbers ----------

  /** Numbers go least significant byte first. */
  lemma NumbersInBytes(a: byte, b: byte, c: byte, d: byte)
    ensures DecodeLE([a]) == a
    ensures DecodeLE([a, b]) == a + 256 * b
    ensures DecodeLE([a, b, c, d]) == a + 256 * b + 65536 * c + 16777216 * d
  {
    assert [a, b, c, d][1..] == [b, c, d] && [b, c, d][1..] == [c, d] && [c, d][1..] == [d] && [d][1..] == [];
    assert [a, b][1..] == [b] && [b][1..] == [] && [a][1..] == [];
    assert DecodeLE([c, d]) == c + 256 * DecodeLE([d]) && DecodeLE([b, c, d]) == b + 256 * DecodeLE([c, d]);
  }

  lemma LowByteFirst(v: nat, n: nat)
    requires n > 0
    ensures EncodeLE(v, n) == [v % 256] + EncodeLE(v / 256, n - 1) && EncodeLE(v, 0) == []
  {
  }

  lemma ByteOfNumber(v: nat)
    ensures EncodeLE(v, 1) == [v % 256]
  {
    LowByteFirst(v, 1);
    LowByteFirst(v / 256, 1);
  }

  lemma TwoByteNumber(v: nat)
    requires v < 65536
    ensures EncodeLE(v, 2) == [v % 256, v / 256]
  {
    hide EncodeLE;
    ByteOfNumber(v / 256);
    LowByteFirst(v, 2);
  }

  lemma FourByteNumber(v: nat)
    requires v < 0x1_0000_0000
    ensures v / 16777216 < 256
    ensures EncodeLE(v, 4) == [v % 256, v / 256 % 256, v / 65536 % 256, v / 16777216]
  {
    hide EncodeLE;
    Halves(v);
    FourBytes(v, v / 256, v / 65536, v / 16777216);
  }

  lemma Halves(v: nat)
    requires v < 0x1_0000_0000
    ensures v / 256 / 256 == v / 65536 && v / 65536 / 256 == v / 16777216 && v / 16777216 < 256
  {
  }

  lemma FourBytes(v: nat, a: nat, b: nat, c: nat)
    requires a == v / 256 && b == a / 256 && c == b / 256 && c < 256
    ensures EncodeLE(v, 4) == [v % 256, a % 256, b % 256, c]
  {
    hide EncodeLE;
    LowByteFirst(v, 4);
    LowByteFirst(a, 3);
    LowByteFirst(b, 2);
    ByteOfNumber(c);
  }

  // ---------- attributes ----------

  /** Tags with one, two, four and five bytes after them, with nothing, and with a text. */
  predicate OneByteTag(tag: byte) { tag in {12, 14, 15, 17, 32, 33, 38, 40} }
  predicate TwoByteTag(tag: byte) { tag in {4, 5, 10, 22, 41, 44, 45, 46, 47, 48, 49, 50, 51, 52, 53, 54, 55} }
  predicate FourByteTag(tag: byte) { tag in {16, 18, 20, 21, 27, 28, 29, 30, 31, 37, 39, 42, 43} }
  predicate TextTag(tag: byte) { tag in {6, 7, 19, 24, 25, 26, 34} }

  /** An attribute of fixed size, closed by a zero. */
  lemma FixedAttribute(tag: byte, p: seq<byte>, tail: seq<byte>, container: bool)
    requires (OneByteTag(tag) && |p| == 1) || (TwoByteTag(tag) && |p| == 2) || (FourByteTag(tag) && |p| == 4)
             || (tag == 8 && |p| == 5) || (tag == 35 && p == [])
    ensures ReadBlocks([tag] + p + ([0] + tail), container) == Done([Block(tag, p)], tail)
    ensures WellFormedBlock(Block(tag, p))
  {
    ReadWrittenBlock(Block(tag, p), [0] + tail, container);
    ClosedHere(tail, container);
  }

  lemma ClosedHere(tail: seq<byte>, container: bool)
    ensures ReadBlocks([0] + tail, container) == Done([], tail)
  {
    assert ([0] + tail)[1..] == tail;
  }

  /** A text with its length in front. */
  lemma TextAttribute(tag: byte, text: seq<byte>, tail: seq<byte>, container: bool)
    requires TextTag(tag) && |text| < 65536
    ensures var p := [|text| % 256, |text| / 256] + text;
            ReadBlocks([tag] + p + ([0] + tail), container) == Done([Block(tag, p)], tail) && WellFormedBlock(Block(tag, p))
  {
    var p := [|text| % 256, |text| / 256] + text;
    TextPayload(tag, text);
    hide ReadBlocks, PayloadLength;
    ReadWrittenBlock(Block(tag, p), [0] + tail, container);
    ClosedHere(tail, container);
  }

  lemma TextPayload(tag: byte, text: seq<byte>)
    requires TextTag(tag) && |text| < 65536
    ensures var p := [|text| % 256, |text| / 256] + text; PayloadLength(tag, p) == Some(|p|)
  {
    var p := [|text| % 256, |text| / 256] + text;
    assert p[..2] == [|text| % 256, |text| / 256];
    NumbersInBytes(|text| % 256, |text| / 256, 0, 0);
    hide DecodeLE;
  }

  /** Any other tag is a read error, but for the custom attributes (36), the closing zero, and in a container
      the item count (23). */
  lemma UnknownAttribute(tag: byte, s: seq<byte>, container: bool)
    requires !OneByteTag(tag) && !TwoByteTag(tag) && !FourByteTag(tag) && !TextTag(tag) && tag !in {0, 8, 35, 36}
    requires tag != 23 || !container
    ensures ReadBlocks([tag] + s, container) == Failed([])
  {
    assert ShapeOf(tag) == Unknown;
  }

  /** The value of a custom attribute: a text (1), a number or a float of eight bytes (2, 3), or a flag (4). */
  predicate CustomValue(value: seq<byte>) {
    || (|value| == 9 && (value[0] == 2 || value[0] == 3))
    || (|value| == 2 && value[0] == 4)
    || (|value| >= 3 && value[0] == 1 && var low: int, high: int := value[1], value[2]; |value| == 3 + low + 256 * high)
  }

  /** One custom attribute: a count of eight bytes, a name, and a value. */
  lemma CustomAttribute(name: seq<byte>, value: seq<byte>, tail: seq<byte>, container: bool)
    requires |name| < 65536 && CustomValue(value)
    ensures var p := [1, 0, 0, 0, 0, 0, 0, 0] + ([|name| % 256, |name| / 256] + name + value);
            ReadBlocks([36] + p + ([0] + tail), container) == Done([Block(36, p)], tail) && WellFormedBlock(Block(36, p))
  {
    var named := [|name| % 256, |name| / 256] + name;
    var p := [1, 0, 0, 0, 0, 0, 0, 0] + (named + value);
    CustomPayload(name, value);
    hide ReadBlocks, PayloadLength, CustomValue;
    assert p == [1, 0, 0, 0, 0, 0, 0, 0] + ([|name| % 256, |name| / 256] + name + value);
    ReadWrittenBlock(Block(36, p), [0] + tail, container);
    ClosedHere(tail, container);
  }

  lemma CustomPayload(name: seq<byte>, value: seq<byte>)
    requires |name| < 65536 && CustomValue(value)
    ensures var p := [1, 0, 0, 0, 0, 0, 0, 0] + ([|name| % 256, |name| / 256] + name + value);
            PayloadLength(36, p) == Some(|p|)
  {
    var s := [|name| % 256, |name| / 256] + name + value;
    var p := [1, 0, 0, 0, 0, 0, 0, 0] + s;
    OnePair(name, value);
    EightBytes();
    PayloadOfPairs(s);
  }

  lemma PayloadOfPairs(s: seq<byte>)
    requires PairsLength(s, 1) == Some(|s|) && DecodeLE([1, 0, 0, 0, 0, 0, 0, 0]) == 1
    ensures PayloadLength(36, [1, 0, 0, 0, 0, 0, 0, 0] + s) == Some(8 + |s|)
  {
    hide PairsLength, DecodeLE, PayloadLength;
    CountThenPairs([1, 0, 0, 0, 0, 0, 0, 0], s);
  }

  lemma CountThenPairs(count: seq<byte>, s: seq<byte>)
    requires |count| == 8
    ensures PayloadLength(36, count + s) == match PairsLength(s, DecodeLE(count)) case None => None case Some(n) => Some(8 + n)
  {
    hide PairsLength, DecodeLE;
    assert (count + s)[8..] == s && (count + s)[..8] == count;
  }

  lemma EightBytes()
    ensures DecodeLE([1, 0, 0, 0, 0, 0, 0, 0]) == 1
  {
    NumbersInBytes(0, 0, 0, 0);
    assert [0, 0, 0, 0, 0][1..] == [0, 0, 0, 0] && [0, 0, 0, 0, 0, 0][1..] == [0, 0, 0, 0, 0];
    assert [0, 0, 0, 0, 0, 0, 0][1..] == [0, 0, 0, 0, 0, 0] && [1, 0, 0, 0, 0, 0, 0, 0][1..] == [0, 0, 0, 0, 0, 0, 0];
    var five: seq<byte>, six: seq<byte>, seven: seq<byte> := [0, 0, 0, 0, 0], [0, 0, 0, 0, 0, 0], [0, 0, 0, 0, 0, 0, 0];
    assert DecodeLE(five) == 0 && DecodeLE(six) == 0 && DecodeLE(seven) == 0;
  }

  lemma OnePair(name: seq<byte>, value: seq<byte>)
    requires |name| < 65536 && CustomValue(value)
    ensures var s := [|name| % 256, |name| / 256] + name + value; PairsLength(s, 1) == Some(|s|)
  {
    var s := [|name| % 256, |name| / 256] + name + value;
    assert s[..2] == [|name| % 256, |name| / 256] && s[2 + |name|..] == value;
    NumbersInBytes(|name| % 256, |name| / 256, 0, 0);
    assert TextLength(s) == Some(2 + |name|);
    if value[0] == 1 {
      assert value[1..][..2] == [value[1], value[2]];
      NumbersInBytes(value[1], value[2], 0, 0);
      assert TextLength(value[1..]) == Some(|value| - 1);
    }
    assert ValueLength(value) == Some(|value|);
    assert PairsLength([], 0) == Some(0);
    assert s[2 + |name| + |value|..] == [];
  }

  /** The items that come back: their type is known, their attributes are such blocks, and reading these alone
      gives the item. */
  lemma StorableMeans(types: ItemTypes, info: Info)
    ensures Storable(types, info) <==>
            info.id in types && info.id <= 65535 && (forall b :: b in info.attrs ==> WellFormedBlock(b))
            && LoadedInfo(info.id, 0, info.attrs) == info
  {
    hide WellFormedBlock;
  }

  /** The count of an item is what tag 12, 15 or 22 says, the last one that comes; without any it is what the
      item was created with, and at least 1. */
  lemma CountRead(id: nat, count: nat, attrs: seq<Block>, b: Block)
    ensures LoadedInfo(id, count, []).count == if count == 0 then 1 else count
    ensures LoadedInfo(id, count, attrs + [b]).count
         == if b.tag == 12 || b.tag == 15 || b.tag == 22 then DecodeLE(b.payload) else LoadedInfo(id, count, attrs).count
    ensures LoadedInfo(id, count, attrs).id == id && LoadedInfo(id, count, attrs).attrs == attrs
  {
    assert (attrs + [b])[..|attrs|] == attrs;
  }

  // ---------- whole items ----------

  /** An item without attributes that holds nothing. */
  lemma PlainItem(types: ItemTypes, id: nat, count: nat)
    requires id < 65536
    ensures Saved(types, Item(Info(id, count, []), []))
         == if IsContainer(types, Info(id, count, [])) then [id % 256, id / 256, 23, 0, 0, 0, 0, 0] else [id % 256, id / 256, 0]
  {
    TwoByteNumber(id);
    FourByteNumber(0);
    assert EncodeBlocks([]) == [] && SavedReversed(types, []) == [];
  }

  /** Twenty coins of type 2148: the count under tag 15. */
  lemma Coins(types: ItemTypes)
    requires !IsContainer(types, Info(2148, 20, [Block(15, [20])]))
    ensures Saved(types, Item(Info(2148, 20, [Block(15, [20])]), [])) == [100, 8, 15, 20, 0]
  {
    TwoByteNumber(2148);
    assert [Block(15, [20])][1..] == [];
    assert EncodeBlocks([]) == [];
    assert EncodeBlocks([Block(15, [20])]) == [15, 20];
  }

  /** A container with two items: their number after tag 23, and the last of them first. */
  lemma TwoInside(types: ItemTypes, id: nat, a: Item, b: Item)
    requires id < 65536 && IsContainer(types, Info(id, 1, []))
    ensures Saved(types, Item(Info(id, 1, []), [a, b]))
         == [id % 256, id / 256, 23, 2, 0, 0, 0] + (Saved(types, b) + Saved(types, a)) + [0]
  {
    hide Saved, EncodeLE, SavedReversed, EncodeBlocks, IsContainer;
    TwoByteNumber(id);
    FourByteNumber(2);
    NoBlocks();
    TwoReversed(types, a, b);
    SavedOpen(types, Item(Info(id, 1, []), [a, b]));
    TwoFramed(id % 256, id / 256, Saved(types, b) + Saved(types, a));
  }

  lemma NoBlocks()
    ensures EncodeBlocks([]) == []
  {
  }

  lemma TwoFramed(low: byte, high: byte, inside: seq<byte>)
    ensures [low, high] + [] + ([23] + [2, 0, 0, 0] + inside) + [0] == [low, high, 23, 2, 0, 0, 0] + inside + [0]
  {
    Strung([low, high], inside);
    Joins(low, high);
  }

  lemma Strung(head: seq<byte>, inside: seq<byte>)
    ensures head + [] + ([23] + [2, 0, 0, 0] + inside) + [0] == (head + [23, 2, 0, 0, 0]) + inside + [0]
  {
  }

  lemma Joins(a: byte, b: byte)
    ensures [a, b] + [23, 2, 0, 0, 0] == [a, b, 23, 2, 0, 0, 0]
  {
  }

  lemma SavedOpen(types: ItemTypes, t: Item)
    requires IsContainer(types, t.info)
    ensures Saved(types, t)
         == EncodeLE(t.info.id, 2) + EncodeBlocks(t.info.attrs)
            + ([23] + EncodeLE(|t.contents|, 4) + SavedReversed(types, t.contents)) + [0]
  {
  }

  lemma TwoReversed(types: ItemTypes, a: Item, b: Item)
    ensures SavedReversed(types, [a, b]) == Saved(types, b) + Saved(types, a)
  {
    hide Saved;
    assert [a, b][1..] == [b] && [b][1..] == [] && SavedReversed(types, []) == [];
    assert SavedReversed(types, [b]) == Saved(types, b);
  }
}
