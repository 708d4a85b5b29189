/** The attribute block of an item on the wire: tagged, self-delimiting blocks, ended by a zero tag, by
    the end of the stream or, for a container, by the count of the items that follow. */
module ItemAttributes {
  import opened Bytes
  import opened ItemForest

  const ATTR_END: byte := 0
  const ATTR_CONTAINER_ITEMS: byte := 23

  datatype Shape = Fixed(size: nat) | Text | Custom | Unknown

  /** What Item::readAttr expects after each tag. */
  function ShapeOf(tag: byte): Shape {
    if tag in {12, 14, 15, 17, 32, 33, 38, 40} then Fixed(1)
    else if tag in {4, 5, 10, 22, 41} || 44 <= tag <= 55 then Fixed(2)
    else if tag in {16, 18, 20, 21, 27, 28, 29, 30, 31, 37, 39, 42, 43} then Fixed(4)
    else if tag == 8 then Fixed(5)
    else if tag == 35 then Fixed(0)
    else if tag in {6, 7, 19, 24, 25, 26, 34} then Text
    else if tag == 36 then Custom
    else Unknown
  }

  /** How many bytes a length-prefixed string takes at the front of s. */
  function TextLength(s: seq<byte>): (r: Option<nat>)
    ensures r.Some? ==> r.value <= |s|
  {
    if |s| < 2 then None
    else
      var n := 2 + DecodeLE(s[..2]);
      if |s| < n then None else Some(n)
  }

  /** One typed value of a custom attribute. */
  function ValueLength(s: seq<byte>): (r: Option<nat>)
    ensures r.Some? ==> r.value <= |s|
  {
    if s == [] then None
    else if s[0] == 1 then
      (match TextLength(s[1..]) case None => None case Some(n) => Some(1 + n))
    else if s[0] == 2 || s[0] == 3 then (if |s| < 9 then None else Some(9))
    else if s[0] == 4 then (if |s| < 2 then None else Some(2))
    else None
  }

  /** n pairs of key and value. */
  function PairsLength(s: seq<byte>, n: nat): (r: Option<nat>)
    ensures r.Some? ==> r.value <= |s|
    decreases n
  {
    if n == 0 then Some(0)
    else match TextLength(s)
      case None => None
      case Some(k) =>
        match ValueLength(s[k..])
        case None => None
        case Some(v) =>
          match PairsLength(s[k + v..], n - 1)
          case None => None
          case Some(rest) => Some(k + v + rest)
  }

  /** How many bytes the payload of a tag takes at the front of s; None is a read error. */
  function PayloadLength(tag: byte, s: seq<byte>): (r: Option<nat>)
    ensures r.Some? ==> r.value <= |s|
  {
    match ShapeOf(tag)
    case Fixed(n) => if |s| < n then None else Some(n)
    case Text => TextLength(s)
    case Custom =>
      if |s| < 8 then None
      else (match PairsLength(s[8..], DecodeLE(s[..8])) case None => None case Some(n) => Some(8 + n))
    case Unknown => None
  }

  predicate WellFormedBlock(b: Block) {
    b.tag != ATTR_END && b.tag != ATTR_CONTAINER_ITEMS && PayloadLength(b.tag, b.payload) == Some(|b.payload|)
  }

  predicate WellFormedAttrs(attrs: seq<Block>) {
    forall k :: 0 <= k < |attrs| ==> WellFormedBlock(attrs[k])
  }

  // ---------- payloads delimit themselves ----------

  lemma TextStable(p: seq<byte>, tail: seq<byte>)
    requires TextLength(p).Some?
    ensures TextLength(p + tail) == TextLength(p)
  {
    assert (p + tail)[..2] == p[..2];
  }

  lemma ValueStable(p: seq<byte>, tail: seq<byte>)
    requires ValueLength(p).Some?
    ensures ValueLength(p + tail) == ValueLength(p)
  {
    assert (p + tail)[1..] == p[1..] + tail;
    if p[0] == 1 {
      TextStable(p[1..], tail);
    }
  }

  lemma PairsUnfold(s: seq<byte>, n: nat)
    ensures PairsLength(s, n) ==
            if n == 0 then Some(0)
            else match TextLength(s)
              case None => None
              case Some(k) =>
                match ValueLength(s[k..])
                case None => None
                case Some(v) =>
                  match PairsLength(s[k + v..], n - 1)
                  case None => None
                  case Some(rest) => Some(k + v + rest)
  {
  }

  lemma {:induction false} PairsStable(p: seq<byte>, n: nat, tail: seq<byte>)
    requires PairsLength(p, n).Some?
    ensures PairsLength(p + tail, n) == PairsLength(p, n)
    decreases n
  {
    hide TextLength, ValueLength, PairsLength;
    PairsUnfold(p, n);
    PairsUnfold(p + tail, n);
    if n > 0 {
      var k := TextLength(p).value;
      TextStable(p, tail);
      assert (p + tail)[k..] == p[k..] + tail;
      var v := ValueLength(p[k..]).value;
      ValueStable(p[k..], tail);
      assert (p + tail)[k + v..] == p[k..][v..] + tail && p[k + v..] == p[k..][v..];
      PairsStable(p[k..][v..], n - 1, tail);
    }
  }

  /** What is read of a payload does not depend on what follows it. */
  lemma PayloadStable(tag: byte, p: seq<byte>, tail: seq<byte>)
    requires PayloadLength(tag, p).Some?
    ensures PayloadLength(tag, p + tail) == PayloadLength(tag, p)
  {
    match ShapeOf(tag)
    case Text => TextStable(p, tail);
    case Custom =>
      assert (p + tail)[..8] == p[..8] && (p + tail)[8..] == p[8..] + tail;
      PairsStable(p[8..], DecodeLE(p[..8]), tail);
    case _ =>
  }

  // ---------- writing and reading ----------

  function EncodeBlocks(attrs: seq<Block>): seq<byte> {
    if attrs == [] then [] else [attrs[0].tag] + attrs[0].payload + EncodeBlocks(attrs[1..])
  }

  /** The outcomes of unserializeAttr: a read error after some attributes, the normal end, or the stop
      at the item count of a container. */
  datatype Outcome =
    | Failed(attrs: seq<Block>)
    | Done(attrs: seq<Block>, rest: seq<byte>)
    | Contents(attrs: seq<Block>, count: nat, rest: seq<byte>)

  function Prepend(b: Block, r: Outcome): Outcome {
    match r
    case Failed(attrs) => Failed([b] + attrs)
    case Done(attrs, rest) => Done([b] + attrs, rest)
    case Contents(attrs, count, rest) => Contents([b] + attrs, count, rest)
  }

  function ReadBlocks(s: seq<byte>, container: bool): (r: Outcome)
    ensures r.Done? && s != [] ==> |r.rest| < |s|
    ensures r.Contents? ==> container && |r.rest| < |s|
    decreases |s|
  {
    if s == [] then Done([], [])
    else if s[0] == ATTR_END then Done([], s[1..])
    else if container && s[0] == ATTR_CONTAINER_ITEMS then
      (match TakeLE(s[1..], 4)
       case None => Failed([])
       case Some((n, rest)) => Contents([], n, rest))
    else match PayloadLength(s[0], s[1..])
      case None => Failed([])
      case Some(n) => Prepend(Block(s[0], s[1..1 + n]), ReadBlocks(s[1 + n..], container))
  }

  function PrependAll(attrs: seq<Block>, r: Outcome): Outcome {
    match r
    case Failed(more) => Failed(attrs + more)
    case Done(more, rest) => Done(attrs + more, rest)
    case Contents(more, count, rest) => Contents(attrs + more, count, rest)
  }

  /** Reading written attributes gives them back and goes on with what follows. */
  lemma {:induction false} ReadWritten(attrs: seq<Block>, tail: seq<byte>, container: bool)
    requires WellFormedAttrs(attrs)
    ensures ReadBlocks(EncodeBlocks(attrs) + tail, container) == PrependAll(attrs, ReadBlocks(tail, container))
    decreases |attrs|
  {
    hide ReadBlocks, WellFormedBlock, EncodeBlocks, PrependAll, Prepend;
    var r := ReadBlocks(tail, container);
    Encoded(attrs);
    if attrs == [] {
      assert [] + tail == tail;
      PrependNone(r);
    } else {
      var first, rest := [attrs[0].tag] + attrs[0].payload, EncodeBlocks(attrs[1..]);
      ReadWrittenBlock(attrs[0], rest + tail, container);
      assert (first + rest) + tail == first + (rest + tail);
      ReadWritten(attrs[1..], tail, container);
      PrependFirst(attrs, r);
    }
  }

  lemma PrependNone(r: Outcome)
    ensures PrependAll([], r) == r
  {
    assert [] + r.attrs == r.attrs;
  }

  lemma PrependFirst(attrs: seq<Block>, r: Outcome)
    requires attrs != []
    ensures Prepend(attrs[0], PrependAll(attrs[1..], r)) == PrependAll(attrs, r)
  {
    assert [attrs[0]] + (attrs[1..] + r.attrs) == attrs + r.attrs;
  }

  lemma Encoded(attrs: seq<Block>)
    ensures EncodeBlocks(attrs) == if attrs == [] then [] else ([attrs[0].tag] + attrs[0].payload) + EncodeBlocks(attrs[1..])
  {
  }

  lemma ReadWrittenBlock(b: Block, tail: seq<byte>, container: bool)
    requires WellFormedBlock(b)
    ensures ReadBlocks([b.tag] + b.payload + tail, container) == Prepend(b, ReadBlocks(tail, container))
  {
    var s := [b.tag] + b.payload + tail;
    PayloadStable(b.tag, b.payload, tail);
    assert s[1..] == b.payload + tail;
    assert s[1..1 + |b.payload|] == b.payload && s[1 + |b.payload|..] == tail;
  }

  /** ... up to the closing zero. */
  lemma ReadClosed(attrs: seq<Block>, tail: seq<byte>, container: bool)
    requires WellFormedAttrs(attrs)
    ensures ReadBlocks(EncodeBlocks(attrs) + [ATTR_END] + tail, container) == Done(attrs, tail)
  {
    ReadWritten(attrs, [ATTR_END] + tail, container);
    assert EncodeBlocks(attrs) + [ATTR_END] + tail == EncodeBlocks(attrs) + ([ATTR_END] + tail);
    assert ([ATTR_END] + tail)[1..] == tail && attrs + [] == attrs;
  }

  /** ... or the item count of a container. */
  lemma ReadUpToContents(attrs: seq<Block>, count: nat, tail: seq<byte>)
    requires WellFormedAttrs(attrs) && count < 0x1_0000_0000
    ensures ReadBlocks(EncodeBlocks(attrs) + ([ATTR_CONTAINER_ITEMS] + EncodeLE(count, 4) + tail), true) == Contents(attrs, count, tail)
  {
    var more := [ATTR_CONTAINER_ITEMS] + EncodeLE(count, 4) + tail;
    ReadWritten(attrs, more, true);
    Powers();
    TakeEncoded(count, 4, tail);
    assert more[1..] == EncodeLE(count, 4) + tail;
    assert attrs + [] == attrs;
  }

  // ---------- what the attributes say about the item ----------

  /** The count or charges that the last counting attribute sets. */
  function CountAfter(attrs: seq<Block>, created: nat): nat {
    if attrs == [] then created
    else
      var last := attrs[|attrs| - 1];
      if last.tag in {12, 15, 22} then DecodeLE(last.payload) else CountAfter(attrs[..|attrs| - 1], created)
  }

  /** CreateItem(id, count) followed by reading attributes. */
  function LoadedInfo(id: nat, count: nat, attrs: seq<Block>): Info {
    Info(id, CountAfter(attrs, if count == 0 then 1 else count), attrs)
  }

  /** An item whose stored attributes say all there is to it: its type can be created and its count is 1
      or is among the attributes. */
  predicate Storable(types: ItemTypes, info: Info) {
    info.id in types && info.id < 0x1_0000 && WellFormedAttrs(info.attrs) && info.count == CountAfter(info.attrs, 1)
  }

  lemma {:induction false} CountWritten(attrs: seq<Block>, a: nat, b: nat)
    requires CountAfter(attrs, 1) == a
    ensures CountAfter(attrs, if a == 0 then 1 else a) == a
    decreases |attrs|
  {
    if attrs != [] && attrs[|attrs| - 1].tag !in {12, 15, 22} {
      CountWritten(attrs[..|attrs| - 1], a, b);
    }
  }

  lemma StorableLoads(types: ItemTypes, info: Info)
    requires Storable(types, info)
    ensures LoadedInfo(info.id, info.count, info.attrs) == info && LoadedInfo(info.id, 0, info.attrs) == info
  {
    CountWritten(info.attrs, info.count, 0);
  }

  /** Item::unserializeAttr with Container::readAttr: the loop over the stream. */
  method UnserializeAttr(stream: PropStream, container: bool) returns (r: Outcome)
    requires stream.Valid()
    modifies stream`p
    ensures stream.Valid()
    ensures r == ReadBlocks(old(stream.Rest()), container)
    ensures !r.Failed? ==> stream.Rest() == r.rest
  {
    hide PrependAll, Prepend, PairsLength;
    var attrs: seq<Block> := [];
    ghost var all := stream.Rest();
    PrependNone(ReadBlocks(all, container));
    while true
      invariant stream.Valid()
      invariant PrependAll(attrs, ReadBlocks(stream.Rest(), container)) == ReadBlocks(all, container)
      decreases |stream.Rest()|
    {
      ghost var here := stream.Rest();
      OneByte(here);
      var ok, tag := stream.Read(1);
      if !ok || tag == ATTR_END as nat {
        PrependLast(attrs);
        return Done(attrs, stream.data[stream.p..]);
      }
      if container && tag == ATTR_CONTAINER_ITEMS as nat {
        var got, count := stream.Read(4);
        PrependLast(attrs);
        return if got then Contents(attrs, count, stream.data[stream.p..]) else Failed(attrs);
      }
      var n := PayloadLength(tag, stream.data[stream.p..]);
      if n == None {
        PrependLast(attrs);
        return Failed(attrs);
      }
      ghost var there := stream.Rest();
      var block := Block(tag, stream.data[stream.p..][..n.value]);
      var skipped := stream.Skip(n.value);
      PushBlock(attrs, block, ReadBlocks(stream.Rest(), container));
      assert here[1..1 + n.value] == there[..n.value] && here[1 + n.value..] == there[n.value..];
      attrs := attrs + [block];
    }
  }

  lemma OneByte(s: seq<byte>)
    ensures TakeLE(s, 1) == if s == [] then None else Some((s[0] as nat, s[1..]))
  {
    if s != [] {
      assert s[..1] == [s[0]];
      assert DecodeLE([s[0]]) == s[0] + 256 * DecodeLE([s[0]][1..]);
    }
  }

  /** What an outcome without attributes of its own adds. */
  lemma PrependLast(attrs: seq<Block>)
    ensures PrependAll(attrs, Failed([])) == Failed(attrs)
    ensures forall rest :: PrependAll(attrs, Done([], rest)) == Done(attrs, rest)
    ensures forall count, rest :: PrependAll(attrs, Contents([], count, rest)) == Contents(attrs, count, rest)
  {
    assert attrs + [] == attrs;
  }

  lemma PushBlock(attrs: seq<Block>, b: Block, r: Outcome)
    ensures PrependAll(attrs, Prepend(b, r)) == PrependAll(attrs + [b], r)
  {
    assert attrs + ([b] + r.attrs) == attrs + [b] + r.attrs;
  }
}
