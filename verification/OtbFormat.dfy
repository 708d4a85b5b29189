/** The OTB node format: what a file means, as a grammar and as a recursive-descent reading of it. */
module OtbFormat {
  import opened Bytes

  const ESCAPE: byte := 0xFD
  const START: byte := 0xFE
  const END: byte := 0xFF

  /** A parsed node: its kind byte, the span of its raw properties, its children. */
  datatype Node = Node(kind: byte, propsBegin: nat, propsEnd: nat, children: seq<Node>)

  // ---------- recursive descent, the reference reading of a file ----------

  /** What is read from inside a node up to and including its END: the children, where the raw
      properties stop (the first START or END), and the position after the END. */
  datatype Parsed = Parsed(children: seq<Node>, propsEnd: nat, next: nat)

  function Body(b: seq<byte>, i: nat): (r: Option<Parsed>)
    ensures r.Some? ==> i < r.value.next <= |b|
    ensures r.Some? ==> i <= r.value.propsEnd < r.value.next
    decreases |b| - i
  {
    if i >= |b| then None
    else if b[i] == START then
      if i + 1 >= |b| then None
      else match Body(b, i + 2)
        case None => None
        case Some(inner) =>
          match Body(b, inner.next)
          case None => None
          case Some(rest) =>
            Some(Parsed([Node(b[i + 1], i + 2, inner.propsEnd, inner.children)] + rest.children, i, rest.next))
    else if b[i] == END then Some(Parsed([], i, i + 1))
    else if b[i] == ESCAPE then (if i + 1 >= |b| then None else Body(b, i + 2))
    else Body(b, i + 1)
  }

  /** From position i on, nothing opens or closes a node and no escape is cut off. */
  predicate QuietFrom(b: seq<byte>, i: nat)
    decreases |b| - i
  {
    if i >= |b| then true
    else if b[i] == START || b[i] == END then false
    else if b[i] == ESCAPE then i + 1 < |b| && QuietFrom(b, i + 2)
    else QuietFrom(b, i + 1)
  }

  const IDENTIFIER_SIZE: nat := 4

  function Parse(b: seq<byte>): Option<Node>
    requires |b| > IDENTIFIER_SIZE + 1
  {
    if b[4] != START then None
    else match Body(b, 6)
      case None => None
      case Some(p) => if QuietFrom(b, p.next) then Some(Node(b[5], 6, p.propsEnd, p.children)) else None
  }

  // ---------- concrete syntax: every way of writing a tree down ----------

  /** A node as written: the raw bytes of its properties (escapes included), and its children, each
      followed by bytes that no reader looks at. */
  datatype Syntax = Syntax(kind: byte, raw: seq<byte>, kids: seq<Kid>)
  datatype Kid = Kid(node: Syntax, gap: seq<byte>)

  predicate Quiet(s: seq<byte>) {
    QuietFrom(s, 0)
  }

  predicate WellFormed(s: Syntax) {
    Quiet(s.raw) && forall k | k in s.kids :: WellFormed(k.node) && Quiet(k.gap)
  }

  predicate WellFormedKids(kids: seq<Kid>) {
    forall k | k in kids :: WellFormed(k.node) && Quiet(k.gap)
  }

  function Print(s: Syntax): seq<byte>
    decreases s, 1
  {
    [START, s.kind] + Inner(s.raw, s.kids)
  }

  function Inner(raw: seq<byte>, kids: seq<Kid>): seq<byte>
    decreases kids, 1
  {
    raw + PrintKids(kids) + [END]
  }

  function PrintKids(kids: seq<Kid>): seq<byte>
    decreases kids, 0
  {
    if kids == [] then [] else Print(kids[0].node) + kids[0].gap + PrintKids(kids[1..])
  }

  /** The node describes the syntax tree: same kinds, same shape, and property spans that hold the
      raw property bytes. */
  predicate Describes(b: seq<byte>, n: Node, s: Syntax) {
    && n.kind == s.kind
    && n.propsBegin <= n.propsEnd <= |b| && b[n.propsBegin..n.propsEnd] == s.raw
    && |n.children| == |s.kids|
    && forall k | 0 <= k < |s.kids| :: Describes(b, n.children[k], s.kids[k].node)
  }

  predicate DescribesAll(b: seq<byte>, ns: seq<Node>, kids: seq<Kid>) {
    && |ns| == |kids|
    && forall k | 0 <= k < |kids| :: Describes(b, ns[k], kids[k].node)
  }

  // ---------- printing then reading ----------

  ghost predicate At(b: seq<byte>, i: nat, part: seq<byte>) {
    i + |part| <= |b| && b[i..i + |part|] == part
  }

  lemma AtSplit(b: seq<byte>, i: nat, x: seq<byte>, y: seq<byte>)
    ensures At(b, i, x + y) <==> At(b, i, x) && At(b, i + |x|, y)
  {
    if At(b, i, x + y) {
      assert b[i..i + |x|] == (x + y)[..|x|] == x;
      assert b[i + |x|..i + |x| + |y|] == (x + y)[|x|..] == y;
    }
    if At(b, i, x) && At(b, i + |x|, y) {
      assert b[i..i + |x + y|] == b[i..i + |x|] + b[i + |x|..i + |x| + |y|];
    }
  }

  lemma AtByte(b: seq<byte>, i: nat, c: byte)
    ensures At(b, i, [c]) <==> i < |b| && b[i] == c
  {
  }

  lemma {:induction false} QuietShift(b: seq<byte>, i: nat, s: seq<byte>, j: nat)
    requires i <= |b| && b[i..] == s
    ensures QuietFrom(b, i + j) == QuietFrom(s, j)
    decreases |s| - j
  {
    if j < |s| {
      assert b[i + j] == s[j];
      QuietShift(b, i, s, j + 1);
      if j + 1 < |s| {
        QuietShift(b, i, s, j + 2);
      }
    }
  }

  /** Quiet bytes are passed over; they only delay where the properties are seen to stop. */
  lemma {:induction false} SkipQuiet(b: seq<byte>, i: nat, raw: seq<byte>, j: nat)
    requires At(b, i, raw) && j <= |raw| && QuietFrom(raw, j)
    ensures Body(b, i + j) == Body(b, i + |raw|)
    decreases |raw| - j
  {
    if j < |raw| {
      assert b[i + j] == raw[j];
      if raw[j] == ESCAPE {
        SkipQuiet(b, i, raw, j + 2);
      } else {
        SkipQuiet(b, i, raw, j + 1);
      }
    }
  }

  lemma InnerUnfolds(raw: seq<byte>, kids: seq<Kid>)
    requires kids != []
    ensures var s := kids[0].node;
            Inner(raw, kids) == raw + ([START, s.kind] + (Inner(s.raw, s.kids) + Inner(kids[0].gap, kids[1..])))
  {
    var s, gap, rest := kids[0].node, kids[0].gap, kids[1..];
    calc {
      Inner(raw, kids);
      raw + (Print(s) + gap + PrintKids(rest)) + [END];
      raw + ([START, s.kind] + (Inner(s.raw, s.kids) + (gap + PrintKids(rest) + [END])));
    }
  }

  lemma RawAtStart(b: seq<byte>, i: nat, raw: seq<byte>, kids: seq<Kid>)
    requires At(b, i, Inner(raw, kids))
    ensures At(b, i, raw)
  {
    AtSplit(b, i, raw + PrintKids(kids), [END]);
    AtSplit(b, i, raw, PrintKids(kids));
  }

  lemma InnerSpans(b: seq<byte>, i: nat, raw: seq<byte>, kids: seq<Kid>)
    requires At(b, i, Inner(raw, kids)) && kids != []
    ensures var s, stop := kids[0].node, i + |raw|;
            && stop + 1 < |b| && b[stop] == START && b[stop + 1] == s.kind
            && At(b, stop + 2, Inner(s.raw, s.kids))
            && At(b, stop + 2 + |Inner(s.raw, s.kids)|, Inner(kids[0].gap, kids[1..]))
            && |Inner(raw, kids)| == |raw| + 2 + |Inner(s.raw, s.kids)| + |Inner(kids[0].gap, kids[1..])|
  {
    var s, gap, rest, stop := kids[0].node, kids[0].gap, kids[1..], i + |raw|;
    var x, y := Inner(s.raw, s.kids), Inner(gap, rest);
    InnerUnfolds(raw, kids);
    AtSplit(b, i, raw, [START, s.kind] + (x + y));
    AtSplit(b, stop, [START, s.kind], x + y);
    AtSplit(b, stop + 2, x, y);
    assert b[stop..stop + 2] == [START, s.kind];
    assert b[stop] == b[stop..stop + 2][0] && b[stop + 1] == b[stop..stop + 2][1];
  }

  lemma ReadChild(b: seq<byte>, i: nat)
    requires i + 1 < |b| && b[i] == START
    requires Body(b, i + 2).Some? && Body(b, Body(b, i + 2).value.next).Some?
    ensures var inner := Body(b, i + 2).value;
            var rest := Body(b, inner.next).value;
            Body(b, i) == Some(Parsed([Node(b[i + 1], i + 2, inner.propsEnd, inner.children)] + rest.children, i, rest.next))
  {
  }

  /** Reading from i takes in exactly what the syntax (raw, kids) prints inside a node. */
  ghost predicate ReadsInner(b: seq<byte>, i: nat, raw: seq<byte>, kids: seq<Kid>) {
    match Body(b, i)
    case None => false
    case Some(p) =>
      && p.next == i + |Inner(raw, kids)|
      && p.propsEnd == i + |raw|
      && DescribesAll(b, p.children, kids)
  }

  lemma ReadsChildThenRest(b: seq<byte>, i: nat, kids: seq<Kid>)
    requires kids != [] && i + 1 < |b| && b[i] == START && b[i + 1] == kids[0].node.kind
    requires At(b, i + 2, kids[0].node.raw)
    requires ReadsInner(b, i + 2, kids[0].node.raw, kids[0].node.kids)
    requires ReadsInner(b, i + 2 + |Inner(kids[0].node.raw, kids[0].node.kids)|, kids[0].gap, kids[1..])
    ensures ReadsInner(b, i, [], kids)
  {
    var inner := Body(b, i + 2).value;
    ReadChild(b, i);
    InnerUnfolds([], kids);
    DescribesFirst(b, Node(b[i + 1], i + 2, inner.propsEnd, inner.children), Body(b, inner.next).value.children, kids);
  }

  /** Reading back what was printed inside a node gives a description of it. */
  lemma {:induction false} BodyOfInner(b: seq<byte>, i: nat, raw: seq<byte>, kids: seq<Kid>)
    requires At(b, i, Inner(raw, kids)) && Quiet(raw) && WellFormedKids(kids)
    ensures ReadsInner(b, i, raw, kids)
    decreases kids, 1
  {
    RawFirst(b, i, raw, kids);
    BodyOfKids(b, i + |raw|, kids);
    QuietThenKids(b, i, raw, kids);
  }

  lemma RawFirst(b: seq<byte>, i: nat, raw: seq<byte>, kids: seq<Kid>)
    requires At(b, i, Inner(raw, kids))
    ensures Inner(raw, kids) == raw + Inner([], kids) && At(b, i + |raw|, Inner([], kids))
  {
    hide At, Inner;
    RawAndRest(raw, kids);
    AtSplit(b, i, raw, Inner([], kids));
  }

  lemma RawAndRest(raw: seq<byte>, kids: seq<Kid>)
    ensures Inner(raw, kids) == raw + Inner([], kids)
  {
    hide PrintKids;
    assert [] + PrintKids(kids) == PrintKids(kids);
  }

  lemma QuietThenKids(b: seq<byte>, i: nat, raw: seq<byte>, kids: seq<Kid>)
    requires At(b, i, Inner(raw, kids)) && Quiet(raw) && ReadsInner(b, i + |raw|, [], kids)
    ensures ReadsInner(b, i, raw, kids)
  {
    hide At, Inner, DescribesAll;
    RawAtStart(b, i, raw, kids);
    SkipQuiet(b, i, raw, 0);
    RawFirst(b, i, raw, kids);
  }

  lemma {:induction false} BodyOfKids(b: seq<byte>, i: nat, kids: seq<Kid>)
    requires At(b, i, Inner([], kids)) && WellFormedKids(kids)
    ensures ReadsInner(b, i, [], kids)
    decreases kids, 0
  {
    hide At, Inner, WellFormedKids, QuietFrom, ReadsInner;
    if kids == [] {
      NoKidsRead(b, i);
    } else {
      var s := kids[0].node;
      FirstKid(kids);
      InnerSpans(b, i, [], kids);
      RawAtStart(b, i + 2, s.raw, s.kids);
      BodyOfInner(b, i + 2, s.raw, s.kids);
      BodyOfInner(b, i + 2 + |Inner(s.raw, s.kids)|, kids[0].gap, kids[1..]);
      ReadsChildThenRest(b, i, kids);
    }
  }

  lemma NoKidsRead(b: seq<byte>, i: nat)
    requires At(b, i, Inner([], []))
    ensures ReadsInner(b, i, [], [])
  {
    AtByte(b, i, END);
  }

  lemma FirstKid(kids: seq<Kid>)
    requires WellFormedKids(kids) && kids != []
    ensures Quiet(kids[0].node.raw) && WellFormedKids(kids[0].node.kids)
    ensures Quiet(kids[0].gap) && WellFormedKids(kids[1..])
  {
    hide QuietFrom;
    assert kids[0] in kids;
  }

  lemma DescribesFirst(b: seq<byte>, n: Node, ns: seq<Node>, kids: seq<Kid>)
    requires kids != [] && DescribesAll(b, ns, kids[1..])
    requires n.kind == kids[0].node.kind && n.propsBegin <= n.propsEnd <= |b|
    requires b[n.propsBegin..n.propsEnd] == kids[0].node.raw
    requires DescribesAll(b, n.children, kids[0].node.kids)
    ensures DescribesAll(b, [n] + ns, kids)
  {
    assert Describes(b, n, kids[0].node);
    forall k | 0 <= k < |kids|
      ensures Describes(b, ([n] + ns)[k], kids[k].node)
    {
      if k > 0 {
        assert kids[k] == kids[1..][k - 1];
      }
    }
  }

  /** Completeness: every well-formed way of writing a tree, followed by quiet bytes, is read as a
      description of that tree. */
  lemma ParsePrinted(identifier: seq<byte>, s: Syntax, trailer: seq<byte>)
    requires |identifier| == IDENTIFIER_SIZE && WellFormed(s) && Quiet(trailer)
    ensures var b := identifier + Print(s) + trailer;
            Parse(b).Some? && Describes(b, Parse(b).value, s)
  {
    var b := identifier + Print(s) + trailer;
    var inner := Inner(s.raw, s.kids);
    HeaderBytes(identifier, s.kind, inner, trailer);
    BodyOfInner(b, 6, s.raw, s.kids);
    RawAtStart(b, 6, s.raw, s.kids);
    QuietShift(b, 6 + |inner|, trailer, 0);
    assert Describes(b, Node(s.kind, 6, 6 + |s.raw|, Body(b, 6).value.children), s);
  }

  lemma HeaderBytes(identifier: seq<byte>, kind: byte, inner: seq<byte>, trailer: seq<byte>)
    requires |identifier| == IDENTIFIER_SIZE
    ensures var b := identifier + ([START, kind] + inner) + trailer;
            |b| == 6 + |inner| + |trailer| && b[4] == START && b[5] == kind && At(b, 6, inner) && b[6 + |inner|..] == trailer
  {
    var b := identifier + ([START, kind] + inner) + trailer;
    assert b[6..6 + |inner|] == inner;
  }

  // ---------- reading back to a printed form ----------

  /** Whatever is read inside a node is the printed form of some well-formed syntax. */
  lemma {:induction false} BodyIsPrinted(b: seq<byte>, i: nat) returns (raw: seq<byte>, kids: seq<Kid>)
    requires Body(b, i).Some?
    ensures Quiet(raw) && WellFormedKids(kids)
    ensures var p := Body(b, i).value;
            b[i..p.next] == Inner(raw, kids) && p.propsEnd == i + |raw| && DescribesAll(b, p.children, kids)
    decreases |b| - i
  {
    if b[i] == START {
      raw, kids := ChildIsPrinted(b, i);
    } else if b[i] == END {
      raw, kids := [], [];
      assert b[i..i + 1] == [END];
    } else {
      raw, kids := QuietIsPrinted(b, i, if b[i] == ESCAPE then 2 else 1);
    }
  }

  lemma {:induction false} ChildIsPrinted(b: seq<byte>, i: nat) returns (raw: seq<byte>, kids: seq<Kid>)
    requires Body(b, i).Some? && b[i] == START
    ensures raw == [] && WellFormedKids(kids)
    ensures var p := Body(b, i).value;
            b[i..p.next] == Inner(raw, kids) && p.propsEnd == i && DescribesAll(b, p.children, kids)
    decreases |b| - i, 0
  {
    var inner := Body(b, i + 2).value;
    var next := Body(b, inner.next).value.next;
    var raw0, kids0 := BodyIsPrinted(b, i + 2);
    var gap, rest := BodyIsPrinted(b, inner.next);
    raw, kids := [], [Kid(Syntax(b[i + 1], raw0, kids0), gap)] + rest;
    ReadChild(b, i);
    assert b[i + 2..inner.propsEnd] == b[i + 2..inner.next][..|raw0|] == raw0;
    assert kids[1..] == rest;
    DescribesFirst(b, Node(b[i + 1], i + 2, inner.propsEnd, inner.children), Body(b, inner.next).value.children, kids);
    InnerUnfolds(raw, kids);
    JoinSpans(b, i, inner.next, next);
  }

  lemma JoinSpans(b: seq<byte>, i: nat, mid: nat, next: nat)
    requires i + 2 <= mid <= next <= |b|
    ensures b[i..next] == [] + ([b[i], b[i + 1]] + (b[i + 2..mid] + b[mid..next]))
  {
    assert b[i..i + 2] == [b[i], b[i + 1]];
    assert b[i..next] == b[i..i + 2] + b[i + 2..next];
    assert b[i + 2..next] == b[i + 2..mid] + b[mid..next];
  }

  lemma {:induction false} QuietIsPrinted(b: seq<byte>, i: nat, step: nat) returns (raw: seq<byte>, kids: seq<Kid>)
    requires Body(b, i).Some? && b[i] != START && b[i] != END && step == (if b[i] == ESCAPE then 2 else 1)
    ensures Quiet(raw) && WellFormedKids(kids)
    ensures var p := Body(b, i).value;
            b[i..p.next] == Inner(raw, kids) && p.propsEnd == i + |raw| && DescribesAll(b, p.children, kids)
    decreases |b| - i, 0
  {
    var p := Body(b, i + step).value;
    var tail;
    tail, kids := BodyIsPrinted(b, i + step);
    raw := b[i..i + step] + tail;
    QuietPrefix(raw, step, tail);
    JoinQuiet(b, i, step, p.next, tail, kids);
  }

  lemma JoinQuiet(b: seq<byte>, i: nat, step: nat, next: nat, tail: seq<byte>, kids: seq<Kid>)
    requires i + step <= next <= |b| && b[i + step..next] == Inner(tail, kids)
    ensures b[i..next] == Inner(b[i..i + step] + tail, kids)
  {
    assert b[i..next] == b[i..i + step] + b[i + step..next];
    assert Inner(b[i..i + step] + tail, kids) == b[i..i + step] + Inner(tail, kids);
  }

  lemma QuietPrefix(raw: seq<byte>, step: nat, tail: seq<byte>)
    requires step <= |raw| && raw[step..] == tail && Quiet(tail)
    requires if step == 2 then raw[0] == ESCAPE else step == 1 && raw[0] !in {START, END, ESCAPE}
    ensures Quiet(raw)
  {
    QuietShift(raw, step, tail, 0);
  }

  /** Soundness: a file that is read is the printed form of a well-formed syntax tree followed by
      quiet bytes, and the result describes that tree. */
  lemma ParseIsPrinted(b: seq<byte>) returns (s: Syntax, trailer: seq<byte>)
    requires |b| > IDENTIFIER_SIZE + 1 && Parse(b).Some?
    ensures WellFormed(s) && Quiet(trailer)
    ensures b == b[..4] + Print(s) + trailer && Describes(b, Parse(b).value, s)
  {
    var p := Body(b, 6).value;
    var raw, kids := BodyIsPrinted(b, 6);
    s, trailer := Syntax(b[5], raw, kids), b[p.next..];
    QuietShift(b, p.next, trailer, 0);
    assert b == b[..4] + [START, b[5]] + b[6..p.next] + b[p.next..];
    assert b[6..p.propsEnd] == b[6..p.next][..|raw|];
  }

  // ---------- abstract trees and the canonical writer ----------

  /** What a node means to its users: kind, property bytes, children. */
  datatype Tree = Tree(kind: byte, props: seq<byte>, kids: seq<Tree>)

  /** Dropping the escape bytes; `escaped` says that the previous byte was one. */
  function Unescape(raw: seq<byte>, escaped: bool := false): seq<byte> {
    if raw == [] then []
    else if raw[0] == ESCAPE && !escaped then Unescape(raw[1..], true)
    else [raw[0]] + Unescape(raw[1..], false)
  }

  function Escape(props: seq<byte>): seq<byte> {
    if props == [] then []
    else (if props[0] >= ESCAPE then [ESCAPE, props[0]] else [props[0]]) + Escape(props[1..])
  }

  lemma {:induction false} EscapeRoundTrip(props: seq<byte>)
    ensures Quiet(Escape(props)) && Unescape(Escape(props)) == props
  {
    if props != [] {
      EscapeRoundTrip(props[1..]);
      var raw, tail := Escape(props), Escape(props[1..]);
      if props[0] >= ESCAPE {
        assert raw[1..][1..] == tail == raw[2..];
        assert raw[1..][0] == props[0];
        QuietShift(raw, 2, tail, 0);
      } else {
        assert raw[1..] == tail;
        QuietShift(raw, 1, tail, 0);
      }
    }
  }

  /** The writer that needs no freedom: every special byte escaped, nothing between children. */
  function Canonical(t: Tree): Syntax {
    Syntax(t.kind, Escape(t.props), seq(|t.kids|, k requires 0 <= k < |t.kids| => Kid(Canonical(t.kids[k]), [])))
  }

  function Encode(t: Tree): seq<byte> {
    Print(Canonical(t))
  }

  lemma {:induction false} CanonicalWellFormed(t: Tree)
    ensures WellFormed(Canonical(t))
  {
    EscapeRoundTrip(t.props);
    var s := Canonical(t);
    forall k | k in s.kids
      ensures WellFormed(k.node) && Quiet(k.gap)
    {
      var j :| 0 <= j < |s.kids| && k == s.kids[j];
      CanonicalWellFormed(t.kids[j]);
    }
  }

  /** The tree a parsed node stands for in its file. */
  function View(b: seq<byte>, n: Node): Tree
    requires Spans(b, n)
  {
    Tree(n.kind, Unescape(b[n.propsBegin..n.propsEnd]),
         seq(|n.children|, k requires 0 <= k < |n.children| => View(b, n.children[k])))
  }

  predicate Spans(b: seq<byte>, n: Node) {
    && n.propsBegin <= n.propsEnd <= |b|
    && forall k | 0 <= k < |n.children| :: Spans(b, n.children[k])
  }

  lemma {:induction false} DescribesCanonical(b: seq<byte>, n: Node, t: Tree)
    requires Describes(b, n, Canonical(t))
    ensures Spans(b, n) && View(b, n) == t
    decreases t
  {
    EscapeRoundTrip(t.props);
    forall k | 0 <= k < |n.children|
      ensures Spans(b, n.children[k]) && View(b, n.children[k]) == t.kids[k]
    {
      DescribesCanonical(b, n.children[k], t.kids[k]);
    }
  }

  /** Round trip: reading the canonical file of a tree gives the tree back. */
  lemma CanonicalRoundTrip(identifier: seq<byte>, t: Tree)
    requires |identifier| == IDENTIFIER_SIZE
    ensures var b := identifier + Encode(t);
            Parse(b).Some? && Spans(b, Parse(b).value) && View(b, Parse(b).value) == t
  {
    CanonicalWellFormed(t);
    ParsePrinted(identifier, Canonical(t), []);
    var b := identifier + Encode(t);
    assert b == identifier + Print(Canonical(t)) + [];
    DescribesCanonical(b, Parse(b).value, t);
  }
}
