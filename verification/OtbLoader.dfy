/** The OTB loader: one pass over the bytes with an explicit stack of pointers into the tree that is
    being built. A pointer is the list of child indices that leads from the root to the node. */
module OtbLoader {
  import opened Bytes
  import opened OtbFormat

  // ---------- the tree under construction and pointers into it ----------

  type Pointer = seq<nat>

  predicate Live(n: Node, p: Pointer) {
    p == [] || (p[0] < |n.children| && Live(n.children[p[0]], p[1..]))
  }

  function Deref(n: Node, p: Pointer): Node
    requires Live(n, p)
  {
    if p == [] then n else Deref(n.children[p[0]], p[1..])
  }

  function Store(n: Node, p: Pointer, v: Node): Node
    requires Live(n, p)
  {
    if p == [] then v
    else n.(children := n.children[p[0] := Store(n.children[p[0]], p[1..], v)])
  }

  // ---------- the same tree as the stack of open nodes ----------

  /** The nodes that are still open, outermost first, each with its finished children only. */
  type Open = seq<Node>

  /** The tree that the open nodes make: each is the last child of the one before it. */
  function Plug(open: Open): Node
    requires open != []
  {
    if |open| == 1 then open[0]
    else open[0].(children := open[0].children + [Plug(open[1..])])
  }

  /** Where the innermost open node sits in Plug(open). */
  function Spine(open: Open): Pointer
    requires open != []
  {
    if |open| == 1 then [] else [|open[0].children|] + Spine(open[1..])
  }

  /** The address of every open node: what the parse stack must hold. */
  ghost predicate StackOf(stack: seq<Pointer>, open: Open) {
    |stack| == |open| && forall k | 0 <= k < |open| :: stack[k] == Spine(open[..k + 1])
  }

  lemma {:induction false} SpineLive(open: Open)
    requires open != []
    ensures Live(Plug(open), Spine(open)) && |Spine(open)| == |open| - 1
  {
    if |open| > 1 {
      SpineLive(open[1..]);
      assert Spine(open)[1..] == Spine(open[1..]);
    }
  }

  function Below(open: Open): Open
    requires open != []
  {
    open[..|open| - 1]
  }

  function Top(open: Open): Node
    requires open != []
  {
    open[|open| - 1]
  }

  /** Following the stack's top pointer reaches the innermost open node, and storing through it
      replaces exactly that node. */
  lemma {:induction false} TopAccess(open: Open, v: Node)
    requires open != []
    ensures Live(Plug(open), Spine(open)) && Deref(Plug(open), Spine(open)) == Top(open)
    ensures Store(Plug(open), Spine(open), v) == Plug(Below(open) + [v])
  {
    SpineLive(open);
    if |open| == 1 {
      assert Below(open) + [v] == [v];
    } else {
      TopAccess(open[1..], v);
      assert Spine(open)[1..] == Spine(open[1..]);
      assert Top(open[1..]) == Top(open);
      assert (Below(open) + [v])[1..] == Below(open[1..]) + [v];
      assert (Below(open) + [v])[0] == open[0];
    }
  }

  /** Giving the innermost open node a last child is the same as opening that child. */
  lemma {:induction false} PlugLastChild(below: Open, top: Node, child: Node)
    ensures Plug(below + [top.(children := top.children + [child])]) == Plug(below + [top] + [child])
    ensures Spine(below + [top] + [child]) == Spine(below + [top]) + [|top.children|]
  {
    var merged, split := below + [top.(children := top.children + [child])], below + [top] + [child];
    if below == [] {
      assert split[1..] == [child] && split[0] == top;
      assert Spine(split) == [|top.children|] + Spine([child]);
    } else {
      PlugLastChild(below[1..], top, child);
      assert merged[1..] == below[1..] + [top.(children := top.children + [child])];
      assert split[1..] == below[1..] + [top] + [child];
      assert (below + [top])[1..] == below[1..] + [top];
    }
  }

  /** The address of an open node does not depend on what the innermost one holds. */
  lemma {:induction false} SpineOfTop(below: Open, u: Node, v: Node)
    ensures Spine(below + [u]) == Spine(below + [v])
  {
    if below != [] {
      assert (below + [u])[1..] == below[1..] + [u] && (below + [v])[1..] == below[1..] + [v];
      SpineOfTop(below[1..], u, v);
    }
  }

  lemma StackKeepsTop(stack: seq<Pointer>, open: Open, v: Node)
    requires StackOf(stack, open) && open != []
    ensures StackOf(stack, Below(open) + [v])
  {
    var open' := Below(open) + [v];
    forall k | 0 <= k < |open|
      ensures stack[k] == Spine(open'[..k + 1])
    {
      if k == |open| - 1 {
        SpineOfTop(Below(open), Top(open), v);
        assert open[..k + 1] == Below(open) + [Top(open)] && open'[..k + 1] == open';
      } else {
        assert open'[..k + 1] == open[..k + 1];
      }
    }
  }

  lemma StackGrows(stack: seq<Pointer>, open: Open, child: Node)
    requires StackOf(stack, open) && open != []
    ensures StackOf(stack + [Spine(open) + [|Top(open).children|]], open + [child])
  {
    hide Spine, Plug;
    var open' := open + [child];
    assert open == Below(open) + [Top(open)];
    PlugLastChild(Below(open), Top(open), child);
    forall k | 0 <= k < |open'|
      ensures (stack + [Spine(open) + [|Top(open).children|]])[k] == Spine(open'[..k + 1])
    {
      if k < |open| {
        assert open'[..k + 1] == open[..k + 1];
      } else {
        assert open'[..k + 1] == open';
      }
    }
  }

  /** Each stack entry is the last child of the entry below it. */
  lemma StackIsLastChild(stack: seq<Pointer>, open: Open, k: nat)
    requires StackOf(stack, open) && 0 < k < |stack|
    ensures Live(Plug(open), stack[k - 1])
    ensures stack[k] == stack[k - 1] + [|Deref(Plug(open), stack[k - 1]).children| - 1]
  {
    assert open[..k + 1] == open[..k] + [open[k]] && open[..k] == Below(open[..k]) + [open[k - 1]];
    PlugLastChild(Below(open[..k]), open[k - 1], open[k]);
    DerefPrefix(open, k);
  }

  lemma {:induction false} DerefPrefix(open: Open, k: nat)
    requires 0 < k < |open|
    ensures Live(Plug(open), Spine(open[..k]))
    ensures |Deref(Plug(open), Spine(open[..k])).children| == |open[k - 1].children| + 1
  {
    if k > 1 {
      assert open[..k][1..] == open[1..][..k - 1];
      DerefPrefix(open[1..], k - 1);
      assert Spine(open[..k])[1..] == Spine(open[1..][..k - 1]);
    }
  }

  /** A pointer dangles when the child list that holds its target, or one above it, grows: growth at
      q moves everything strictly below q. No pointer dangles: children are only ever added at the top of
      the stack, and no entry of the stack lies strictly below that. */
  lemma NothingDangles(stack: seq<Pointer>, open: Open)
    requires StackOf(stack, open) && open != []
    ensures forall k | 0 <= k < |stack| :: var top := stack[|stack| - 1]; !(|top| < |stack[k]| && stack[k][..|top|] == top)
  {
    forall k | 0 <= k < |stack|
      ensures |stack[k]| <= |stack[|stack| - 1]|
    {
      SpineLive(open[..k + 1]);
      SpineLive(open[..|open|]);
    }
  }

  // ---------- what is still to come ----------

  function Closed(n: Node, p: Parsed): Node {
    n.(children := n.children + p.children, propsEnd := if n.children == [] then p.propsEnd else n.propsEnd)
  }

  /** The result of reading on from i with these nodes open. */
  function FinishOpen(b: seq<byte>, i: nat, open: Open): Option<Node>
    requires open != []
    decreases |open|
  {
    match Body(b, i)
    case None => None
    case Some(p) =>
      var n := Closed(Top(open), p);
      if |open| == 1 then FinishRoot(b, p.next, n) else FinishOpen(b, p.next, Attach(Below(open), n))
  }

  /** Once the root is closed only quiet bytes may follow. */
  function FinishRoot(b: seq<byte>, i: nat, root: Node): Option<Node> {
    if QuietFrom(b, i) then Some(root) else None
  }

  function Finish(b: seq<byte>, i: nat, open: Open, root: Node): Option<Node> {
    if open == [] then FinishRoot(b, i, root) else FinishOpen(b, i, open)
  }

  /** Closing a node makes it the last finished child of the node below. */
  function Attach(below: Open, n: Node): (r: Open)
    ensures |r| == |below|
  {
    if below == [] then [] else Below(below) + [Top(below).(children := Top(below).children + [n])]
  }

  /** What the START arm does to the open nodes. */
  function Opened(b: seq<byte>, i: nat, open: Open): Open
    requires open != [] && i + 1 < |b|
  {
    Below(open) + [WithEnd(Top(open), i)] + [Node(b[i + 1], i + 2, 0, [])]
  }

  function WithEnd(n: Node, i: nat): Node {
    if n.children == [] then n.(propsEnd := i) else n
  }

  lemma FinishStart(b: seq<byte>, i: nat, open: Open)
    requires open != [] && i + 1 < |b| && b[i] == START
    ensures FinishOpen(b, i, open) == FinishOpen(b, i + 2, Opened(b, i, open))
  {
    var open' := Opened(b, i, open);
    var parent := WithEnd(Top(open), i);
    if Body(b, i + 2).Some? {
      var inner := Body(b, i + 2).value;
      var node := Node(b[i + 1], i + 2, inner.propsEnd, inner.children);
      assert Closed(Top(open'), inner) == node;
      assert Below(open') == Below(open) + [parent];
      var after := Attach(Below(open'), node);
      assert after == Below(open) + [parent.(children := parent.children + [node])];
      if Body(b, inner.next).Some? {
        FinishAfterChild(b, i, open, node);
      }
    }
  }

  lemma FinishAfterChild(b: seq<byte>, i: nat, open: Open, node: Node)
    requires open != [] && i + 1 < |b| && b[i] == START
    requires Body(b, i + 2).Some? && Body(b, Body(b, i + 2).value.next).Some?
    requires node == Node(b[i + 1], i + 2, Body(b, i + 2).value.propsEnd, Body(b, i + 2).value.children)
    ensures var parent := WithEnd(Top(open), i);
            FinishOpen(b, i, open)
            == FinishOpen(b, Body(b, i + 2).value.next, Below(open) + [parent.(children := parent.children + [node])])
  {
    var parent, next := WithEnd(Top(open), i), Body(b, i + 2).value.next;
    var after := Below(open) + [parent.(children := parent.children + [node])];
    var rest := Body(b, next).value;
    ReadChild(b, i);
    assert Top(after).children == Top(open).children + [node];
    assert Top(after).children + rest.children == Top(open).children + ([node] + rest.children);
    assert Closed(Top(after), rest) == Closed(Top(open), Body(b, i).value);
    assert Below(after) == Below(open);
  }

  lemma FinishEnd(b: seq<byte>, i: nat, open: Open)
    requires open != [] && i < |b| && b[i] == END
    ensures var n := WithEnd(Top(open), i);
            FinishOpen(b, i, open)
            == if |open| == 1 then FinishRoot(b, i + 1, n) else FinishOpen(b, i + 1, Attach(Below(open), n))
  {
    assert Closed(Top(open), Parsed([], i, i + 1)) == WithEnd(Top(open), i);
  }

  /** Popping the stack leaves the tree as it is. */
  lemma PopKeepsTree(open: Open)
    requires |open| > 1
    ensures Plug(Attach(Below(open), Top(open))) == Plug(open)
  {
    var below, n := Below(open), Top(open);
    PlugLastChild(Below(below), Top(below), n);
    Reassemble(open);
    Reassemble(below);
  }

  lemma Reassemble(open: Open)
    requires open != []
    ensures Below(open) + [Top(open)] == open
  {
  }

  lemma PopKeepsStack(stack: seq<Pointer>, open: Open)
    requires StackOf(stack, open) && open != []
    ensures StackOf(stack[..|stack| - 1], Attach(Below(open), Top(open)))
  {
    var below := Below(open);
    assert StackOf(stack[..|stack| - 1], below) by {
      forall k | 0 <= k < |below|
        ensures stack[k] == Spine(below[..k + 1])
      {
        assert below[..k + 1] == open[..k + 1];
      }
    }
    if below != [] {
      StackKeepsTop(stack[..|stack| - 1], below, Top(below).(children := Top(below).children + [Top(open)]));
    }
  }

  lemma FinishAtRoot(b: seq<byte>, root: Node)
    requires |b| > MINIMAL_SIZE && b[IDENTIFIER_SIZE] == START && root == Node(b[5], 6, 0, [])
    ensures FinishOpen(b, 6, [root]) == Parse(b) && StackOf([[]], [root]) && Plug([root]) == root
  {
    assert [root][..1] == [root];
    if Body(b, 6).Some? {
      var p := Body(b, 6).value;
      assert Closed(root, p) == Node(b[5], 6, p.propsEnd, [] + p.children);
      assert [] + p.children == p.children;
    }
  }

  /** The open nodes once the innermost one knows where its properties stop. */
  function Marked(open: Open, i: nat): (r: Open)
    requires open != []
    ensures r != []
  {
    Below(open) + [WithEnd(Top(open), i)]
  }

  /** ... and once it has been closed. */
  function Popped(open: Open, i: nat): Open
    requires open != []
  {
    Attach(Below(open), WithEnd(Top(open), i))
  }

  lemma StartArm(b: seq<byte>, i: nat, stack: seq<Pointer>, open: Open)
    requires StackOf(stack, open) && open != [] && i + 1 < |b| && b[i] == START
    ensures var top := stack[|stack| - 1];
            && top == Spine(open) == Spine(Marked(open, i))
            && Opened(b, i, open) == Marked(open, i) + [Node(b[i + 1], i + 2, 0, [])]
            && StackOf(stack + [top + [|Top(Marked(open, i)).children|]], Opened(b, i, open))
            && FinishOpen(b, i, open) == FinishOpen(b, i + 2, Opened(b, i, open))
  {
    Reassemble(open);
    assert open[..|open|] == open;
    SpineOfTop(Below(open), Top(open), WithEnd(Top(open), i));
    StackKeepsTop(stack, open, WithEnd(Top(open), i));
    StackGrows(stack, Marked(open, i), Node(b[i + 1], i + 2, 0, []));
    FinishStart(b, i, open);
  }

  lemma EndArm(b: seq<byte>, i: nat, stack: seq<Pointer>, open: Open)
    requires StackOf(stack, open) && open != [] && i < |b| && b[i] == END
    ensures stack[|stack| - 1] == Spine(open)
    ensures StackOf(stack[..|stack| - 1], Popped(open, i))
    ensures |open| > 1 ==> Popped(open, i) != [] && Plug(Popped(open, i)) == Plug(Marked(open, i))
    ensures |open| == 1 ==> Popped(open, i) == [] && Plug(Marked(open, i)) == WithEnd(Top(open), i)
    ensures FinishOpen(b, i, open) == Finish(b, i + 1, Popped(open, i), WithEnd(Top(open), i))
  {
    assert open[..|open|] == open;
    StackKeepsTop(stack, open, WithEnd(Top(open), i));
    assert Below(Marked(open, i)) == Below(open);
    PopKeepsStack(stack, Marked(open, i));
    FinishEnd(b, i, open);
    if |open| > 1 {
      PopKeepsTree(Marked(open, i));
    }
  }

  // ---------- the loader itself ----------

  const WILDCARD: seq<byte> := [0, 0, 0, 0]
  const MINIMAL_SIZE: nat := 7

  /** What the constructor lets through: long enough, and carrying the wanted identifier or the
      wildcard. */
  predicate Accepts(contents: seq<byte>, identifier: seq<byte>) {
    |contents| > MINIMAL_SIZE && (contents[..IDENTIFIER_SIZE] == identifier || contents[..IDENTIFIER_SIZE] == WILDCARD)
  }

  class Loader {
    const fileContents: seq<byte>
    var root: Node
    var propBuffer: seq<byte>

    constructor (contents: seq<byte>)
      ensures fileContents == contents
    {
      fileContents, propBuffer := contents, [];
      root := Node(0, 0, 0, []);
    }

    /** The constructor of the original, with its exception as a null result. */
    static method Open(contents: seq<byte>, identifier: seq<byte>) returns (loader: Loader?)
      ensures loader != null <==> Accepts(contents, identifier)
      ensures loader != null ==> fresh(loader) && loader.fileContents == contents
    {
      loader := null;
      if |contents| <= MINIMAL_SIZE {
        return;
      }
      if contents[..IDENTIFIER_SIZE] != identifier && contents[..IDENTIFIER_SIZE] != WILDCARD {
        return;
      }
      loader := new Loader(contents);
    }

    /** currentNode.propsEnd = it, done only while the node has no children. */
    method MarkPropsEnd(p: Pointer, it: nat, ghost open: Open)
      requires open != [] && root == Plug(open) && p == Spine(open)
      modifies `root
      ensures root == Plug(Below(open) + [WithEnd(Top(open), it)])
    {
      TopAccess(open, WithEnd(Top(open), it));
      assert Below(open) + [Top(open)] == open;
      var current := Deref(root, p);
      if current.children == [] {
        root := Store(root, p, current.(propsEnd := it));
      }
    }

    /** currentNode.children.emplace_back() and the two header fields of the new child; the result
        points to it. */
    method EmplaceChild(p: Pointer, kind: byte, propsBegin: nat, ghost open: Open) returns (child: Pointer)
      requires open != [] && root == Plug(open) && p == Spine(open)
      modifies `root
      ensures root == Plug(open + [Node(kind, propsBegin, 0, [])])
      ensures child == Spine(open) + [|Top(open).children|]
    {
      var blank := Node(0, 0, 0, []);
      TopAccess(open, Top(open).(children := Top(open).children + [blank]));
      PlugLastChild(Below(open), Top(open), blank);
      assert Below(open) + [Top(open)] == open;
      var current := Deref(root, p);
      root := Store(root, p, current.(children := current.children + [blank]));
      child := p + [|current.children|];
      TopAccess(open + [blank], Node(kind, propsBegin, 0, []));
      assert Below(open + [blank]) == open;
      root := Store(root, child, Node(kind, propsBegin, 0, []));
    }

    /** Midway: the stack points at the open nodes, the tree is what they make, and reading on from
        here gives what the whole file gives. */
    ghost predicate Parsing(it: nat, stack: seq<Pointer>, open: Open)
      reads `root
    {
      && |fileContents| > MINIMAL_SIZE && it <= |fileContents|
      && StackOf(stack, open)
      && (open != [] ==> root == Plug(open))
      && Finish(fileContents, it, open, root) == Parse(fileContents)
    }

    method OnStart(it: nat, stack: seq<Pointer>, ghost open: Open) returns (stack': seq<Pointer>, ghost open': Open)
      requires Parsing(it, stack, open) && stack != []
      requires it + 1 < |fileContents| && fileContents[it] == START
      modifies `root
      ensures Parsing(it + 2, stack', open')
    {
      var top := stack[|stack| - 1];
      StartArm(fileContents, it, stack, open);
      MarkPropsEnd(top, it, open);
      var child := EmplaceChild(top, fileContents[it + 1], it + 2, Marked(open, it));
      stack', open' := stack + [child], Opened(fileContents, it, open);
    }

    method OnEnd(it: nat, stack: seq<Pointer>, ghost open: Open) returns (stack': seq<Pointer>, ghost open': Open)
      requires Parsing(it, stack, open) && stack != []
      requires it < |fileContents| && fileContents[it] == END
      modifies `root
      ensures Parsing(it + 1, stack', open')
    {
      EndArm(fileContents, it, stack, open);
      MarkPropsEnd(stack[|stack| - 1], it, open);
      stack', open' := stack[..|stack| - 1], Popped(open, it);
    }

    /** The parser computes the reference reading of the file, on every file; None is the exception. */
    method ParseTree() returns (r: Option<Node>)
      requires |fileContents| > MINIMAL_SIZE
      modifies `root
      ensures r == Parse(fileContents)
      ensures r.Some? ==> root == r.value
    {
      var it := IDENTIFIER_SIZE;
      if fileContents[it] != START {
        return None;
      }
      it := it + 2;
      root := Node(fileContents[it - 1], it, 0, []);
      var stack: seq<Pointer> := [[]];
      ghost var open := [root];
      FinishAtRoot(fileContents, root);
      while it < |fileContents|
        invariant Parsing(it, stack, open)
        decreases |fileContents| - it
      {
        var c := fileContents[it];
        if c == START {
          if stack == [] || it + 1 == |fileContents| {
            return None;
          }
          stack, open := OnStart(it, stack, open);
          it := it + 2;
        } else if c == END {
          if stack == [] {
            return None;
          }
          stack, open := OnEnd(it, stack, open);
          it := it + 1;
        } else if c == ESCAPE {
          if it + 1 == |fileContents| {
            return None;
          }
          it := it + 2;
        } else {
          it := it + 1;
        }
      }
      if stack != [] {
        return None;
      }
      return Some(root);
    }

    /** Hands out a node's properties with the escape bytes removed; false means it has none. */
    method GetProps(n: Node, props: PropStream) returns (ok: bool)
      requires Spans(fileContents, n)
      modifies `propBuffer, props
      ensures ok <==> n.propsBegin < n.propsEnd
      ensures ok ==> props.Valid() && props.Rest() == Unescape(fileContents[n.propsBegin..n.propsEnd])
      ensures !ok ==> props.data == old(props.data) && props.p == old(props.p)
    {
      if n.propsBegin == n.propsEnd {
        return false;
      }
      hide Unescape;
      propBuffer := [];
      ghost var raw := fileContents[n.propsBegin..n.propsEnd];
      var lastEscaped, i := false, n.propsBegin;
      while i < n.propsEnd
        invariant n.propsBegin <= i <= n.propsEnd
        invariant propBuffer + Unescape(fileContents[i..n.propsEnd], lastEscaped) == Unescape(raw)
        invariant props.data == old(props.data) && props.p == old(props.p)
      {
        UnescapeNext(fileContents, i, n.propsEnd, lastEscaped);
        lastEscaped := fileContents[i] == ESCAPE && !lastEscaped;
        if !lastEscaped {
          propBuffer := propBuffer + [fileContents[i]];
        }
        i := i + 1;
      }
      UnescapeNothing(lastEscaped);
      props.Init(propBuffer);
      return true;
    }
  }

  lemma UnescapeNext(b: seq<byte>, i: nat, end: nat, lastEscaped: bool)
    requires i < end <= |b|
    ensures var escaped := b[i] == ESCAPE && !lastEscaped;
            Unescape(b[i..end], lastEscaped) == (if escaped then [] else [b[i]]) + Unescape(b[i + 1..end], escaped)
  {
    assert b[i..end][1..] == b[i + 1..end];
  }

  lemma UnescapeNothing(lastEscaped: bool)
    ensures Unescape([], lastEscaped) == []
  {
  }

  // ---------- the format promise, end to end ----------

  /** A file is read exactly when it is the printed form of some well-formed tree followed by quiet
      bytes. */
  lemma ReadableIffPrinted(b: seq<byte>)
    requires |b| > MINIMAL_SIZE
    ensures Parse(b).Some? <==>
            exists s: Syntax, trailer: seq<byte> :: WellFormed(s) && Quiet(trailer) && b == b[..4] + Print(s) + trailer
  {
    if Parse(b).Some? {
      var s, trailer := ParseIsPrinted(b);
    }
    if s: Syntax, trailer: seq<byte> :| WellFormed(s) && Quiet(trailer) && b == b[..4] + Print(s) + trailer {
      ParsePrinted(b[..4], s, trailer);
    }
  }

  /** The canonical file of a tree gets past the constructor exactly when the tree is not a lone node
      without properties, and is then read back as that tree. */
  lemma LoadCanonical(identifier: seq<byte>, t: Tree)
    requires |identifier| == IDENTIFIER_SIZE
    ensures var b := identifier + Encode(t);
            && (Accepts(b, identifier) <==> !(t.props == [] && t.kids == []))
            && Parse(b).Some? && Spans(b, Parse(b).value) && View(b, Parse(b).value) == t
  {
    var b := identifier + Encode(t);
    CanonicalRoundTrip(identifier, t);
    assert b[..IDENTIFIER_SIZE] == identifier;
    var s := Canonical(t);
    assert Print(s) == [START, s.kind] + Inner(s.raw, s.kids);
    assert |Inner(s.raw, s.kids)| == |s.raw| + |PrintKids(s.kids)| + 1;
    EscapeRoundTrip(t.props);
    if t.kids != [] {
      assert |PrintKids(s.kids)| >= |Print(s.kids[0].node)| >= 2;
    }
  }
}
