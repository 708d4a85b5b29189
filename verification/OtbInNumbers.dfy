/** OTB files byte by byte: the marks are 254 and 255, and 253 escapes a byte that would read as one of the
    three. */
module OtbInNumbers {
  import opened Bytes
  import opened OtbFormat
  import opened OtbLoader

  function EscapedBytes(props: seq<byte>): seq<byte> {
    if props == [] then [] else (if props[0] >= 253 then [253, props[0]] else [props[0]]) + EscapedBytes(props[1..])
  }

  /** A tree as it is written to a file. */
  function Written(t: Tree): seq<byte>
    decreases t, 1
  {
    [254, t.kind] + EscapedBytes(t.props) + WrittenKids(t.kids) + [255]
  }

  function WrittenKids(ts: seq<Tree>): seq<byte>
    decreases ts, 0
  {
    if ts == [] then [] else Written(ts[0]) + WrittenKids(ts[1..])
  }

  lemma {:induction false} EscapedIsEscape(props: seq<byte>)
    ensures EscapedBytes(props) == Escape(props)
  {
    if props != [] {
      EscapedIsEscape(props[1..]);
    }
  }

  lemma {:induction false} WrittenIsEncode(t: Tree)
    ensures Written(t) == Encode(t)
    decreases t, 1
  {
    hide EscapedBytes, Escape;
    EscapedIsEscape(t.props);
    var s := Canonical(t);
    WrittenAreKids(t.kids, s.kids);
    PrintUnfolds(s);
    assert [254, t.kind] + (EscapedBytes(t.props) + WrittenKids(t.kids) + [255])
        == [254, t.kind] + EscapedBytes(t.props) + WrittenKids(t.kids) + [255];
  }

  lemma PrintUnfolds(s: Syntax)
    ensures Print(s) == [254, s.kind] + (s.raw + PrintKids(s.kids) + [255])
  {
  }

  lemma {:induction false} WrittenAreKids(ts: seq<Tree>, kids: seq<Kid>)
    requires |kids| == |ts| && forall k :: 0 <= k < |ts| ==> kids[k] == Kid(Canonical(ts[k]), [])
    ensures WrittenKids(ts) == PrintKids(kids)
    decreases ts, 0
  {
    hide Canonical, Print;
    if ts != [] {
      WrittenIsEncode(ts[0]);
      forall k | 0 <= k < |ts[1..]|
        ensures kids[1..][k] == Kid(Canonical(ts[1..][k]), [])
      {
        assert kids[1..][k] == kids[k + 1];
      }
      WrittenAreKids(ts[1..], kids[1..]);
      EncodeIsPrint(ts[0]);
      assert Written(ts[0]) + [] == Written(ts[0]);
    }
  }

  lemma EncodeIsPrint(t: Tree)
    ensures Encode(t) == Print(Canonical(t))
  {
  }

  /** A file as it is written is read as its tree; it gets past the constructor if it has more than seven
      bytes and begins with the wanted identifier or with four zeros. */
  lemma FileInNumbers(identifier: seq<byte>, wanted: seq<byte>, t: Tree)
    requires |identifier| == 4
    ensures var b := identifier + Written(t);
            && (Accepts(b, wanted) <==> |b| > 7 && (identifier == wanted || identifier == [0, 0, 0, 0]))
            && |b| > IDENTIFIER_SIZE + 1
            && Parse(b).Some? && Spans(b, Parse(b).value) && View(b, Parse(b).value) == t
  {
    hide Written, Parse, View, Spans;
    WrittenIsEncode(t);
    CanonicalRoundTrip(identifier, t);
    AtLeastMarks(t);
    assert (identifier + Written(t))[..4] == identifier;
  }

  lemma AtLeastMarks(t: Tree)
    ensures |Written(t)| >= 3
  {
    hide EscapedBytes, WrittenKids;
  }

  lemma {:induction false} Unescaped(props: seq<byte>)
    requires forall k :: 0 <= k < |props| ==> props[k] < 253
    ensures EscapedBytes(props) == props
  {
    if props != [] {
      Unescaped(props[1..]);
    }
  }

  /** A node without children, its properties free of marks. */
  lemma LeafInNumbers(identifier: seq<byte>, kind: byte, props: seq<byte>)
    requires |identifier| == 4 && forall k :: 0 <= k < |props| ==> props[k] < 253
    ensures var b := identifier + ([254, kind] + props + [255]);
            && |b| > IDENTIFIER_SIZE + 1
            && Parse(b).Some? && Spans(b, Parse(b).value) && View(b, Parse(b).value) == Tree(kind, props, [])
  {
    hide EscapedBytes, Parse, View, Spans;
    Unescaped(props);
    WrittenLeaf(kind, props);
    FileInNumbers(identifier, identifier, Tree(kind, props, []));
  }

  lemma WrittenLeaf(kind: byte, props: seq<byte>)
    ensures Written(Tree(kind, props, [])) == [254, kind] + EscapedBytes(props) + [255]
  {
    hide EscapedBytes;
    assert WrittenKids([]) == [];
    assert EscapedBytes(props) + [] == EscapedBytes(props);
  }

  /** A property byte that looks like a mark, with the escape byte before it. */
  lemma MarkInNumbers(identifier: seq<byte>, kind: byte, mark: byte)
    requires |identifier| == 4 && mark >= 253
    ensures var b := identifier + [254, kind, 253, mark, 255];
            && |b| > IDENTIFIER_SIZE + 1
            && Parse(b).Some? && Spans(b, Parse(b).value) && View(b, Parse(b).value) == Tree(kind, [mark], [])
  {
    hide Parse, View, Spans;
    WrittenLeaf(kind, [mark]);
    assert [mark][1..] == [];
    assert EscapedBytes([mark]) == [253, mark];
    assert [254, kind] + [253, mark] + [255] == [254, kind, 253, mark, 255];
    FileInNumbers(identifier, identifier, Tree(kind, [mark], []));
  }

  /** A node with a child after its properties. */
  lemma ChildInNumbers(identifier: seq<byte>, kind: byte, props: seq<byte>, childKind: byte, childProps: seq<byte>)
    requires |identifier| == 4 && forall k :: 0 <= k < |props| ==> props[k] < 253
    requires forall k :: 0 <= k < |childProps| ==> childProps[k] < 253
    ensures var b := identifier + ([254, kind] + props + ([254, childKind] + childProps + [255]) + [255]);
            && |b| > IDENTIFIER_SIZE + 1 && Parse(b).Some? && Spans(b, Parse(b).value)
            && View(b, Parse(b).value) == Tree(kind, props, [Tree(childKind, childProps, [])])
  {
    hide EscapedBytes, Parse, View, Spans;
    Unescaped(props);
    Unescaped(childProps);
    WrittenLeaf(childKind, childProps);
    var child := Tree(childKind, childProps, []);
    WrittenWithChild(kind, props, child);
    FileInNumbers(identifier, identifier, Tree(kind, props, [child]));
  }

  lemma WrittenWithChild(kind: byte, props: seq<byte>, child: Tree)
    ensures Written(Tree(kind, props, [child])) == [254, kind] + EscapedBytes(props) + Written(child) + [255]
  {
    hide EscapedBytes, Written;
    assert [child][1..] == [] && WrittenKids([]) == [];
    assert Written(child) + [] == Written(child);
    assert WrittenKids([child]) == Written(child);
    WrittenUnfolds(Tree(kind, props, [child]));
  }

  lemma WrittenUnfolds(t: Tree)
    ensures Written(t) == [254, t.kind] + EscapedBytes(t.props) + WrittenKids(t.kids) + [255]
  {
  }
}
