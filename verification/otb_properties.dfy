/** Properties of parsed files: where the node ranges lie, what `getProps` reads from them,
    and the round trip from trees through the encoder, the parser and the unescaper. */
module OtbProperties {
  import opened OtbFormat
  import opened OtbLoader
  import opened PropStreams

  // ---------------------------------------------------------------- ranges

  /** All nodes in document order. */
  function Preorder(n: Node): (ns: seq<Node>)
    decreases n, 1
  {
    [n] + PreorderAll(n.children)
  }

  function PreorderAll(ns: seq<Node>): seq<Node>
    decreases ns, 0
  {
    if ns == [] then [] else Preorder(ns[0]) + PreorderAll(ns[1..])
  }

  /** A node's properties sit between its own START and type bytes and the next unescaped
      delimiter, and hold no unescaped delimiter and no dangling escape themselves. */
  ghost predicate SoundRange(file: seq<Byte>, n: Node) {
    && 2 <= n.propsBegin <= n.propsEnd < |file|
    && file[n.propsBegin - 2] == START && file[n.propsBegin - 1] == n.typ
    && Neutral(file[n.propsBegin..n.propsEnd])
    && (file[n.propsEnd] == START || file[n.propsEnd] == END)
  }

  /** Ranges inside `lo..hi`, disjoint and ascending, with room for the next START and type. */
  ghost predicate InOrder(ns: seq<Node>, lo: int, hi: int) {
    && (forall i :: 0 <= i < |ns| ==> lo + 2 <= ns[i].propsBegin <= ns[i].propsEnd <= hi)
    && (forall i, j :: 0 <= i < j < |ns| ==> ns[i].propsEnd + 2 <= ns[j].propsBegin)
  }

  ghost predicate AllSound(file: seq<Byte>, ns: seq<Node>) {
    forall i :: 0 <= i < |ns| ==> SoundRange(file, ns[i])
  }

  lemma InOrderConcat(a: seq<Node>, b: seq<Node>, lo: int, mid: int, mid': int, hi: int)
    requires InOrder(a, lo, mid) && InOrder(b, mid', hi) && lo <= mid <= mid' <= hi
    ensures InOrder(a + b, lo, hi)
  {
    forall i, j | 0 <= i < j < |a + b|
      ensures (a + b)[i].propsEnd + 2 <= (a + b)[j].propsBegin
    {
      if i < |a| <= j {
        assert a[i].propsEnd <= mid && mid' + 2 <= b[j - |a|].propsBegin;
      }
    }
  }

  lemma AllSoundConcat(file: seq<Byte>, a: seq<Node>, b: seq<Node>)
    requires AllSound(file, a) && AllSound(file, b)
    ensures AllSound(file, a + b)
  {
    forall i | 0 <= i < |a + b|
      ensures SoundRange(file, (a + b)[i])
    {
      assert (a + b)[i] == if i < |a| then a[i] else b[i - |a|];
    }
  }

  lemma SubRange(file: seq<Byte>, whole: seq<Byte>, pos: nat, a: seq<Byte>, part: seq<Byte>, b: seq<Byte>)
    requires pos + |whole| <= |file| && file[pos..pos + |whole|] == whole == a + part + b
    ensures file[pos + |a|..pos + |a| + |part|] == part
  {
    forall i | 0 <= i < |part|
      ensures file[pos + |a| + i] == part[i]
    {
      assert whole[|a| + i] == file[pos..pos + |whole|][|a| + i];
    }
  }

  lemma {:induction false} LayoutSound(file: seq<Byte>, d: Doc, pos: nat)
    requires WellFormed(d)
    requires pos + |Render(d)| <= |file| && file[pos..pos + |Render(d)|] == Render(d)
    ensures AllSound(file, Preorder(Layout(d, pos)))
    ensures InOrder(Preorder(Layout(d, pos)), pos, pos + |Render(d)| - 1)
    decreases d, 1
  {
    var n, kidsAt := Layout(d, pos), pos + 2 + |d.raw|;
    KidsRange(file, d, pos);
    LayoutAllSound(file, d.kids, kidsAt);
    HeadSound(file, d, pos);
    var kids := PreorderAll(n.children);
    AllSoundConcat(file, [n], kids);
    InOrderConcat([n], kids, pos, kidsAt, kidsAt, kidsAt + |RenderAll(d.kids)|);
    assert Preorder(n) == [n] + kids;
  }

  lemma KidsRange(file: seq<Byte>, d: Doc, pos: nat)
    requires pos + |Render(d)| <= |file| && file[pos..pos + |Render(d)|] == Render(d)
    ensures var kidsAt, kids := pos + 2 + |d.raw|, RenderAll(d.kids);
            kidsAt + |kids| == pos + |Render(d)| - 1 && file[kidsAt..kidsAt + |kids|] == kids
  {
    SubRange(file, Render(d), pos, [START, d.typ] + d.raw, RenderAll(d.kids), [END]);
  }

  lemma HeadSound(file: seq<Byte>, d: Doc, pos: nat)
    requires WellFormed(d)
    requires pos + |Render(d)| <= |file| && file[pos..pos + |Render(d)|] == Render(d)
    ensures SoundRange(file, Layout(d, pos))
  {
    var r, head := Render(d), [START, d.typ];
    assert forall i :: 0 <= i < |r| ==> r[i] == file[pos + i];
    assert r == head + d.raw + (RenderAll(d.kids) + [END]);
    SubRange(file, r, pos, head, d.raw, RenderAll(d.kids) + [END]);
    assert r[0] == START && r[1] == d.typ;
    assert r[2 + |d.raw|] == (RenderAll(d.kids) + [END])[0];
  }

  lemma {:induction false} LayoutAllSound(file: seq<Byte>, kids: seq<Kid>, pos: nat)
    requires AllWellFormed(kids)
    requires pos + |RenderAll(kids)| <= |file| && file[pos..pos + |RenderAll(kids)|] == RenderAll(kids)
    ensures AllSound(file, PreorderAll(LayoutAll(kids, pos)))
    ensures InOrder(PreorderAll(LayoutAll(kids, pos)), pos, pos + |RenderAll(kids)|)
    decreases kids, 0
  {
    if kids != [] {
      var k, whole := kids[0], RenderAll(kids);
      var first, rest := Render(k.doc), RenderAll(kids[1..]);
      var next := pos + |first| + |k.gap|;
      KidParts(file, kids, pos);
      LayoutSound(file, k.doc, pos);
      LayoutAllSound(file, kids[1..], next);
      var ns := LayoutAll(kids, pos);
      assert ns[0] == Layout(k.doc, pos) && ns[1..] == LayoutAll(kids[1..], next);
      AllSoundConcat(file, Preorder(ns[0]), PreorderAll(ns[1..]));
      InOrderConcat(Preorder(ns[0]), PreorderAll(ns[1..]), pos, next - |k.gap| - 1, next, pos + |whole|);
    }
  }

  lemma KidParts(file: seq<Byte>, kids: seq<Kid>, pos: nat)
    requires kids != []
    requires pos + |RenderAll(kids)| <= |file| && file[pos..pos + |RenderAll(kids)|] == RenderAll(kids)
    ensures var first, rest := Render(kids[0].doc), RenderAll(kids[1..]);
            var next := pos + |first| + |kids[0].gap|;
            && next + |rest| == pos + |RenderAll(kids)|
            && file[pos..pos + |first|] == first && file[next..next + |rest|] == rest
  {
    var first, gap, rest := Render(kids[0].doc), kids[0].gap, RenderAll(kids[1..]);
    assert RenderAll(kids) == first + gap + rest;
    ThreeParts(file, pos, first, gap, rest);
  }

  lemma ThreeParts(file: seq<Byte>, pos: nat, a: seq<Byte>, b: seq<Byte>, c: seq<Byte>)
    requires pos + |a + b + c| <= |file| && file[pos..pos + |a + b + c|] == a + b + c
    ensures file[pos..pos + |a|] == a
    ensures file[pos + |a| + |b|..pos + |a| + |b| + |c|] == c
  {
    var whole := a + b + c;
    forall i | 0 <= i < |whole|
      ensures file[pos + i] == whole[i]
    {
      assert file[pos..pos + |whole|][i] == whole[i];
    }
    assert forall i :: 0 <= i < |a| ==> whole[i] == a[i];
    forall i | 0 <= i < |c|
      ensures file[pos + |a| + |b| + i] == c[i]
    {
      assert whole[|a| + |b| + i] == c[i];
    }
  }

  /** Whatever file the parser accepts, the ranges it hands out are sound, disjoint and in order. */
  lemma ParsedRanges(file: seq<Byte>)
    requires |file| >= 8 && ParseTreeSpec(file).Ok?
    ensures AllSound(file, Preorder(ParseTreeSpec(file).root))
    ensures InOrder(Preorder(ParseTreeSpec(file).root), 4, |file|)
  {
    var d, trail := AcceptedIsDocument(file);
    DocumentsParse(file, d, trail);
    var r := Render(d);
    assert file[4..][..|r|] == r;
    assert file[4..4 + |r|] == r;
    LayoutSound(file, d, 4);
  }

  // ---------------------------------------------------------------- unescaping

  /** The copy filter of `getProps`: it drops a byte exactly when it is an ESCAPE that was not
      itself escaped by the byte before. */
  function Unescape(raw: seq<Byte>, lastEscaped: bool): seq<Byte>
    decreases |raw|
  {
    if raw == [] then []
    else if raw[0] == ESCAPE && !lastEscaped then Unescape(raw[1..], true)
    else [raw[0]] + Unescape(raw[1..], false)
  }

  /** On the ranges the parser produces, the filter agrees byte for byte with the parser's own
      stepping over escapes. */
  lemma {:induction false} UnescapeIsPayload(raw: seq<Byte>)
    requires Neutral(raw)
    ensures Unescape(raw, false) == Payload(raw)
    decreases |raw|
  {
    if raw == [] {
    } else if raw[0] == ESCAPE {
      UnescapeIsPayload(raw[2..]);
      assert raw[1..][1..] == raw[2..];
    } else {
      UnescapeIsPayload(raw[1..]);
    }
  }

  lemma {:induction false} UnescapeConcat(a: seq<Byte>, b: Byte, lastEscaped: bool)
    ensures Unescape(a + [b], lastEscaped)
         == Unescape(a, lastEscaped) + (if b == ESCAPE && !EndsEscaped(a, lastEscaped) then [] else [b])
    decreases |a|
  {
    if a == [] {
      assert a + [b] == [b];
    } else {
      assert (a + [b])[1..] == a[1..] + [b];
      UnescapeConcat(a[1..], b, a[0] == ESCAPE && !lastEscaped);
    }
  }

  /** The filter's flag after `raw`. */
  function EndsEscaped(raw: seq<Byte>, lastEscaped: bool): bool
    decreases |raw|
  {
    if raw == [] then lastEscaped else EndsEscaped(raw[1..], raw[0] == ESCAPE && !lastEscaped)
  }

  lemma {:induction false} EndsEscapedConcat(a: seq<Byte>, b: Byte, lastEscaped: bool)
    ensures EndsEscaped(a + [b], lastEscaped) == (b == ESCAPE && !EndsEscaped(a, lastEscaped))
    decreases |a|
  {
    if a == [] {
      assert a + [b] == [b];
      assert EndsEscaped([b], lastEscaped) == EndsEscaped([b][1..], b == ESCAPE && !lastEscaped);
    } else {
      assert (a + [b])[1..] == a[1..] + [b];
      EndsEscapedConcat(a[1..], b, a[0] == ESCAPE && !lastEscaped);
    }
  }

  // ---------------------------------------------------------------- round trip

  /** Node `n` of `file` shows tree `t`: same types, same shape, same unescaped properties. */
  ghost predicate Shows(file: seq<Byte>, n: Node, t: Tree)
    decreases t, 1
  {
    && n.typ == t.typ
    && n.propsBegin <= n.propsEnd <= |file|
    && Unescape(file[n.propsBegin..n.propsEnd], false) == t.props
    && ShowAll(file, n.children, t.children)
  }

  ghost predicate ShowAll(file: seq<Byte>, ns: seq<Node>, ts: seq<Tree>)
    decreases ts, 0
  {
    |ns| == |ts| && (ts != [] ==> Shows(file, ns[0], ts[0]) && ShowAll(file, ns[1..], ts[1..]))
  }

  lemma {:induction false} LayoutShows(file: seq<Byte>, t: Tree, pos: nat)
    requires pos + |Encode(t)| <= |file| && file[pos..pos + |Encode(t)|] == Encode(t)
    ensures Shows(file, Layout(TreeDoc(t), pos), t)
    decreases t, 1
  {
    var raw := Escape(t.props);
    EncodedParts(file, t, pos);
    TreeKidsRender(t.children);
    LayoutAllShows(file, t.children, pos + 2 + |raw|);
  }

  lemma UnescapesEscape(payload: seq<Byte>)
    ensures Unescape(Escape(payload), false) == payload
  {
    EscapeRoundTrip(payload);
    UnescapeIsPayload(Escape(payload));
  }

  lemma HeadParts(file: seq<Byte>, whole: seq<Byte>, pos: nat, head: seq<Byte>, raw: seq<Byte>, kids: seq<Byte>,
                  end: seq<Byte>)
    requires pos + |whole| <= |file| && file[pos..pos + |whole|] == whole == head + raw + kids + end
    ensures var begin := pos + |head|;
            && file[begin..begin + |raw|] == raw
            && file[begin + |raw|..begin + |raw| + |kids|] == kids
  {
    assert whole == head + raw + (kids + end);
    SubRange(file, whole, pos, head, raw, kids + end);
    SubRange(file, whole, pos, head + raw, kids, end);
  }

  lemma EncodedParts(file: seq<Byte>, t: Tree, pos: nat)
    requires pos + |Encode(t)| <= |file| && file[pos..pos + |Encode(t)|] == Encode(t)
    ensures |Encode(t)| == 2 + |Escape(t.props)| + |EncodeAll(t.children)| + 1
    ensures var begin, end := pos + 2, pos + 2 + |Escape(t.props)|;
            Unescape(file[begin..end], false) == t.props
            && file[end..end + |EncodeAll(t.children)|] == EncodeAll(t.children)
  {
    var raw, kids := Escape(t.props), EncodeAll(t.children);
    UnescapesEscape(t.props);
    HeadParts(file, Encode(t), pos, [START, t.typ], raw, kids, [END]);
  }

  lemma {:induction false} LayoutAllShows(file: seq<Byte>, ts: seq<Tree>, pos: nat)
    requires pos + |EncodeAll(ts)| <= |file| && file[pos..pos + |EncodeAll(ts)|] == EncodeAll(ts)
    ensures ShowAll(file, LayoutAll(TreeKids(ts), pos), ts)
    decreases ts, 0
  {
    if ts != [] {
      var first, rest := Encode(ts[0]), EncodeAll(ts[1..]);
      assert EncodeAll(ts) == [] + first + rest == first + rest + [];
      SubRange(file, EncodeAll(ts), pos, [], first, rest);
      SubRange(file, EncodeAll(ts), pos, first, rest, []);
      TreeDocRenders(ts[0]);
      LayoutShows(file, ts[0], pos);
      LayoutAllShows(file, ts[1..], pos + |first|);
      var ns := LayoutAll(TreeKids(ts), pos);
      assert TreeKids(ts)[1..] == TreeKids(ts[1..]);
      assert ns[1..] == LayoutAll(TreeKids(ts[1..]), pos + |first|);
    }
  }

  /** The file written for a tree. */
  function EncodeFile(identifier: seq<Byte>, t: Tree): seq<Byte> {
    identifier + Encode(t)
  }

  /** Encode, open, parse and unescape: every tree comes back, except the bare root without
      properties and children, whose seven-byte file the loader refuses. */
  lemma TreeRoundTrip(identifier: seq<Byte>, t: Tree)
    requires |identifier| == IDENTIFIER_SIZE
    ensures var file := EncodeFile(identifier, t);
            (Opens(file, identifier) <==> !(t.props == [] && t.children == []))
            && (Opens(file, identifier) ==>
                  ParseTreeSpec(file).Ok? && Shows(file, ParseTreeSpec(file).root, t))
  {
    var file := EncodeFile(identifier, t);
    assert file[..4] == identifier && file[4..] == Encode(t) == file[4..4 + |Encode(t)|];
    if t.children != [] {
      assert |EncodeAll(t.children)| >= |Encode(t.children[0])| >= 3;
    }
    if Opens(file, identifier) {
      TreeDocRenders(t);
      assert Encode(t) + [] == Encode(t);
      assert IsDocument(file[4..], TreeDoc(t), []);
      DocumentsParse(file, TreeDoc(t), []);
      LayoutShows(file, t, 4);
    }
  }

  const WILDCARD: seq<Byte> := [0, 0, 0, 0]

  /** The constructor's checks. */
  predicate Opens(file: seq<Byte>, accepted: seq<Byte>) {
    |file| > IDENTIFIER_SIZE + 3 && (file[..IDENTIFIER_SIZE] == accepted || file[..IDENTIFIER_SIZE] == WILDCARD)
  }

  // ---------------------------------------------------------------- the loader

  class Loader {
    const fileContents: seq<Byte>
    var root: Node
    var propBuffer: seq<Byte>

    ghost predicate Valid() {
      |fileContents| > IDENTIFIER_SIZE + 3
    }

    constructor (file: seq<Byte>)
      requires |file| > IDENTIFIER_SIZE + 3
      ensures Valid() && fileContents == file && root == NO_NODE
    {
      fileContents, root, propBuffer := file, NO_NODE, [];
    }

    /** Null stands for the InvalidOTBFormat that the constructor throws. */
    static method Open(file: seq<Byte>, accepted: seq<Byte>) returns (loader: Loader?)
      ensures loader != null <==> Opens(file, accepted)
      ensures loader != null <==> |file| >= 8 && (file[..4] == accepted || file[..4] == [0, 0, 0, 0])
      ensures loader != null ==> fresh(loader) && loader.Valid() && loader.fileContents == file
                                 && loader.root == NO_NODE
    {
      if |file| <= IDENTIFIER_SIZE + 3 {
        return null;
      }
      var fileIdentifier := file[..IDENTIFIER_SIZE];
      if fileIdentifier != accepted && fileIdentifier != WILDCARD {
        return null;
      }
      loader := new Loader(file);
    }

    /** The root is filled in place: a second call starts from what the first one left. */
    method ParseTree() returns (r: Parsed)
      requires Valid()
      modifies this
      ensures r == ParseFrom(fileContents, old(root))
      ensures old(root) == NO_NODE ==> r == ParseTreeSpec(fileContents)
      ensures r.Ok? ==> root == r.root
    {
      var it := IDENTIFIER_SIZE;
      if fileContents[it] != START {
        return InvalidOTBFormat;
      }
      root := root.(typ := fileContents[it + 1], propsBegin := it + 2);
      var parseStack := [root];
      it := it + 2;
      while it < |fileContents|
        invariant 6 <= it <= |fileContents|
        invariant ParseFrom(fileContents, old(root))
                  == Scan(fileContents[it..], it, parseStack, root)
      {
        var rest := fileContents[it..];
        assert rest[1..] == fileContents[it + 1..];
        assert |rest| >= 2 ==> rest[2..] == fileContents[it + 2..];
        var c := fileContents[it];
        if c == START {
          if parseStack == [] {
            return InvalidOTBFormat;
          }
          var currentNode := Last(parseStack);
          if currentNode.children == [] {
            currentNode := currentNode.(propsEnd := it);
          }
          it := it + 1;
          if it == |fileContents| {
            return InvalidOTBFormat;
          }
          parseStack := Front(parseStack) + [currentNode, Node(fileContents[it], it + 1, 0, [])];
        } else if c == END {
          if parseStack == [] {
            return InvalidOTBFormat;
          }
          var currentNode := Last(parseStack);
          if currentNode.children == [] {
            currentNode := currentNode.(propsEnd := it);
          }
          parseStack := Front(parseStack);
          if parseStack == [] {
            root := currentNode;
          } else {
            parseStack := Attach(parseStack, currentNode);
          }
        } else if c == ESCAPE {
          it := it + 1;
          if it == |fileContents| {
            return InvalidOTBFormat;
          }
        }
        it := it + 1;
      }
      if parseStack != [] {
        return InvalidOTBFormat;
      }
      r := Ok(root);
    }

    /** False, with `props` left as it was, for a node without properties. */
    method GetProps(node: Node, props: PropStream) returns (ok: bool)
      requires node.propsBegin <= node.propsEnd <= |fileContents|
      requires props as object != this
      modifies this`propBuffer, props
      ensures ok == (node.propsBegin != node.propsEnd)
      ensures ok ==> props.Valid()
                     && props.Rest() == Unescape(fileContents[node.propsBegin..node.propsEnd], false)
      ensures !ok ==> props.data == old(props.data) && props.p == old(props.p)
    {
      var size := node.propsEnd - node.propsBegin;
      if size == 0 {
        return false;
      }
      ghost var raw := fileContents[node.propsBegin..node.propsEnd];
      propBuffer := [];
      var lastEscaped := false;
      for i := node.propsBegin to node.propsEnd
        invariant propBuffer == Unescape(fileContents[node.propsBegin..i], false)
        invariant lastEscaped == EndsEscaped(fileContents[node.propsBegin..i], false)
      {
        var byte := fileContents[i];
        ghost var done := fileContents[node.propsBegin..i];
        assert fileContents[node.propsBegin..i + 1] == done + [byte];
        UnescapeConcat(done, byte, false);
        EndsEscapedConcat(done, byte, false);
        lastEscaped := byte == ESCAPE && !lastEscaped;
        if !lastEscaped {
          propBuffer := propBuffer + [byte];
        }
      }
      props.Init(propBuffer);
      ok := true;
    }
  }
}
