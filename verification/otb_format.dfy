/** The OTB container format: bytes, delimiters, escaping, and the trees it stores. */
module OtbFormat {

  type Byte = b: int | 0 <= b < 256

  const ESCAPE: Byte := 0xFD
  const START: Byte := 0xFE
  const END: Byte := 0xFF

  /** Bytes of the file identifier in front of the root node. */
  const IDENTIFIER_SIZE: nat := 4

  // ---------------------------------------------------------------- escaping

  predicate IsDelimiter(b: Byte) {
    b == ESCAPE || b == START || b == END
  }

  /** The writer's escaping: a delimiter inside properties is preceded by ESCAPE. */
  function Escape(payload: seq<Byte>): seq<Byte> {
    if payload == [] then []
    else if IsDelimiter(payload[0]) then [ESCAPE, payload[0]] + Escape(payload[1..])
    else [payload[0]] + Escape(payload[1..])
  }

  /** No unescaped START or END, and no ESCAPE at the very end. */
  predicate Neutral(raw: seq<Byte>)
    decreases |raw|
  {
    if raw == [] then true
    else if raw[0] == ESCAPE then |raw| >= 2 && Neutral(raw[2..])
    else raw[0] != START && raw[0] != END && Neutral(raw[1..])
  }

  /** What a neutral stretch means to a reader that steps over escapes pairwise, as the parser does. */
  function Payload(raw: seq<Byte>): seq<Byte>
    requires Neutral(raw)
    decreases |raw|
  {
    if raw == [] then []
    else if raw[0] == ESCAPE then [raw[1]] + Payload(raw[2..])
    else [raw[0]] + Payload(raw[1..])
  }

  lemma {:induction false} EscapeRoundTrip(payload: seq<Byte>)
    ensures Neutral(Escape(payload)) && Payload(Escape(payload)) == payload
  {
    if payload != [] {
      EscapeRoundTrip(payload[1..]);
      var tail := Escape(payload[1..]);
      if IsDelimiter(payload[0]) {
        assert Escape(payload)[2..] == tail;
      } else {
        assert Escape(payload)[1..] == tail;
      }
    }
  }

  // ---------------------------------------------------------------- trees and their encoding

  /** A tree as an application sees it: a type byte, unescaped properties, children. */
  datatype Tree = Tree(typ: Byte, props: seq<Byte>, children: seq<Tree>)

  /** The encoder: START type escape(props) children END. */
  function Encode(t: Tree): seq<Byte>
    decreases t, 1
  {
    [START, t.typ] + Escape(t.props) + EncodeAll(t.children) + [END]
  }

  function EncodeAll(ts: seq<Tree>): seq<Byte>
    decreases ts, 0
  {
    if ts == [] then [] else Encode(ts[0]) + EncodeAll(ts[1..])
  }

  // ---------------------------------------------------------------- documents

  /** A parse of raw bytes: properties still escaped, and the ignored bytes after each child. */
  datatype Doc = Doc(typ: Byte, raw: seq<Byte>, kids: seq<Kid>)
  datatype Kid = Kid(doc: Doc, gap: seq<Byte>)

  ghost predicate WellFormed(d: Doc)
    decreases d, 1
  {
    Neutral(d.raw) && AllWellFormed(d.kids)
  }

  ghost predicate AllWellFormed(kids: seq<Kid>)
    decreases kids, 0
  {
    kids != [] ==>
      WellFormed(kids[0].doc) && Neutral(kids[0].gap) && AllWellFormed(kids[1..])
  }

  function Render(d: Doc): seq<Byte>
    decreases d, 1
  {
    [START, d.typ] + d.raw + RenderAll(d.kids) + [END]
  }

  function RenderAll(kids: seq<Kid>): seq<Byte>
    decreases kids, 0
  {
    if kids == [] then [] else Render(kids[0].doc) + kids[0].gap + RenderAll(kids[1..])
  }

  /** The document the encoder writes: escaped properties and nothing between children. */
  function TreeDoc(t: Tree): Doc
    decreases t, 1
  {
    Doc(t.typ, Escape(t.props), TreeKids(t.children))
  }

  function TreeKids(ts: seq<Tree>): (kids: seq<Kid>)
    ensures |kids| == |ts|
    decreases ts, 0
  {
    if ts == [] then [] else [Kid(TreeDoc(ts[0]), [])] + TreeKids(ts[1..])
  }

  lemma {:induction false} TreeDocRenders(t: Tree)
    ensures WellFormed(TreeDoc(t)) && Render(TreeDoc(t)) == Encode(t)
    decreases t, 1
  {
    EscapeRoundTrip(t.props);
    TreeKidsRender(t.children);
  }

  lemma {:induction false} TreeKidsRender(ts: seq<Tree>)
    ensures AllWellFormed(TreeKids(ts)) && RenderAll(TreeKids(ts)) == EncodeAll(ts)
    decreases ts, 0
  {
    if ts != [] {
      TreeDocRenders(ts[0]);
      TreeKidsRender(ts[1..]);
      assert TreeKids(ts)[1..] == TreeKids(ts[1..]);
      assert Encode(ts[0]) + [] == Encode(ts[0]);
    }
  }

  // ---------------------------------------------------------------- what the parser builds

  /** A parsed node: the positions delimit its still-escaped properties. */
  datatype Node = Node(typ: Byte, propsBegin: nat, propsEnd: nat, children: seq<Node>)

  /** The node for document `d` whose START byte is at position `pos`. */
  function Layout(d: Doc, pos: nat): Node
    decreases d, 1
  {
    Node(d.typ, pos + 2, pos + 2 + |d.raw|, LayoutAll(d.kids, pos + 2 + |d.raw|))
  }

  function LayoutAll(kids: seq<Kid>, pos: nat): seq<Node>
    decreases kids, 0
  {
    if kids == [] then []
    else [Layout(kids[0].doc, pos)]
         + LayoutAll(kids[1..], pos + |Render(kids[0].doc)| + |kids[0].gap|)
  }
}
