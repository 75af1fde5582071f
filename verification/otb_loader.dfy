/** `OTB::Loader`: the explicit-stack parser, and the unescaper of one node's properties. */
module OtbLoader {
  import opened OtbFormat

  datatype Parsed = Ok(root: Node) | InvalidOTBFormat

  // ---------------------------------------------------------------- the parser as a machine

  function Last<T>(s: seq<T>): T
    requires s != []
  {
    s[|s| - 1]
  }

  function Front<T>(s: seq<T>): seq<T>
    requires s != []
  {
    s[..|s| - 1]
  }

  /** The first child, or the end, of a node fixes the end of its properties. */
  function EndProps(n: Node, pos: nat): Node {
    if n.children == [] then n.(propsEnd := pos) else n
  }

  /** Puts a finished node under the open node that started it. */
  function Attach(stack: seq<Node>, n: Node): seq<Node>
    requires stack != []
  {
    Front(stack) + [Last(stack).(children := Last(stack).children + [n])]
  }

  /** The parser's run over the bytes `rest`, which start at position `pos`; `stack` holds the
      open nodes, innermost last, and `root` the finished root once the stack is empty. */
  function Scan(rest: seq<Byte>, pos: nat, stack: seq<Node>, root: Node): Parsed
    decreases |rest|
  {
    if rest == [] then
      if stack != [] then InvalidOTBFormat else Ok(root)
    else if rest[0] == START then
      if stack == [] || |rest| == 1 then InvalidOTBFormat
      else
        var top := EndProps(Last(stack), pos);
        Scan(rest[2..], pos + 2, Front(stack) + [top, Node(rest[1], pos + 2, 0, [])], root)
    else if rest[0] == END then
      if stack == [] then InvalidOTBFormat
      else
        var done := EndProps(Last(stack), pos);
        if |stack| == 1 then Scan(rest[1..], pos + 1, [], done)
        else Scan(rest[1..], pos + 1, Attach(Front(stack), done), root)
    else if rest[0] == ESCAPE then
      if |rest| == 1 then InvalidOTBFormat
      else Scan(rest[2..], pos + 2, stack, root)
    else
      Scan(rest[1..], pos + 1, stack, root)
  }

  const NO_NODE := Node(0, 0, 0, [])

  /** What `parseTree` makes of a file whose identifier and size the constructor accepted, with
      `before` as the root that the loader holds when it is called. */
  function ParseFrom(file: seq<Byte>, before: Node): Parsed
    requires |file| >= 8
  {
    if file[4] != START then InvalidOTBFormat
    else
      var root := before.(typ := file[5], propsBegin := 6);
      Scan(file[6..], 6, [root], root)
  }

  /** The first parse. */
  function ParseTreeSpec(file: seq<Byte>): Parsed
    requires |file| >= 8
  {
    ParseFrom(file, NO_NODE)
  }

  // ---------------------------------------------------------------- every document is accepted

  lemma {:induction false} ScanNeutral(raw: seq<Byte>, rest: seq<Byte>, pos: nat, stack: seq<Node>, root: Node)
    requires Neutral(raw)
    ensures Scan(raw + rest, pos, stack, root) == Scan(rest, pos + |raw|, stack, root)
    decreases |raw|
  {
    if raw == [] {
      assert raw + rest == rest;
    } else if raw[0] == ESCAPE {
      assert (raw + rest)[2..] == raw[2..] + rest;
      ScanNeutral(raw[2..], rest, pos + 2, stack, root);
    } else {
      assert (raw + rest)[1..] == raw[1..] + rest;
      ScanNeutral(raw[1..], rest, pos + 1, stack, root);
    }
  }

  /** The node under construction once its properties are known and `kids` have been read. */
  function Opened(typ: Byte, begin: nat, raw: seq<Byte>, done: seq<Node>): Node {
    Node(typ, begin, if done == [] then 0 else begin + |raw|, done)
  }

  /** Reading a whole document under an open node leaves that node with one more child. */
  lemma {:induction false} ScanDoc(d: Doc, rest: seq<Byte>, pos: nat, stack: seq<Node>, root: Node)
    requires WellFormed(d) && stack != []
    ensures Scan(Render(d) + rest, pos, stack, root)
         == Scan(rest, pos + |Render(d)|,
                 Attach(Front(stack) + [EndProps(Last(stack), pos)], Layout(d, pos)), root)
    decreases d, 2
  {
    var outer := Front(stack) + [EndProps(Last(stack), pos)];
    var child := Node(d.typ, pos + 2, 0, []);
    var afterHead := d.raw + (RenderAll(d.kids) + ([END] + rest));
    var all := Render(d) + rest;
    assert all[2..] == afterHead;
    assert Front(stack) + [EndProps(Last(stack), pos), child] == outer + [child];
    assert Scan(all, pos, stack, root) == Scan(afterHead, pos + 2, outer + [child], root);
    ScanBody(d, rest, pos, outer, root);
  }

  lemma {:induction false} ScanBody(d: Doc, rest: seq<Byte>, pos: nat, outer: seq<Node>, root: Node)
    requires WellFormed(d)
    ensures Scan(d.raw + (RenderAll(d.kids) + ([END] + rest)), pos + 2, outer + [Node(d.typ, pos + 2, 0, [])], root)
         == if outer == [] then Scan(rest, pos + |Render(d)|, [], Layout(d, pos))
            else Scan(rest, pos + |Render(d)|, Attach(outer, Layout(d, pos)), root)
    decreases d, 1
  {
    var child := Node(d.typ, pos + 2, 0, []);
    ScanNeutral(d.raw, RenderAll(d.kids) + ([END] + rest), pos + 2, outer + [child], root);
    var full, endAt := ScanChildren(d, [END] + rest, pos, outer, root);
    ScanEnd(rest, endAt, outer, full, root);
  }

  /** All the children, up to the END of the node. */
  lemma {:induction false} ScanChildren(d: Doc, rest: seq<Byte>, pos: nat, outer: seq<Node>, root: Node)
    returns (full: Node, endAt: nat)
    requires WellFormed(d)
    ensures Scan(RenderAll(d.kids) + rest, pos + 2 + |d.raw|, outer + [Node(d.typ, pos + 2, 0, [])], root)
         == Scan(rest, endAt, outer + [full], root)
    ensures EndProps(full, endAt) == Layout(d, pos) && pos + |Render(d)| == endAt + 1
    decreases d, 0
  {
    var child, kidsAt := Node(d.typ, pos + 2, 0, []), pos + 2 + |d.raw|;
    ScanKids(d.kids, rest, kidsAt, outer, child, d.raw, root);
    assert [] + LayoutAll(d.kids, kidsAt) == LayoutAll(d.kids, kidsAt);
    full, endAt := Opened(d.typ, pos + 2, d.raw, LayoutAll(d.kids, kidsAt)), kidsAt + |RenderAll(d.kids)|;
  }

  lemma ScanEnd(rest: seq<Byte>, pos: nat, outer: seq<Node>, top: Node, root: Node)
    ensures Scan([END] + rest, pos, outer + [top], root)
         == if outer == [] then Scan(rest, pos + 1, [], EndProps(top, pos))
            else Scan(rest, pos + 1, Attach(outer, EndProps(top, pos)), root)
  {
    assert ([END] + rest)[1..] == rest;
    assert Front(outer + [top]) == outer;
  }

  /** The node under construction, with properties `raw`, after one more child. */
  function WithChild(top: Node, raw: seq<Byte>, child: Node): Node {
    Opened(top.typ, top.propsBegin, raw, top.children + [child])
  }

  lemma {:induction false} ScanKids(kids: seq<Kid>, rest: seq<Byte>, pos: nat, outer: seq<Node>, top: Node,
                                    raw: seq<Byte>, root: Node)
    requires AllWellFormed(kids)
    requires top == Opened(top.typ, top.propsBegin, raw, top.children)
    requires top.children == [] ==> pos == top.propsBegin + |raw|
    ensures Scan(RenderAll(kids) + rest, pos, outer + [top], root)
         == Scan(rest, pos + |RenderAll(kids)|,
                 outer + [Opened(top.typ, top.propsBegin, raw, top.children + LayoutAll(kids, pos))], root)
    decreases kids, 1
  {
    if kids == [] {
      assert RenderAll(kids) + rest == rest;
      assert top.children + [] == top.children;
    } else {
      var k := kids[0];
      var more := RenderAll(kids[1..]) + rest;
      var next := pos + |Render(k.doc)| + |k.gap|;
      var top' := WithChild(top, raw, Layout(k.doc, pos));
      ScanKid(kids, more, pos, outer, top, raw, root);
      ScanKids(kids[1..], rest, next, outer, top', raw, root);
      KidsUnfold(kids, rest, pos, top.children);
    }
  }

  lemma KidsUnfold(kids: seq<Kid>, rest: seq<Byte>, pos: nat, done: seq<Node>)
    requires kids != []
    ensures var k, next := kids[0], pos + |Render(kids[0].doc)| + |kids[0].gap|;
            && RenderAll(kids) + rest == Render(k.doc) + (k.gap + (RenderAll(kids[1..]) + rest))
            && done + LayoutAll(kids, pos) == done + [Layout(k.doc, pos)] + LayoutAll(kids[1..], next)
            && pos + |RenderAll(kids)| == next + |RenderAll(kids[1..])|
  {
    var k, next := kids[0], pos + |Render(kids[0].doc)| + |kids[0].gap|;
    Reassociate(Render(k.doc), k.gap, RenderAll(kids[1..]), rest);
    assert LayoutAll(kids, pos) == [Layout(k.doc, pos)] + LayoutAll(kids[1..], next);
    Reassociate(done, [Layout(k.doc, pos)], LayoutAll(kids[1..], next), []);
  }

  lemma Reassociate<T>(a: seq<T>, b: seq<T>, c: seq<T>, d: seq<T>)
    ensures (a + b + c) + d == a + (b + (c + d))
    ensures a + (b + c) == a + b + c
  {
  }

  lemma {:induction false} ScanKid(kids: seq<Kid>, more: seq<Byte>, pos: nat, outer: seq<Node>, top: Node,
                                   raw: seq<Byte>, root: Node)
    requires kids != [] && AllWellFormed(kids)
    requires top == Opened(top.typ, top.propsBegin, raw, top.children)
    requires top.children == [] ==> pos == top.propsBegin + |raw|
    ensures Scan(Render(kids[0].doc) + (kids[0].gap + more), pos, outer + [top], root)
         == Scan(more, pos + |Render(kids[0].doc)| + |kids[0].gap|,
                 outer + [WithChild(top, raw, Layout(kids[0].doc, pos))], root)
    decreases kids, 0
  {
    var k := kids[0];
    var top' := WithChild(top, raw, Layout(k.doc, pos));
    assert Attach(Front(outer + [top]) + [EndProps(top, pos)], Layout(k.doc, pos)) == outer + [top'] by {
      assert Front(outer + [top]) == outer;
      assert Front(outer + [EndProps(top, pos)]) == outer;
    }
    ScanDoc(k.doc, k.gap + more, pos, outer + [top], root);
    ScanNeutral(k.gap, more, pos + |Render(k.doc)|, outer + [top'], root);
  }

  // ---------------------------------------------------------------- nothing else is accepted

  /** Acceptance depends on the bytes left and on how many nodes are open, on nothing else. */
  predicate Accepts(rest: seq<Byte>, depth: nat)
    decreases |rest|
  {
    if rest == [] then depth == 0
    else if rest[0] == START then depth > 0 && |rest| >= 2 && Accepts(rest[2..], depth + 1)
    else if rest[0] == END then depth > 0 && Accepts(rest[1..], depth - 1)
    else if rest[0] == ESCAPE then |rest| >= 2 && Accepts(rest[2..], depth)
    else Accepts(rest[1..], depth)
  }

  lemma {:induction false} ScanAccepts(rest: seq<Byte>, pos: nat, stack: seq<Node>, root: Node)
    ensures Scan(rest, pos, stack, root).Ok? <==> Accepts(rest, |stack|)
    decreases |rest|
  {
    if rest == [] {
    } else if rest[0] == START {
      if stack != [] && |rest| >= 2 {
        ScanAccepts(rest[2..], pos + 2,
                    Front(stack) + [EndProps(Last(stack), pos), Node(rest[1], pos + 2, 0, [])], root);
      }
    } else if rest[0] == END {
      if |stack| == 1 {
        ScanAccepts(rest[1..], pos + 1, [], EndProps(Last(stack), pos));
      } else if stack != [] {
        ScanAccepts(rest[1..], pos + 1, Attach(Front(stack), EndProps(Last(stack), pos)), root);
      }
    } else if rest[0] == ESCAPE {
      if |rest| >= 2 {
        ScanAccepts(rest[2..], pos + 2, stack, root);
      }
    } else {
      ScanAccepts(rest[1..], pos + 1, stack, root);
    }
  }

  /** With a node open, accepted bytes are the rest of that node's body, its END, and accepted bytes. */
  lemma {:induction false} Closes(rest: seq<Byte>, depth: nat)
    returns (raw: seq<Byte>, kids: seq<Kid>, tail: seq<Byte>)
    requires depth > 0 && Accepts(rest, depth)
    ensures Neutral(raw) && AllWellFormed(kids) && Accepts(tail, depth - 1)
    ensures rest == raw + (RenderAll(kids) + [END] + tail)
    decreases |rest|
  {
    if rest[0] == START {
      var raw1, kids1, tail1 := Closes(rest[2..], depth + 1);
      var raw2, kids2, tail2 := Closes(tail1, depth);
      var kid := Kid(Doc(rest[1], raw1, kids1), raw2);
      raw, kids, tail := [], [kid] + kids2, tail2;
      ClosesStart(rest, kid, kids2, tail1, tail2);
    } else if rest[0] == END {
      raw, kids, tail := [], [], rest[1..];
    } else {
      var step := if rest[0] == ESCAPE then 2 else 1;
      var raw', kids', tail' := Closes(rest[step..], depth);
      raw, kids, tail := rest[..step] + raw', kids', tail';
      ClosesPlain(rest, step, raw', RenderAll(kids) + [END] + tail);
    }
  }

  lemma ClosesStart(rest: seq<Byte>, kid: Kid, kids: seq<Kid>, tail1: seq<Byte>, tail: seq<Byte>)
    requires |rest| >= 2 && rest[0] == START && rest[1] == kid.doc.typ
    requires rest[2..] == kid.doc.raw + (RenderAll(kid.doc.kids) + [END] + tail1)
    requires tail1 == kid.gap + (RenderAll(kids) + [END] + tail)
    ensures rest == RenderAll([kid] + kids) + [END] + tail
    ensures Neutral(kid.doc.raw) && AllWellFormed(kid.doc.kids) && Neutral(kid.gap) && AllWellFormed(kids)
            ==> AllWellFormed([kid] + kids)
  {
    KidFirst(kid, kids);
    RenderUnfold(kid.doc, tail1);
    assert rest == [START, kid.doc.typ] + rest[2..];
  }

  lemma KidFirst(kid: Kid, kids: seq<Kid>)
    ensures RenderAll([kid] + kids) == Render(kid.doc) + kid.gap + RenderAll(kids)
    ensures AllWellFormed([kid] + kids) <==> WellFormed(kid.doc) && Neutral(kid.gap) && AllWellFormed(kids)
  {
    assert ([kid] + kids)[1..] == kids;
  }

  lemma ClosesPlain(rest: seq<Byte>, step: nat, raw: seq<Byte>, more: seq<Byte>)
    requires rest != [] && !(rest[0] == START || rest[0] == END)
    requires step == (if rest[0] == ESCAPE then 2 else 1) && step <= |rest|
    requires Neutral(raw) && rest[step..] == raw + more
    ensures Neutral(rest[..step] + raw) && rest == rest[..step] + raw + more
  {
    assert (rest[..step] + raw)[step..] == raw;
    assert rest == rest[..step] + rest[step..];
  }

  lemma {:induction false} TrailIsNeutral(rest: seq<Byte>)
    ensures Accepts(rest, 0) <==> Neutral(rest)
    decreases |rest|
  {
    if rest != [] && rest[0] == ESCAPE && |rest| >= 2 {
      TrailIsNeutral(rest[2..]);
    } else if rest != [] && !IsDelimiter(rest[0]) {
      TrailIsNeutral(rest[1..]);
    }
  }

  // ---------------------------------------------------------------- main results

  /** A file body is one well-formed document followed by bytes with no unescaped delimiter. */
  ghost predicate IsDocument(body: seq<Byte>, d: Doc, trail: seq<Byte>) {
    WellFormed(d) && Neutral(trail) && body == Render(d) + trail
  }

  lemma DocumentBytes(file: seq<Byte>, d: Doc, trail: seq<Byte>)
    requires |file| >= 8 && IsDocument(file[4..], d, trail)
    ensures file[4] == START && file[5] == d.typ
    ensures file[6..] == d.raw + (RenderAll(d.kids) + ([END] + trail))
  {
    var body := file[4..];
    assert body[0] == START && body[1] == d.typ;
    assert file[6..] == body[2..];
  }

  /** Every document is accepted, and the nodes are its layout. */
  lemma DocumentsParse(file: seq<Byte>, d: Doc, trail: seq<Byte>)
    requires |file| >= 8 && IsDocument(file[4..], d, trail)
    ensures ParseTreeSpec(file) == Ok(Layout(d, 4))
  {
    DocumentBytes(file, d, trail);
    ScanBody(d, trail, 4, [], Node(d.typ, 6, 0, []));
    assert [] + [Node(d.typ, 6, 0, [])] == [Node(d.typ, 6, 0, [])];
    ScanTrail(trail, 4 + |Render(d)|, Layout(d, 4));
  }

  /** What follows a finished root. */
  lemma ScanTrail(trail: seq<Byte>, pos: nat, root: Node)
    requires Neutral(trail)
    ensures Scan(trail, pos, [], root) == Ok(root)
  {
    assert trail + [] == trail;
    ScanNeutral(trail, [], pos, [], root);
  }

  /** Only documents are accepted. */
  lemma AcceptedIsDocument(file: seq<Byte>) returns (d: Doc, trail: seq<Byte>)
    requires |file| >= 8 && ParseTreeSpec(file).Ok?
    ensures IsDocument(file[4..], d, trail)
  {
    ScanAccepts(file[6..], 6, [Node(file[5], 6, 0, [])], Node(file[5], 6, 0, []));
    var raw, kids, tail := Closes(file[6..], 1);
    TrailIsNeutral(tail);
    d, trail := Doc(file[5], raw, kids), tail;
    RenderUnfold(d, tail);
    assert file[4..] == [START, file[5]] + file[6..];
  }

  lemma RenderUnfold(d: Doc, trail: seq<Byte>)
    ensures [START, d.typ] + (d.raw + (RenderAll(d.kids) + [END] + trail)) == Render(d) + trail
    ensures WellFormed(d) <==> Neutral(d.raw) && AllWellFormed(d.kids)
  {
  }

  /** `parseTree` accepts exactly the documents, and returns the layout of the one it read. */
  lemma ParsesExactlyDocuments(file: seq<Byte>)
    requires |file| >= 8
    ensures ParseTreeSpec(file).Ok? <==> exists d, trail :: IsDocument(file[4..], d, trail)
    ensures forall d, trail :: IsDocument(file[4..], d, trail) ==> ParseTreeSpec(file) == Ok(Layout(d, 4))
  {
    if ParseTreeSpec(file).Ok? {
      var d, trail := AcceptedIsDocument(file);
    }
    forall d, trail | IsDocument(file[4..], d, trail)
      ensures ParseTreeSpec(file) == Ok(Layout(d, 4))
    {
      DocumentsParse(file, d, trail);
    }
  }

  function Doubled(n: Node): Node {
    n.(children := n.children + n.children)
  }

  /** `parseTree` starts from the root it left behind, so parsing again lists every child of the
      root twice; only a root without children comes out the same. */
  lemma ReparseDoubles(file: seq<Byte>, d: Doc, trail: seq<Byte>)
    requires |file| >= 8 && IsDocument(file[4..], d, trail)
    ensures var root := Layout(d, 4);
            && ParseFrom(file, root) == Ok(Doubled(root))
            && (ParseFrom(file, root) == Ok(root) <==> d.kids == [])
  {
    var top := Layout(d, 4);
    DocumentBytes(file, d, trail);
    ScanAgain(d, trail, 4);
    if d.kids != [] {
      assert |top.children + top.children| > |top.children|;
    }
  }

  /** Reading a document's body into a node that holds its layout already. */
  lemma ScanAgain(d: Doc, trail: seq<Byte>, pos: nat)
    requires WellFormed(d) && Neutral(trail)
    ensures var top := Layout(d, pos);
            Scan(d.raw + (RenderAll(d.kids) + ([END] + trail)), pos + 2, [top], top)
            == Ok(Doubled(top))
  {
    var top, rest := Layout(d, pos), [END] + trail;
    ScanNeutral(d.raw, RenderAll(d.kids) + rest, pos + 2, [top], top);
    var full, endAt := ChildrenAgain(d, rest, pos);
    assert [] + [full] == [full];
    ScanEnd(trail, endAt, [], full, top);
    ScanTrail(trail, endAt + 1, full);
  }

  lemma ChildrenAgain(d: Doc, rest: seq<Byte>, pos: nat) returns (full: Node, endAt: nat)
    requires WellFormed(d)
    ensures var top := Layout(d, pos);
            && full == Doubled(top) == EndProps(full, endAt)
            && Scan(RenderAll(d.kids) + rest, pos + 2 + |d.raw|, [top], top) == Scan(rest, endAt, [full], top)
  {
    var top, kidsAt := Layout(d, pos), pos + 2 + |d.raw|;
    full, endAt := Doubled(top), kidsAt + |RenderAll(d.kids)|;
    if d.kids == [] {
      assert RenderAll(d.kids) + rest == rest;
    } else {
      Alone(top);
      Alone(full);
      DoubledIs(top, d.raw, LayoutAll(d.kids, kidsAt));
      ScanKids(d.kids, rest, kidsAt, [], top, d.raw, top);
    }
  }

  lemma Alone<T>(x: T)
    ensures [] + [x] == [x]
  {
  }

  lemma DoubledIs(n: Node, raw: seq<Byte>, children: seq<Node>)
    requires n.children == children != [] && n.propsEnd == n.propsBegin + |raw|
    ensures Opened(n.typ, n.propsBegin, raw, n.children + children) == Doubled(n)
    ensures Opened(n.typ, n.propsBegin, raw, n.children) == n
  {
  }
}
