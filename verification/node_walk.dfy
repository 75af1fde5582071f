/** A whole tree, read with `FileStream` from node to node, as the map loader does. */
module NodeWalk {
  import opened Basics
  import opened OtbFormat
  import opened PropStreams
  import opened OtbLoader
  import opened OtbProperties
  import opened FileStreams

  // ---------------------------------------------------------------- the walk

  /** What a reader knows beforehand: the widths of each node's integers, and its children. */
  datatype Plan = Plan(widths: seq<nat>, kids: seq<Plan>)

  /** What it sees. */
  datatype Visit = Visit(typ: Byte, fields: seq<Field>, kids: seq<Visit>)

  /** The plan reads each node's properties to their end. */
  ghost predicate Planned(t: Tree, plan: Plan)
    decreases t, 1
  {
    && ReadFields(t.props, IntShapes(plan.widths)).Some?
    && ReadFields(t.props, IntShapes(plan.widths)).value.1 == []
    && AllPlanned(t.children, plan.kids)
  }

  ghost predicate AllPlanned(ts: seq<Tree>, plans: seq<Plan>)
    decreases ts, 0
  {
    |ts| == |plans| && (ts != [] ==> Planned(ts[0], plans[0]) && AllPlanned(ts[1..], plans[1..]))
  }

  /** What is there to see. */
  ghost function Sight(t: Tree, plan: Plan): Visit
    requires Planned(t, plan)
    decreases t, 1
  {
    Visit(t.typ, ReadFields(t.props, IntShapes(plan.widths)).value.0, Sights(t.children, plan.kids))
  }

  ghost function Sights(ts: seq<Tree>, plans: seq<Plan>): (vs: seq<Visit>)
    requires AllPlanned(ts, plans)
    ensures |vs| == |ts|
    decreases ts, 0
  {
    if ts == [] then [] else [Sight(ts[0], plans[0])] + Sights(ts[1..], plans[1..])
  }

  /** After its type: the integers, the children, and `endNode`. */
  function WalkBody(bs: seq<Byte>, typ: Byte, plan: Plan): Option<(Visit, seq<Byte>)>
    decreases plan, 1
  {
    match StreamInts(bs, plan.widths)
    case None => None
    case Some((fields, rest)) =>
      match WalkAll(rest, plan.kids)
      case None => None
      case Some((kids, left)) =>
        var (b, p) := Next(left, 0, true);
        if b != END then None else Some((Visit(typ, fields, kids), left[p..]))
  }

  /** A child: `startNode`, its type as `getU8` or `startNode` reads it inside a node, its body. */
  function WalkChild(bs: seq<Byte>, plan: Plan): Option<(Visit, seq<Byte>)>
    decreases plan, 2
  {
    var (b, p1) := Next(bs, 0, true);
    var (typ, p2) := Next(bs, p1, true);
    if b != START then None else WalkBody(bs[p2..], typ, plan)
  }

  function WalkAll(bs: seq<Byte>, plans: seq<Plan>): Option<(seq<Visit>, seq<Byte>)>
    decreases plans, 0
  {
    if plans == [] then Some(([], bs))
    else match WalkChild(bs, plans[0])
      case None => None
      case Some((v, rest)) =>
        match WalkAll(rest, plans[1..])
        case None => None
        case Some((vs, left)) => Some(([v] + vs, left))
  }

  /** The root: its START outside any node, and its type skipped over as it stands. */
  function WalkRoot(bs: seq<Byte>, plan: Plan): Option<(Visit, seq<Byte>)> {
    if |bs| < 2 || bs[0] != START then None else WalkBody(bs[2..], bs[1], plan)
  }

  /** A reader that has taken the escape in front of the first property for the type's comes back
      into step: after ESCAPE bytes, if any, there is a START or END. */
  predicate BackInStep(props: seq<Byte>) {
    props != [] && (props[0] == START || props[0] == END || (props[0] == ESCAPE && BackInStep(props[1..])))
  }

  /** No child has the type ESCAPE, but for those whose properties bring the reader back in step. */
  ghost predicate Walkable(t: Tree)
    decreases t, 1
  {
    (t.typ == ESCAPE ==> BackInStep(t.props)) && AllWalkable(t.children)
  }

  ghost predicate AllWalkable(ts: seq<Tree>)
    decreases ts, 0
  {
    ts != [] ==> Walkable(ts[0]) && AllWalkable(ts[1..])
  }

  // ---------------------------------------------------------------- integers are bytes

  function Sum(widths: seq<nat>): nat {
    if widths == [] then 0 else widths[0] + Sum(widths[1..])
  }

  lemma {:induction false} TakeSplits(bs: seq<Byte>, m: nat, n: nat)
    ensures TakeEscaped(bs, m + n)
         == match TakeEscaped(bs, m) case None => None case Some((a, rest)) => Prepend(a, TakeEscaped(rest, n))
    ensures TakeEscaped(bs, m).Some? ==> |TakeEscaped(bs, m).value.0| == m <= |bs|
    decreases m
  {
    if m == 0 {
      PrependStep([], 0, TakeEscaped(bs, n));
    } else {
      var skip := if bs != [] && bs[0] == ESCAPE then 1 else 0;
      if |bs| > skip {
        var b, left := bs[skip], bs[skip + 1..];
        TakeSplits(left, m - 1, n);
        if TakeEscaped(left, m - 1).Some? {
          var (a, rest) := TakeEscaped(left, m - 1).value;
          PrependTwice([b], a, TakeEscaped(rest, n));
        }
      }
    }
  }

  lemma PrependTwice(a: seq<Byte>, b: seq<Byte>, r: Option<(seq<Byte>, seq<Byte>)>)
    ensures Prepend(a, Prepend(b, r)) == Prepend(a + b, r)
  {
    if r.Some? {
      assert a + (b + r.value.0) == a + b + r.value.0;
    }
  }

  /** What is read as integers has been taken as bytes. */
  lemma {:induction false} IntsTake(bs: seq<Byte>, widths: seq<nat>)
    requires StreamInts(bs, widths).Some?
    ensures var (fields, rest) := StreamInts(bs, widths).value;
            TakeEscaped(bs, Sum(widths)) == Some((WriteFields(fields), rest))
    decreases widths
  {
    if widths != [] {
      var w := widths[0];
      var (taken, rest) := TakeEscaped(bs, w).value;
      var (fields, _) := StreamInts(rest, widths[1..]).value;
      IntsTake(rest, widths[1..]);
      TakeSplits(bs, w, Sum(widths[1..]));
      BytesRoundTrip(taken);
      assert ([Num(w, FromBytes(taken))] + fields)[1..] == fields;
    }
  }

  /** What can be taken as bytes can be read as integers. */
  lemma {:induction false} TakeInts(bs: seq<Byte>, props: seq<Byte>, widths: seq<nat>, rest: seq<Byte>)
    requires ReadFields(props, IntShapes(widths)).Some? && ReadFields(props, IntShapes(widths)).value.1 == []
    requires TakeEscaped(bs, |props|) == Some((props, rest))
    ensures StreamInts(bs, widths) == Some((ReadFields(props, IntShapes(widths)).value.0, rest))
    decreases widths
  {
    if widths != [] {
      var w := widths[0];
      var head, tail := props[..w], props[w..];
      assert IntShapes(widths)[1..] == IntShapes(widths[1..]);
      assert head + tail == props;
      var left := TakeParts(bs, head, tail, rest);
      TakeInts(left, tail, widths[1..], rest);
    }
  }

  lemma TakeParts(bs: seq<Byte>, head: seq<Byte>, tail: seq<Byte>, rest: seq<Byte>) returns (left: seq<Byte>)
    requires TakeEscaped(bs, |head + tail|) == Some((head + tail, rest))
    ensures TakeEscaped(bs, |head|) == Some((head, left)) && TakeEscaped(left, |tail|) == Some((tail, rest))
    ensures |head| <= |bs|
  {
    TakeSplits(bs, |head|, |tail|);
    left := TakeEscaped(bs, |head|).value.1;
    assert TakeEscaped(bs, |head|).value.0 == (head + tail)[..|head|];
    assert TakeEscaped(left, |tail|).value.0 == (head + tail)[|head|..];
  }

  lemma PlannedBytes(t: Tree, plan: Plan)
    requires Planned(t, plan)
    ensures var fields := ReadFields(t.props, IntShapes(plan.widths)).value.0;
            WriteFields(fields) == t.props && Sum(plan.widths) == |t.props|
  {
    ReadsOnlyWritten(t.props, IntShapes(plan.widths));
    ShapesSum(t.props, plan.widths);
    assert WriteFields(ReadFields(t.props, IntShapes(plan.widths)).value.0) + [] == t.props;
  }

  lemma {:induction false} ShapesSum(props: seq<Byte>, widths: seq<nat>)
    requires ReadFields(props, IntShapes(widths)).Some?
    ensures |props| == Sum(widths) + |ReadFields(props, IntShapes(widths)).value.1|
    decreases widths
  {
    if widths != [] {
      assert IntShapes(widths)[1..] == IntShapes(widths[1..]);
      ShapesSum(props[widths[0]..], widths[1..]);
    }
  }

  // ---------------------------------------------------------------- in step and out of step

  lemma EscapeTake(props: seq<Byte>, after: seq<Byte>)
    ensures TakeEscaped(Escape(props) + after, |props|) == Some((props, after))
  {
    EscapeRoundTrip(props);
    var left := TakeNeutral(Escape(props), after, |props|);
    assert left == [] && left + after == after;
    assert Payload(Escape(props))[..|props|] == props;
  }

  ghost predicate Delimited(bs: seq<Byte>) {
    bs != [] && (bs[0] == START || bs[0] == END)
  }

  /** What a reader who has skipped the first escape has in front of it. */
  function Unescaped(props: seq<Byte>, after: seq<Byte>): seq<Byte>
    requires props != []
  {
    [props[0]] + (Escape(props[1..]) + after)
  }

  lemma EscapedFirst(props: seq<Byte>, after: seq<Byte>)
    requires props != []
    ensures var bs := Escape(props) + after;
            bs == if IsDelimiter(props[0]) then [ESCAPE] + Unescaped(props, after) else Unescaped(props, after)
  {
    var more := Escape(props[1..]);
    Regroup(ESCAPE, props[0], more, after);
    Regroup(ESCAPE, props[0], more, []);
  }

  lemma Regroup(a: Byte, b: Byte, more: seq<Byte>, after: seq<Byte>)
    ensures ([a, b] + more) + after == [a] + ([b] + (more + after))
    ensures ([b] + more) + after == [b] + (more + after)
  {
  }

  /** Without the escape in front of their first byte, properties are read as they are if and only if
      they bring the reader back in step. */
  lemma {:induction false} OutOfStep(props: seq<Byte>, after: seq<Byte>)
    requires props != [] && IsDelimiter(props[0]) && Delimited(after)
    ensures var r := TakeEscaped(Unescaped(props, after), |props|);
            if BackInStep(props) then r == Some((props, after)) else r.None? || r.value.0 != props
    decreases |props|
  {
    var more := props[1..];
    var left := Escape(more) + after;
    if props[0] != ESCAPE {
      EscapeTake(more, after);
      Kept(Unescaped(props, after), props, left, after);
    } else if more == [] {
      assert left == after && !BackInStep(more) && !BackInStep(props);
      Lost(Unescaped(props, after), props, left);
    } else {
      EscapedFirst(more, after);
      if IsDelimiter(more[0]) {
        OutOfStep(more, after);
        assert left[1..] == Unescaped(more, after);
        Shifted(Unescaped(props, after), props, left, after);
      } else {
        assert !BackInStep(more) && !BackInStep(props);
        Lost(Unescaped(props, after), props, left);
      }
    }
  }

  lemma Kept(bs: seq<Byte>, props: seq<Byte>, left: seq<Byte>, after: seq<Byte>)
    requires props != [] && props[0] != ESCAPE && bs == [props[0]] + left
    requires TakeEscaped(left, |props[1..]|) == Some((props[1..], after))
    ensures TakeEscaped(bs, |props|) == Some((props, after))
  {
    TakeFirst(bs, 0, left, |props[1..]|);
    assert [props[0]] + props[1..] == props;
  }

  lemma Shifted(bs: seq<Byte>, props: seq<Byte>, left: seq<Byte>, after: seq<Byte>)
    requires props != [] && props[0] == ESCAPE && bs == [ESCAPE] + left && left != [] && left[0] == ESCAPE
    ensures var r, more := TakeEscaped(left[1..], |props[1..]|), TakeEscaped(bs, |props|);
            && (r == Some((props[1..], after)) ==> more == Some((props, after)))
            && (r.None? || r.value.0 != props[1..] ==> more.None? || more.value.0 != props)
  {
    var r := TakeEscaped(left[1..], |props[1..]|);
    TakeFirst(bs, 1, left[1..], |props[1..]|);
    FirstDecides(ESCAPE, r, props[1..]);
    assert [ESCAPE] + props[1..] == props;
  }

  lemma Lost(bs: seq<Byte>, props: seq<Byte>, left: seq<Byte>)
    requires props != [] && props[0] == ESCAPE && bs == [ESCAPE] + left && left != [] && left[0] != ESCAPE
    ensures TakeEscaped(bs, |props|).None? || TakeEscaped(bs, |props|).value.0 != props
  {
    var r := TakeEscaped(left[1..], |props[1..]|);
    TakeFirst(bs, 1, left[1..], |props[1..]|);
    if r.Some? {
      assert ([left[0]] + r.value.0)[0] != props[0];
    }
  }

  lemma TakeFirst(bs: seq<Byte>, skip: nat, rest: seq<Byte>, n: nat)
    requires |bs| > skip && skip == (if bs[0] == ESCAPE then 1 else 0) && rest == bs[skip + 1..]
    ensures TakeEscaped(bs, n + 1) == Prepend([bs[skip]], TakeEscaped(rest, n))
  {
  }

  lemma FirstDecides(b: Byte, r: Option<(seq<Byte>, seq<Byte>)>, more: seq<Byte>)
    ensures Prepend([b], r).Some? ==> (Prepend([b], r).value.0 == [b] + more <==> r.value.0 == more)
  {
    if r.Some? {
      assert ([b] + r.value.0)[1..] == r.value.0 && ([b] + more)[1..] == more;
    }
  }

  // ---------------------------------------------------------------- whatever is seen is there

  /** The bytes of a visit without escapes. */
  function Plain(v: Visit): seq<Byte>
    decreases v, 1
  {
    [START, v.typ] + PlainBody(v)
  }

  function PlainBody(v: Visit): seq<Byte>
    decreases v, 0
  {
    WriteFields(v.fields) + (PlainAll(v.kids) + [END])
  }

  function PlainAll(vs: seq<Visit>): seq<Byte>
    decreases vs, 0
  {
    if vs == [] then [] else Plain(vs[0]) + PlainAll(vs[1..])
  }

  /** Stepping over escapes, a reader takes these bytes from the stream and has `rest` left. */
  predicate Takes(bs: seq<Byte>, bytes: seq<Byte>, rest: seq<Byte>) {
    TakeEscaped(bs, |bytes|) == Some((bytes, rest))
  }

  lemma TakesBoth(bs: seq<Byte>, a: seq<Byte>, left: seq<Byte>, b: seq<Byte>, rest: seq<Byte>)
    requires Takes(bs, a, left) && Takes(left, b, rest)
    ensures Takes(bs, a + b, rest)
  {
    TakeSplits(bs, |a|, |b|);
  }

  lemma NextTakes(bs: seq<Byte>, pos: nat)
    requires pos < |bs| && (bs[pos] == ESCAPE ==> pos + 1 < |bs|)
    ensures var (b, p) := Next(bs, pos, true); p <= |bs| && Takes(bs[pos..], [b], bs[p..])
  {
    SingleByte(bs[pos..], 0);
    var (b, p) := Next(bs, pos, true);
    assert bs[pos..][p - pos..] == bs[p..];
  }

  lemma TakesSome(bs: seq<Byte>, bytes: seq<Byte>, rest: seq<Byte>)
    requires Takes(bs, bytes, rest) && bytes != []
    ensures bs != []
  {
  }

  /** Whatever bytes are walked through, and however they came about: a child that is seen is what the
      stream holds there without its escapes, from START to END, and what is left is left. */
  lemma {:induction false} ChildIsThere(bs: seq<Byte>, plan: Plan)
    requires WalkChild(bs, plan).Some?
    ensures var (v, rest) := WalkChild(bs, plan).value; Takes(bs, Plain(v), rest)
    decreases plan, 2
  {
    var (b, p1) := Next(bs, 0, true);
    var (typ, p2) := Next(bs, p1, true);
    var (v, rest) := WalkBody(bs[p2..], typ, plan).value;
    BodyIsThere(bs[p2..], typ, plan);
    TakesSome(bs[p2..], PlainBody(v), rest);
    assert bs[0..] == bs;
    NextTakes(bs, 0);
    NextTakes(bs, p1);
    TakesBoth(bs, [START], bs[p1..], [typ], bs[p2..]);
    TakesBoth(bs, [START] + [typ], bs[p2..], PlainBody(v), rest);
    assert [START] + [typ] == [START, typ];
  }

  lemma {:induction false} BodyIsThere(bs: seq<Byte>, typ: Byte, plan: Plan)
    requires WalkBody(bs, typ, plan).Some?
    ensures var (v, rest) := WalkBody(bs, typ, plan).value; v.typ == typ && Takes(bs, PlainBody(v), rest)
    decreases plan, 1
  {
    var (fields, more) := StreamInts(bs, plan.widths).value;
    IntsTake(bs, plan.widths);
    TakeSplits(bs, Sum(plan.widths), 0);
    KidsAreThere(more, plan.kids);
    var (kids, left) := WalkAll(more, plan.kids).value;
    var (b, p) := Next(left, 0, true);
    assert left[0..] == left;
    NextTakes(left, 0);
    TakesBoth(more, PlainAll(kids), left, [END], left[p..]);
    TakesBoth(bs, WriteFields(fields), more, PlainAll(kids) + [END], left[p..]);
  }

  lemma {:induction false} KidsAreThere(bs: seq<Byte>, plans: seq<Plan>)
    requires WalkAll(bs, plans).Some?
    ensures var (vs, rest) := WalkAll(bs, plans).value; Takes(bs, PlainAll(vs), rest)
    decreases plans, 0
  {
    if plans != [] {
      var (v, more) := WalkChild(bs, plans[0]).value;
      var (vs, rest) := WalkAll(more, plans[1..]).value;
      ChildIsThere(bs, plans[0]);
      KidsAreThere(more, plans[1..]);
      TakesBoth(bs, Plain(v), more, PlainAll(vs), rest);
      assert ([v] + vs)[1..] == vs;
    }
  }

  /** The root, whose START and type are read as they stand. */
  lemma RootIsThere(bs: seq<Byte>, plan: Plan)
    requires WalkRoot(bs, plan).Some?
    ensures var (v, rest) := WalkRoot(bs, plan).value;
            |bs| >= 2 && bs[0] == START && bs[1] == v.typ && Takes(bs[2..], PlainBody(v), rest)
  {
    BodyIsThere(bs[2..], bs[1], plan);
  }

  // ---------------------------------------------------------------- the walk sees the tree

  lemma {:induction false} BodyInStep(bs: seq<Byte>, typ: Byte, t: Tree, plan: Plan, after: seq<Byte>)
    requires Planned(t, plan)
    requires StreamInts(bs, plan.widths) == Some((Sight(t, plan).fields, EncodeAll(t.children) + ([END] + after)))
    ensures var r := WalkBody(bs, typ, plan);
            && (r.Some? && r.value.0 == Visit(typ, Sight(t, plan).fields, Sight(t, plan).kids)
                <==> AllWalkable(t.children))
            && (AllWalkable(t.children) ==> r.value.1 == after)
    decreases t, 1
  {
    WalkAllIff(t.children, plan.kids, after);
    assert ([END] + after)[1..] == after;
  }

  /** What follows the properties. */
  function Tail(t: Tree, after: seq<Byte>): (r: seq<Byte>)
  {
    EncodeAll(t.children) + ([END] + after)
  }

  lemma TailDelimited(t: Tree, after: seq<Byte>)
    ensures Delimited(Tail(t, after))
    ensures Encode(t) + after == [START, t.typ] + (Escape(t.props) + Tail(t, after))
  {
    if t.children != [] {
      assert Encode(t.children[0])[0] == START;
    }
  }

  /** What `WalkChild` says of a child whose type has been read, with `bs` behind it. */
  ghost predicate Seen(r: Option<(Visit, seq<Byte>)>, t: Tree, plan: Plan, after: seq<Byte>)
    requires Planned(t, plan)
  {
    && (r.Some? && r.value.0 == Sight(t, plan) <==> Walkable(t))
    && (Walkable(t) ==> r == Some((Sight(t, plan), after)))
  }

  lemma {:induction false} WalkChildIff(t: Tree, plan: Plan, after: seq<Byte>)
    requires Planned(t, plan)
    ensures Seen(WalkChild(Encode(t) + after, plan), t, plan, after)
    decreases t, 4
  {
    var tail, bs := Tail(t, after), Encode(t) + after;
    TailDelimited(t, after);
    var props := Escape(t.props) + tail;
    assert bs[0] == START && bs[1] == t.typ && bs[2..] == props;
    if t.typ != ESCAPE {
      EscapeTake(t.props, tail);
      BodyTaken(props, t, plan, after);
      assert WalkChild(bs, plan) == WalkBody(props, t.typ, plan);
    } else {
      assert bs[2] == props[0] && bs[3..] == props[1..];
      EscapeChild(props, t, plan, after);
      assert WalkChild(bs, plan) == WalkBody(props[1..], props[0], plan);
    }
  }

  lemma {:induction false} BodyTaken(bs: seq<Byte>, t: Tree, plan: Plan, after: seq<Byte>)
    requires Planned(t, plan) && TakeEscaped(bs, |t.props|) == Some((t.props, Tail(t, after)))
    requires t.typ == ESCAPE ==> BackInStep(t.props)
    ensures Seen(WalkBody(bs, t.typ, plan), t, plan, after)
    decreases t, 2
  {
    TakeInts(bs, t.props, plan.widths, Tail(t, after));
    BodyInStep(bs, t.typ, t, plan, after);
  }

  /** The reader takes the byte behind the type ESCAPE for the type. */
  lemma {:induction false} EscapeChild(bs: seq<Byte>, t: Tree, plan: Plan, after: seq<Byte>)
    requires Planned(t, plan) && t.typ == ESCAPE && bs == Escape(t.props) + Tail(t, after) && bs != []
    ensures Seen(WalkBody(bs[1..], bs[0], plan), t, plan, after)
    decreases t, 3
  {
    var tail := Tail(t, after);
    TailDelimited(t, after);
    if t.props == [] {
      assert bs == tail;
    } else {
      EscapedFirst(t.props, tail);
      if IsDelimiter(t.props[0]) {
        assert bs[1..] == Unescaped(t.props, tail);
        OutOfStep(t.props, tail);
        if BackInStep(t.props) {
          BodyTaken(bs[1..], t, plan, after);
        } else {
          FieldsDiffer(bs[1..], t, plan);
        }
      }
    }
  }

  lemma FieldsDiffer(bs: seq<Byte>, t: Tree, plan: Plan)
    requires Planned(t, plan)
    requires TakeEscaped(bs, |t.props|).None? || TakeEscaped(bs, |t.props|).value.0 != t.props
    ensures StreamInts(bs, plan.widths).None? || StreamInts(bs, plan.widths).value.0 != Sight(t, plan).fields
  {
    PlannedBytes(t, plan);
    if StreamInts(bs, plan.widths).Some? {
      IntsTake(bs, plan.widths);
    }
  }

  lemma {:induction false} WalkAllIff(ts: seq<Tree>, plans: seq<Plan>, after: seq<Byte>)
    requires AllPlanned(ts, plans)
    ensures var r := WalkAll(EncodeAll(ts) + ([END] + after), plans);
            && (r.Some? && r.value.0 == Sights(ts, plans) <==> AllWalkable(ts))
            && (AllWalkable(ts) ==> r == Some((Sights(ts, plans), [END] + after)))
    decreases ts, 0
  {
    if ts == [] {
      assert EncodeAll(ts) + ([END] + after) == [END] + after;
    } else {
      var rest := EncodeAll(ts[1..]) + ([END] + after);
      assert EncodeAll(ts) + ([END] + after) == Encode(ts[0]) + rest;
      WalkChildIff(ts[0], plans[0], rest);
      assert Seen(WalkChild(Encode(ts[0]) + rest, plans[0]), ts[0], plans[0], rest);
      WalkAllIff(ts[1..], plans[1..], after);
      FirstOfAll(Encode(ts[0]) + rest, ts, plans);
    }
  }

  /** The first visit is the head of all visits. */
  lemma FirstOfAll(bs: seq<Byte>, ts: seq<Tree>, plans: seq<Plan>)
    requires AllPlanned(ts, plans) && ts != []
    ensures var r := WalkAll(bs, plans);
            r.Some? ==> WalkChild(bs, plans[0]).Some?
                        && (r.value.0 == Sights(ts, plans) <==>
                              WalkChild(bs, plans[0]).value.0 == Sight(ts[0], plans[0])
                              && r.value.0[1..] == Sights(ts[1..], plans[1..]) && |r.value.0| > 0)
  {
    if WalkAll(bs, plans).Some? {
      var vs := WalkAll(bs, plans).value.0;
      assert vs == [vs[0]] + vs[1..];
      assert Sights(ts, plans)[1..] == Sights(ts[1..], plans[1..]);
    }
  }

  /** For every tree and every plan of its integers: the walk over its encoding sees exactly its
      types, integers and children, and ends behind it, if and only if no child's type is taken for an
      escape, or the reader gets back in step with the child's properties. */
  lemma WalkSeesTree(t: Tree, plan: Plan, after: seq<Byte>)
    requires Planned(t, plan)
    ensures WalkRoot(Encode(t) + after, plan) == Some((Sight(t, plan), after)) <==> AllWalkable(t.children)
  {
    var tail, bs := Tail(t, after), Encode(t) + after;
    TailDelimited(t, after);
    assert bs[2..] == Escape(t.props) + tail;
    EscapeTake(t.props, tail);
    TakeInts(bs[2..], t.props, plan.widths, tail);
    BodyInStep(bs[2..], t.typ, t, plan, after);
  }

  /** On the file written for a tree, the loader shows the tree, and the walk sees the same exactly when
      the tree is walkable below its root. */
  lemma ReadersAgreeIff(identifier: seq<Byte>, t: Tree, plan: Plan)
    requires |identifier| == IDENTIFIER_SIZE && Planned(t, plan) && !(t.props == [] && t.children == [])
    ensures var file := EncodeFile(identifier, t);
            && Opens(file, identifier) && ParseTreeSpec(file).Ok? && Shows(file, ParseTreeSpec(file).root, t)
            && (WalkRoot(file[IDENTIFIER_SIZE..], plan) == Some((Sight(t, plan), [])) <==> AllWalkable(t.children))
  {
    TreeRoundTrip(identifier, t);
    WalkSeesTree(t, plan, []);
    assert EncodeFile(identifier, t)[IDENTIFIER_SIZE..] == Encode(t) == Encode(t) + [];
  }

  /** In particular for every tree in which no child has the type ESCAPE. */
  lemma {:induction false} PlainTypesWalk(ts: seq<Tree>)
    requires NoEscapeTypes(ts)
    ensures AllWalkable(ts)
    decreases ts
  {
    if ts != [] {
      PlainTypesWalk(ts[0].children);
      PlainTypesWalk(ts[1..]);
    }
  }

  predicate NoEscapeTypes(ts: seq<Tree>)
    decreases ts
  {
    ts != [] ==> ts[0].typ != ESCAPE && NoEscapeTypes(ts[0].children) && NoEscapeTypes(ts[1..])
  }

  /** A child of type ESCAPE without properties is seen as another, and one whose only property is START
      as what it is. */
  lemma EscapeTypeWitness(lost: Tree, found: Tree)
    requires lost == Tree(ESCAPE, [], []) && found == Tree(ESCAPE, [START], [])
    ensures !Walkable(lost) && Walkable(found)
  {
  }
}
