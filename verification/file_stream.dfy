/** `FileStream`: the cursor-based reader of the same format, and its agreement with the loader. */
module FileStreams {
  import opened Basics
  import opened OtbFormat
  import opened OtbLoader
  import opened PropStreams
  import opened OtbProperties

  // ---------------------------------------------------------------- escaped reads

  /** The escaping copy loop of `read`: `n` bytes, each of which may be preceded by an ESCAPE.
      None when the loop would run past the end of the data. */
  function TakeEscaped(bs: seq<Byte>, n: nat): Option<(seq<Byte>, seq<Byte>)>
    decreases n
  {
    if n == 0 then Some(([], bs))
    else
      var skip := if bs != [] && bs[0] == ESCAPE then 1 else 0;
      if |bs| <= skip then None
      else Prepend([bs[skip]], TakeEscaped(bs[skip + 1..], n - 1))
  }

  function Prepend(bytes: seq<Byte>, r: Option<(seq<Byte>, seq<Byte>)>): Option<(seq<Byte>, seq<Byte>)> {
    match r
    case None => None
    case Some((taken, rest)) => Some((bytes + taken, rest))
  }

  lemma PrependStep(bytes: seq<Byte>, b: Byte, r: Option<(seq<Byte>, seq<Byte>)>)
    ensures Prepend(bytes, Prepend([b], r)) == Prepend(bytes + [b], r)
    ensures Prepend([], r) == r
  {
    if r.Some? {
      assert bytes + ([b] + r.value.0) == bytes + [b] + r.value.0;
      assert [] + r.value.0 == r.value.0;
    }
  }

  /** Reading integers of the given widths inside a node. */
  function StreamInts(bs: seq<Byte>, widths: seq<nat>): Option<(seq<Field>, seq<Byte>)>
    decreases widths
  {
    if widths == [] then Some(([], bs))
    else if |bs| < widths[0] then None
    else match TakeEscaped(bs, widths[0])
      case None => None
      case Some((taken, rest)) =>
        match StreamInts(rest, widths[1..])
        case None => None
        case Some((fs, end)) => Some(([Num(widths[0], FromBytes(taken))] + fs, end))
  }

  lemma SingleInt(bs: seq<Byte>, width: nat)
    ensures StreamInts(bs, [width])
         == if |bs| < width || TakeEscaped(bs, width).None? then None
            else Some(([Num(width, FromBytes(TakeEscaped(bs, width).value.0))], TakeEscaped(bs, width).value.1))
  {
    assert [width][1..] == [];
    if |bs| >= width && TakeEscaped(bs, width).Some? {
      var (taken, rest) := TakeEscaped(bs, width).value;
      assert StreamInts(rest, []) == Some(([], rest));
      assert [Num(width, FromBytes(taken))] + [] == [Num(width, FromBytes(taken))];
    }
  }

  lemma SingleByte(bs: seq<Byte>, b: Byte)
    requires bs != [] && (bs[0] == ESCAPE ==> |bs| >= 2)
    ensures TakeEscaped(bs, 1) == if bs[0] == ESCAPE then Some(([bs[1]], bs[2..])) else Some(([bs[0]], bs[1..]))
    ensures FromBytes([b]) == b
  {
    var skip := if bs[0] == ESCAPE then 1 else 0;
    assert TakeEscaped(bs[skip + 1..], 0) == Some(([], bs[skip + 1..]));
    assert [bs[skip]] + [] == [bs[skip]];
    assert FromBytes([b]) == [b][0] + 256 * FromBytes([b][1..]);
  }

  function IntShapes(widths: seq<nat>): (shapes: seq<Shape>)
    ensures |shapes| == |widths|
  {
    if widths == [] then [] else [NumShape(widths[0])] + IntShapes(widths[1..])
  }

  /** Taking bytes from an escaped stretch takes them from its payload. */
  lemma {:induction false} TakeNeutral(raw: seq<Byte>, after: seq<Byte>, n: nat) returns (left: seq<Byte>)
    requires Neutral(raw) && n <= |Payload(raw)|
    ensures Neutral(left) && Payload(left) == Payload(raw)[n..]
    ensures TakeEscaped(raw + after, n) == Some((Payload(raw)[..n], left + after))
    ensures n <= |raw|
    decreases n
  {
    if n == 0 {
      left := raw;
    } else {
      var b, tail := NeutralHead(raw, after, n);
      left := TakeNeutral(tail, after, n - 1);
      assert [b] + Payload(tail)[..n - 1] == ([b] + Payload(tail))[..n];
      assert Payload(tail)[n - 1..] == ([b] + Payload(tail))[n..];
    }
  }

  lemma NeutralHead(raw: seq<Byte>, after: seq<Byte>, n: nat) returns (b: Byte, tail: seq<Byte>)
    requires Neutral(raw) && 1 <= n <= |Payload(raw)|
    ensures Neutral(tail) && |tail| < |raw| && Payload(raw) == [b] + Payload(tail)
    ensures TakeEscaped(raw + after, n) == Prepend([b], TakeEscaped(tail + after, n - 1))
  {
    var skip := if raw[0] == ESCAPE then 1 else 0;
    b, tail := raw[skip], raw[skip + 1..];
    assert (raw + after)[skip + 1..] == tail + after;
    assert (raw + after)[skip] == b && (raw + after)[0] == raw[0];
  }

  /** On the properties of a node, the two readers return the same integers. `FileStream` stops
      where `PropStream` stops: `left` is the escaped form of what is still unread, so a
      reader that takes the whole payload ends exactly behind the escaped bytes. */
  lemma {:induction false} StreamAgrees(raw: seq<Byte>, after: seq<Byte>, widths: seq<nat>)
    returns (left: seq<Byte>)
    requires Neutral(raw) && ReadFields(Unescape(raw, false), IntShapes(widths)).Some?
    ensures var (fs, unread) := ReadFields(Unescape(raw, false), IntShapes(widths)).value;
            StreamInts(raw + after, widths) == Some((fs, left + after))
            && Neutral(left) && Unescape(left, false) == unread && (unread == [] ==> left == [])
    decreases widths
  {
    UnescapeIsPayload(raw);
    if widths == [] {
      left := raw;
    } else {
      var w, payload := widths[0], Payload(raw);
      var left1 := TakeNeutral(raw, after, w);
      UnescapeIsPayload(left1);
      assert IntShapes(widths)[1..] == IntShapes(widths[1..]);
      left := StreamAgrees(left1, after, widths[1..]);
    }
  }

  /** On every node of every accepted file, `FileStream` from the first property byte on reads the
      integers that `PropStream` reads from what `getProps` returns, and when the properties are
      used up it stands where they end. */
  lemma NodeReadersAgree(file: seq<Byte>, i: nat, widths: seq<nat>)
    requires |file| >= 8 && ParseTreeSpec(file).Ok? && i < |Preorder(ParseTreeSpec(file).root)|
    requires var n := Preorder(ParseTreeSpec(file).root)[i];
             n.propsBegin <= n.propsEnd <= |file|
             && ReadFields(Unescape(file[n.propsBegin..n.propsEnd], false), IntShapes(widths)).Some?
    ensures var n := Preorder(ParseTreeSpec(file).root)[i];
            var (fs, unread) := ReadFields(Unescape(file[n.propsBegin..n.propsEnd], false), IntShapes(widths)).value;
            && StreamInts(file[n.propsBegin..], widths).Some?
            && StreamInts(file[n.propsBegin..], widths).value.0 == fs
            && (unread == [] ==> StreamInts(file[n.propsBegin..], widths).value.1 == file[n.propsEnd..])
  {
    ParsedRanges(file);
    var n := Preorder(ParseTreeSpec(file).root)[i];
    assert SoundRange(file, n);
    var raw, after := file[n.propsBegin..n.propsEnd], file[n.propsEnd..];
    assert file[n.propsBegin..] == raw + after;
    var left := StreamAgrees(raw, after, widths);
    assert [] + after == after;
  }

  // ---------------------------------------------------------------- single bytes

  /** `getU8` at position `pos`: the byte, and where the cursor goes. At the end of the data it
      yields 0 and stays. */
  function Next(data: seq<Byte>, pos: nat, nested: bool): (Byte, nat) {
    if pos >= |data| then (0, pos)
    else if nested && data[pos] == ESCAPE && pos + 1 < |data| then (data[pos + 1], pos + 2)
    else (data[pos], pos + 1)
  }

  /** The byte at `pos` is there and is not an escape that the reader would step over. */
  predicate Plain(data: seq<Byte>, pos: nat, nested: bool) {
    pos < |data| && !(nested && data[pos] == ESCAPE)
  }

  /** Inside an open node the type byte of a child is read with escapes, which the loader does
      not do: the readers agree on it exactly when it is not the ESCAPE byte. */
  lemma ChildTypeAgrees(d: Doc, rest: seq<Byte>)
    ensures Next(Render(d) + rest, 1, true) == (d.typ, 2) <==> d.typ != ESCAPE
  {
    var bs := Render(d) + rest;
    assert bs[1] == d.typ && |bs| >= 3;
  }

  /** Inside a node, `getU8` on properties returns their first byte unescaped, and with it anything
      that `startNode` and `endNode` look for: they take the properties for a node's start or end
      exactly when that byte is START or END. The loader sees a property. */
  lemma PropertyByte(raw: seq<Byte>, after: seq<Byte>)
    requires Neutral(raw) && raw != []
    ensures Next(raw + after, 0, true) == (Payload(raw)[0], if raw[0] == ESCAPE then 2 else 1)
    ensures Next(raw + after, 0, true).0 == START <==> Payload(raw)[0] == START
    ensures Next(raw + after, 0, true).0 == END <==> Payload(raw)[0] == END
  {
    var bs := raw + after;
    assert bs[0] == raw[0] && (|raw| >= 2 ==> bs[1] == raw[1]);
  }

  /** Where the properties end, on every node of every accepted file, both can be trusted. */
  lemma PropertiesEnd(file: seq<Byte>, i: nat)
    requires |file| >= 8 && ParseTreeSpec(file).Ok? && i < |Preorder(ParseTreeSpec(file).root)|
    ensures var at := Preorder(ParseTreeSpec(file).root)[i].propsEnd;
            && at < |file| && Next(file, at, true) == (file[at], at + 1)
            && (file[at] == START || file[at] == END)
  {
    ParsedRanges(file);
    assert SoundRange(file, Preorder(ParseTreeSpec(file).root)[i]);
  }

  /** The smallest misreading: one escaped START. */
  lemma EscapedStartMisread(rest: seq<Byte>)
    ensures Next(Escape([START]) + rest, 0, true).0 == START
    ensures Neutral(Escape([START]))
  {
    assert Escape([START]) == [ESCAPE, START];
    EscapeRoundTrip([START]);
  }

  /** The cursor after a step back, in 32 bits. */
  function BackFrom(pos: nat): nat {
    (pos + U32 - 1) % U32
  }

  /** `startNode`: the answer and where it leaves the cursor. */
  function Start(data: seq<Byte>, pos: nat, nested: bool, typ: Byte): (bool, nat) {
    var (b0, p1) := Next(data, pos, nested);
    if b0 != START then (false, BackFrom(p1))
    else if typ == 0 then (true, p1)
    else
      var (b1, p2) := Next(data, p1, nested);
      if b1 == typ then (true, p2) else (false, BackFrom(BackFrom(p2)))
  }

  /** The cursor survives a failure exactly when the bytes looked at were plain, or when an escaped
      START ends the data and the two errors cancel. */
  lemma SurvivesIff(data: seq<Byte>, pos: nat, nested: bool, typ: Byte)
    requires pos <= |data| < U32 - 1 && !Start(data, pos, nested, typ).0
    requires forall i :: pos <= i <= pos + 2 && i + 1 == |data| ==> !(nested && data[i] == ESCAPE)
    ensures var (b0, p1) := Next(data, pos, nested);
            Start(data, pos, nested, typ).1 == pos <==>
              if Plain(data, pos, nested) then b0 == START ==> Plain(data, p1, nested)
              else b0 == START && p1 == |data|
  {
    var (b0, p1) := Next(data, pos, nested);
    var (b1, p2) := Next(data, p1, nested);
    BackIs(p1);
    BackIs(p2);
    if p2 > 0 {
      BackIs(p2 - 1);
    }
  }

  lemma BackIs(p: nat)
    requires p < U32
    ensures BackFrom(p) == if p == 0 then U32 - 1 else p - 1
  {
  }

  // ---------------------------------------------------------------- the stream

  class FileStream {
    const m_data: seq<Byte>
    var m_nodes: nat
    var m_pos: nat

    ghost predicate Valid()
      reads this
    {
      m_pos <= |m_data| < U32 - 1 && m_nodes < U32
    }

    /** The bytes from the cursor on. */
    ghost function Rest(): seq<Byte>
      requires Valid()
      reads this
    {
      m_data[m_pos..]
    }

    constructor (bytes: seq<Byte>)
      requires |bytes| < U32 - 1
      ensures Valid() && m_data == bytes && m_nodes == 0 && m_pos == 0
    {
      m_data, m_nodes, m_pos := bytes, 0, 0;
    }

    method Seek(pos: nat)
      requires Valid()
      modifies this`m_pos
      ensures Valid() && m_pos == if pos > |m_data| then old(m_pos) else pos
    {
      if pos > |m_data| {
        return;
      }
      m_pos := pos;
    }

    /** The escaping branch of `read`. */
    method CopyEscaped(size: nat) returns (bytes: seq<Byte>)
      requires Valid() && TakeEscaped(Rest(), size).Some?
      modifies this`m_pos
      ensures Valid() && Some((bytes, Rest())) == TakeEscaped(old(Rest()), size)
    {
      ghost var want := TakeEscaped(Rest(), size);
      bytes := [];
      PrependStep([], 0, want);
      for i := 0 to size
        invariant Valid() && |bytes| == i
        invariant want == Prepend(bytes, TakeEscaped(Rest(), size - i))
      {
        ghost var before := Rest();
        assert TakeEscaped(before, size - i).Some?;
        if m_data[m_pos] == ESCAPE {
          m_pos := m_pos + 1;
        }
        ghost var skip := if before[0] == ESCAPE then 1 else 0;
        assert m_data[m_pos] == before[skip];
        bytes := bytes + [m_data[m_pos]];
        m_pos := m_pos + 1;
        assert before[skip + 1..] == Rest();
        PrependStep(bytes[..i], bytes[i], TakeEscaped(Rest(), size - i - 1));
      }
      assert bytes + [] == bytes;
    }

    /** `read<T>` for an unsigned integer of `size` bytes. With `escape`, the original indexes
        without a check of its own, so the escaped bytes have to be there. */
    method Read(size: nat, escape: bool) returns (ok: bool, ret: nat)
      requires Valid()
      requires escape && size <= |Rest()| ==> TakeEscaped(Rest(), size).Some?
      modifies this`m_pos
      ensures Valid()
      ensures ok == (size <= |old(Rest())|)
      ensures !ok ==> ret == 0 && m_pos == old(m_pos)
      ensures ok && escape ==> TakeEscaped(old(Rest()), size).Some?
                               && ret == FromBytes(TakeEscaped(old(Rest()), size).value.0)
                               && Rest() == TakeEscaped(old(Rest()), size).value.1
      ensures ok && !escape ==> ret == FromBytes(old(Rest())[..size]) && Rest() == old(Rest())[size..]
    {
      if m_pos + size > |m_data| {
        return false, 0;
      }
      if escape {
        var bytes := CopyEscaped(size);
        ret := FromBytes(bytes);
      } else {
        ret := FromBytes(m_data[m_pos..m_pos + size]);
        assert m_data[m_pos..m_pos + size] == Rest()[..size];
        m_pos := m_pos + size;
      }
      ok := true;
    }

    /** `getU16`, `getU32` and `getU64`: escapes count only inside a node, 0 on failure. */
    method GetInt(size: nat) returns (v: nat)
      requires Valid()
      requires m_nodes > 0 && size <= |Rest()| ==> TakeEscaped(Rest(), size).Some?
      modifies this`m_pos
      ensures Valid()
      ensures size > |old(Rest())| ==> v == 0 && m_pos == old(m_pos)
      ensures size <= |old(Rest())| && m_nodes > 0 ==>
                StreamInts(old(Rest()), [size]) == Some(([Num(size, v)], Rest()))
      ensures size <= |old(Rest())| && m_nodes == 0 ==>
                v == FromBytes(old(Rest())[..size]) && Rest() == old(Rest())[size..]
    {
      var ok;
      ok, v := Read(size, m_nodes > 0);
      SingleInt(old(Rest()), size);
    }

    method GetU8() returns (v: Byte)
      requires Valid()
      requires !(m_nodes > 0 && m_pos + 1 == |m_data| && m_data[m_pos] == ESCAPE)
      modifies this`m_pos
      ensures Valid()
      ensures (v, m_pos) == Next(m_data, old(m_pos), m_nodes > 0)
      ensures old(m_pos) == |m_data| ==> v == 0 && m_pos == old(m_pos)
      ensures old(m_pos) < |m_data| && m_nodes == 0 ==> v == m_data[old(m_pos)] && m_pos == old(m_pos) + 1
      ensures old(m_pos) < |m_data| && m_nodes > 0 ==>
                StreamInts(old(Rest()), [1]) == Some(([Num(1, v)], Rest()))
    {
      if m_pos + 1 > |m_data| {
        return 0;
      }
      ghost var before := Rest();
      if m_nodes > 0 && m_data[m_pos] == ESCAPE {
        m_pos := m_pos + 1;
      }
      v := m_data[m_pos];
      m_pos := m_pos + 1;
      ghost var skip := if m_nodes > 0 && before[0] == ESCAPE then 1 else 0;
      assert before[skip + 1..] == Rest();
      if m_nodes > 0 {
        SingleInt(before, 1);
        SingleByte(before, v);
      }
    }

    method Back()
      modifies this`m_pos
      ensures m_pos == BackFrom(old(m_pos))
    {
      m_pos := (m_pos + U32 - 1) % U32;
    }

    method StartNode(typ: Byte) returns (ok: bool)
      requires Valid() && m_nodes + 1 < U32
      requires forall i :: m_pos <= i <= m_pos + 2 && i + 1 == |m_data| ==>
                 !(m_nodes > 0 && m_data[i] == ESCAPE)
      modifies this
      ensures (ok, m_pos) == Start(m_data, old(m_pos), old(m_nodes > 0), typ)
      ensures var nested := old(m_nodes > 0);
              var (b0, p1) := Next(m_data, old(m_pos), nested);
              var (b1, p2) := Next(m_data, p1, nested);
              && ok == (b0 == START && (typ == 0 || b1 == typ))
              && (ok ==> m_nodes == old(m_nodes) + 1 && m_pos == if typ == 0 then p1 else p2)
              && (!ok ==> m_nodes == old(m_nodes))
              && (!ok ==> (m_pos == old(m_pos) <==>
                           if Plain(m_data, old(m_pos), nested) then b0 == START ==> Plain(m_data, p1, nested)
                           else b0 == START && p1 == |m_data|))
      ensures ok || m_pos == old(m_pos) ==> Valid()
    {
      var b := GetU8();
      if b == START {
        var matches := typ == 0;
        if !matches {
          var t := GetU8();
          matches := t == typ;
        }
        if matches {
          m_nodes := m_nodes + 1;
          return true;
        }
        Back();
      }
      Back();
      ok := false;
      SurvivesIff(m_data, old(m_pos), old(m_nodes > 0), typ);
    }

    method EndNode() returns (ok: bool)
      requires Valid()
      requires !(m_nodes > 0 && m_pos + 1 == |m_data| && m_data[m_pos] == ESCAPE)
      modifies this
      ensures var (b, p1) := Next(m_data, old(m_pos), old(m_nodes > 0));
              && ok == (b == END)
              && (ok ==> m_pos == p1 && m_nodes == (old(m_nodes) + U32 - 1) % U32)
              && (!ok ==> m_nodes == old(m_nodes))
              && (!ok ==> (m_pos == old(m_pos) <==> Plain(m_data, old(m_pos), old(m_nodes > 0))))
      ensures ok || m_pos == old(m_pos) ==> Valid()
    {
      var b := GetU8();
      if b == END {
        m_nodes := (m_nodes + U32 - 1) % U32;
        return true;
      }
      Back();
      ok := false;
    }
  }
}
