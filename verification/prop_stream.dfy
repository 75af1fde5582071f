/** `PropWriteStream` and `PropStream`: typed fields in a flat byte buffer, little-endian. */
module PropStreams {
  import opened Basics
  import opened OtbFormat

  // ---------------------------------------------------------------- integers as bytes

  function Pow256(n: nat): (p: nat)
    ensures p >= 1
  {
    if n == 0 then 1 else 256 * Pow256(n - 1)
  }

  /** The object representation of an unsigned `width`-byte integer. */
  function ToBytes(value: nat, width: nat): (bs: seq<Byte>)
    ensures |bs| == width
    decreases width
  {
    if width == 0 then [] else [value % 256] + ToBytes(value / 256, width - 1)
  }

  function FromBytes(bs: seq<Byte>): nat {
    if bs == [] then 0 else bs[0] + 256 * FromBytes(bs[1..])
  }

  lemma {:induction false} IntegerRoundTrip(value: nat, width: nat)
    requires value < Pow256(width)
    ensures FromBytes(ToBytes(value, width)) == value
    decreases width
  {
    if width > 0 {
      IntegerRoundTrip(value / 256, width - 1);
      assert ToBytes(value, width)[1..] == ToBytes(value / 256, width - 1);
    }
  }

  lemma {:induction false} BytesRoundTrip(bs: seq<Byte>)
    ensures FromBytes(bs) < Pow256(|bs|) && ToBytes(FromBytes(bs), |bs|) == bs
  {
    if bs != [] {
      BytesRoundTrip(bs[1..]);
      LowByte(bs[0], FromBytes(bs[1..]), Pow256(|bs| - 1));
      assert [bs[0]] + bs[1..] == bs;
    }
  }

  lemma LowByte(b: Byte, high: nat, limit: nat)
    requires high < limit
    ensures (b + 256 * high) % 256 == b && (b + 256 * high) / 256 == high && b + 256 * high < 256 * limit
  {
  }

  /** Little-endian: byte `i` has weight 256 to the `i`. */
  lemma {:induction false} LittleEndian(value: nat, width: nat, i: nat)
    requires i < width
    ensures ToBytes(value, width)[i] == value / Pow256(i) % 256
    decreases width
  {
    if i > 0 {
      LittleEndian(value / 256, width - 1, i - 1);
      DivTwice(value, Pow256(i - 1));
    }
  }

  lemma DivTwice(value: nat, p: nat)
    requires p >= 1
    ensures value / 256 / p == value / (256 * p)
  {
    var q := value / 256 / p;
    assert q * p <= value / 256 < (q + 1) * p;
    assert (q + 1) * p == q * p + p;
    assert 256 * (q * p) <= value < 256 * (q * p + p);
    Quotient(value, 256 * p, q);
  }

  lemma Quotient(value: nat, d: nat, q: nat)
    requires d >= 1 && d * q <= value < d * q + d
    ensures value / d == q
  {
    var r := value - d * q;
    assert value == d * q + r;
    var k := value / d;
    if k < q {
      Scale(k + 1, q, d);
    } else if k > q {
      Scale(q + 1, k, d);
    }
  }

  // ---------------------------------------------------------------- fields

  const MAX_STRING: nat := 65535

  datatype Field = Num(width: nat, value: nat) | Text(bytes: seq<Byte>)
  datatype Shape = NumShape(width: nat) | TextShape

  predicate Fits(f: Field) {
    f.Num? ==> f.value < Pow256(f.width)
  }

  function ShapeOf(f: Field): Shape {
    match f
    case Num(width, _) => NumShape(width)
    case Text(_) => TextShape
  }

  /** What a written field reads back as: a string that is too long comes back empty. */
  function Stored(f: Field): Field {
    if f.Text? && |f.bytes| > MAX_STRING then Text([]) else f
  }

  function WriteField(f: Field): seq<Byte> {
    match f
    case Num(width, value) => ToBytes(value, width)
    case Text(bytes) =>
      if |bytes| > MAX_STRING then ToBytes(0, 2) else ToBytes(|bytes|, 2) + bytes
  }

  /** A string is preceded by its length in two bytes, the lower first. */
  lemma TextBytes(str: seq<Byte>)
    requires |str| <= MAX_STRING
    ensures WriteField(Text(str)) == [|str| % 256, |str| / 256] + str
  {
    assert ToBytes(|str|, 2) == [|str| % 256] + ToBytes(|str| / 256, 1);
    assert ToBytes(|str| / 256, 1) == [|str| / 256 % 256] + ToBytes(|str| / 256 / 256, 0);
  }

  function WriteFields(fs: seq<Field>): seq<Byte> {
    if fs == [] then [] else WriteField(fs[0]) + WriteFields(fs[1..])
  }

  function ReadField(bs: seq<Byte>, shape: Shape): Option<(Field, seq<Byte>)> {
    match shape
    case NumShape(width) =>
      if |bs| < width then None else Some((Num(width, FromBytes(bs[..width])), bs[width..]))
    case TextShape =>
      if |bs| < 2 then None
      else
        var len := FromBytes(bs[..2]);
        if |bs| - 2 < len then None else Some((Text(bs[2..2 + len]), bs[2 + len..]))
  }

  function ReadFields(bs: seq<Byte>, shapes: seq<Shape>): Option<(seq<Field>, seq<Byte>)> {
    if shapes == [] then Some(([], bs))
    else match ReadField(bs, shapes[0])
      case None => None
      case Some((f, rest)) =>
        match ReadFields(rest, shapes[1..])
        case None => None
        case Some((fs, end)) => Some(([f] + fs, end))
  }

  function Shapes(fs: seq<Field>): (shapes: seq<Shape>)
    ensures |shapes| == |fs|
  {
    if fs == [] then [] else [ShapeOf(fs[0])] + Shapes(fs[1..])
  }

  function StoredAll(fs: seq<Field>): (stored: seq<Field>)
    ensures |stored| == |fs|
  {
    if fs == [] then [] else [Stored(fs[0])] + StoredAll(fs[1..])
  }

  lemma FieldRoundTrip(f: Field, rest: seq<Byte>)
    requires Fits(f)
    ensures ReadField(WriteField(f) + rest, ShapeOf(f)) == Some((Stored(f), rest))
  {
    var bs := WriteField(f) + rest;
    match f
    case Num(width, value) =>
      IntegerRoundTrip(value, width);
      assert bs[..width] == ToBytes(value, width);
    case Text(bytes) =>
      var stored := Stored(f).bytes;
      assert Pow256(2) == 65536;
      IntegerRoundTrip(|stored|, 2);
      assert bs == ToBytes(|stored|, 2) + stored + rest;
      assert bs[..2] == ToBytes(|stored|, 2);
      assert bs[2..2 + |stored|] == stored;
  }

  /** Everything written is read back in order, and nothing is left over. */
  lemma {:induction false} FieldsRoundTrip(fs: seq<Field>, rest: seq<Byte>)
    requires forall i :: 0 <= i < |fs| ==> Fits(fs[i])
    ensures ReadFields(WriteFields(fs) + rest, Shapes(fs)) == Some((StoredAll(fs), rest))
  {
    if fs == [] {
      assert WriteFields(fs) + rest == rest;
    } else {
      assert WriteFields(fs) + rest == WriteField(fs[0]) + (WriteFields(fs[1..]) + rest);
      FieldRoundTrip(fs[0], WriteFields(fs[1..]) + rest);
      FieldsRoundTrip(fs[1..], rest);
      assert Shapes(fs)[1..] == Shapes(fs[1..]);
    }
  }

  lemma FieldReadIsWritten(bs: seq<Byte>, shape: Shape)
    requires ReadField(bs, shape).Some?
    ensures var (f, rest) := ReadField(bs, shape).value;
            bs == WriteField(f) + rest && ShapeOf(f) == shape && Fits(f) && Stored(f) == f
  {
    var (f, rest) := ReadField(bs, shape).value;
    match shape
    case NumShape(width) =>
      BytesRoundTrip(bs[..width]);
    case TextShape =>
      assert Pow256(2) == 65536;
      BytesRoundTrip(bs[..2]);
      assert bs == bs[..2] + bs[2..2 + |f.bytes|] + rest;
  }

  /** Whatever a sequence of reads accepts is exactly what writing the fields read would produce. */
  lemma {:induction false} ReadsOnlyWritten(bs: seq<Byte>, shapes: seq<Shape>)
    requires ReadFields(bs, shapes).Some?
    ensures var (fs, rest) := ReadFields(bs, shapes).value;
            bs == WriteFields(fs) + rest && Shapes(fs) == shapes && StoredAll(fs) == fs
            && forall i :: 0 <= i < |fs| ==> Fits(fs[i])
  {
    if shapes != [] {
      var (f, after) := ReadField(bs, shapes[0]).value;
      FieldReadIsWritten(bs, shapes[0]);
      ReadsOnlyWritten(after, shapes[1..]);
      var (fs, rest) := ReadFields(after, shapes[1..]).value;
      assert ([f] + fs)[1..] == fs;
      assert bs == WriteField(f) + (WriteFields(fs) + rest);
    }
  }

  // ---------------------------------------------------------------- the streams

  lemma LengthField(str: seq<Byte>)
    ensures WriteField(Text(str))
         == if |str| > MAX_STRING then WriteField(Num(2, 0)) else WriteField(Num(2, |str|)) + str
    ensures Pow256(2) == 65536
  {
  }

  class PropWriteStream {
    var buffer: seq<Byte>

    constructor ()
      ensures buffer == []
    {
      buffer := [];
    }

    method Clear()
      modifies this
      ensures buffer == []
    {
      buffer := [];
    }

    method Write(value: nat, width: nat)
      requires value < Pow256(width)
      modifies this
      ensures buffer == old(buffer) + WriteField(Num(width, value))
    {
      buffer := buffer + ToBytes(value, width);
    }

    method WriteString(str: seq<Byte>)
      modifies this
      ensures buffer == old(buffer) + WriteField(Text(str))
    {
      LengthField(str);
      if |str| > MAX_STRING {
        Write(0, 2);
        return;
      }
      Write(|str|, 2);
      buffer := buffer + str;
    }
  }

  class PropStream {
    var data: seq<Byte>
    var p: nat

    ghost predicate Valid()
      reads this
    {
      p <= |data|
    }

    /** The bytes not read yet. */
    ghost function Rest(): seq<Byte>
      requires Valid()
      reads this
    {
      data[p..]
    }

    constructor ()
      ensures Valid() && Rest() == []
    {
      data, p := [], 0;
    }

    method Init(bytes: seq<Byte>)
      modifies this
      ensures Valid() && Rest() == bytes && p == 0
    {
      data, p := bytes, 0;
    }

    method Size() returns (n: nat)
      requires Valid()
      ensures n == |Rest()|
    {
      n := |data| - p;
    }

    /** A failed read leaves the cursor where it was. */
    method Read(width: nat) returns (ok: bool, ret: nat)
      requires Valid()
      modifies this
      ensures Valid() && data == old(data)
      ensures match ReadField(old(Rest()), NumShape(width))
              case None => !ok && p == old(p)
              case Some((f, rest)) => ok && ret == f.value && Rest() == rest
    {
      var size := Size();
      if size < width {
        return false, 0;
      }
      ret := FromBytes(data[p..p + width]);
      assert data[p..p + width] == Rest()[..width];
      p := p + width;
      ok := true;
    }

    /** A failed string read has still consumed the length when the length itself was there. */
    method ReadString() returns (ok: bool, ret: seq<Byte>)
      requires Valid()
      modifies this
      ensures Valid() && data == old(data)
      ensures match ReadField(old(Rest()), TextShape)
              case None => !ok && p == (if |old(Rest())| < 2 then old(p) else old(p) + 2)
              case Some((f, rest)) => ok && ret == f.bytes && Rest() == rest
    {
      var gotLength, length := Read(2);
      if !gotLength {
        return false, [];
      }
      var size := Size();
      if size < length {
        return false, [];
      }
      ret := data[p..p + length];
      p := p + length;
      ok := true;
    }

    method Skip(n: nat) returns (ok: bool)
      requires Valid()
      modifies this
      ensures Valid() && data == old(data)
      ensures ok == (n <= |old(Rest())|)
      ensures if ok then Rest() == old(Rest())[n..] else p == old(p)
    {
      var size := Size();
      if size < n {
        return false;
      }
      p := p + n;
      ok := true;
    }
  }
}
