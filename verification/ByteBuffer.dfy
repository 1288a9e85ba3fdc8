/** The growing buffer behind every codec.  Its package is not part of the
    repository, so this class states the behaviour the codecs rely on: writes
    append, reads move a cursor, numbers are big-endian, and a string follows
    an unsigned length prefix of 8, 16 or 32 bits. */
module ByteBuffers {
  import opened Options
  import opened Bytes
  import opened Wire

  class ByteBuffer {
    var data: bytes
    var off: nat
    var short: bool  // a read went past the end
    ghost var base: bytes  // the contents the buffer was created with
    ghost var written: seq<Value>  // the fields appended since
    ghost var types: seq<Type>  // the types of the fields read so far
    ghost var taken: seq<Value>  // the fields read so far

    /** What was written prints to the data; what was read parses from it. */
    ghost predicate Valid()
      reads this
    {
      && off <= |data|
      && data == base + Print(written)
      && Parse(types, data) == Outcome()
    }

    ghost function Outcome(): Option<(seq<Value>, bytes)>
      requires off <= |data|
      reads this
    {
      if short then None else Some((taken, data[off..]))
    }

    constructor (initial: bytes)
      ensures Valid() && data == base == initial && off == 0 && !short
      ensures written == [] && types == [] && taken == []
    {
      data := initial;
      off := 0;
      short := false;
      base := initial;
      written, types, taken := [], [], [];
    }

    /** The unread bytes: everything written, when nothing was read. */
    method Bytes() returns (b: bytes)
      requires Valid()
      ensures b == data[off..]
      ensures off == 0 ==> b == base + Print(written)
      ensures off == 0 && base == [] ==> b == Print(written)
    {
      b := data[off..];
      assert [] + Print(written) == Print(written);
    }

    method Append(v: Value)
      requires Valid() && !short
      modifies this
      ensures Valid() && written == old(written) + [v] && data == old(data) + PrintValue(v)
      ensures base == old(base) && off == old(off) && types == old(types) && taken == old(taken) && !short
    {
      hide Print, Parse, PrintValue;
      PrintSnoc(written, v);
      ConcatAssociative(base, Print(written), PrintValue(v));
      ParseExtends(types, data, PrintValue(v));
      assert (data + PrintValue(v))[off..] == data[off..] + PrintValue(v);
      data := data + PrintValue(v);
      written := written + [v];
    }

    method WriteByte(n: byte)
      requires Valid() && !short
      modifies this
      ensures Valid() && written == old(written) + [Num(1, n)]
      ensures base == old(base) && off == old(off) && types == old(types) && taken == old(taken) && !short
    {
      Append(Num(1, n));
    }

    method WriteUint16(n: uint16)
      requires Valid() && !short
      modifies this
      ensures Valid() && written == old(written) + [Num(2, n)]
      ensures base == old(base) && off == old(off) && types == old(types) && taken == old(taken) && !short
    {
      Append(Num(2, n));
    }

    method WriteUint32(n: uint32)
      requires Valid() && !short
      modifies this
      ensures Valid() && written == old(written) + [Num(4, n)]
      ensures base == old(base) && off == old(off) && types == old(types) && taken == old(taken) && !short
    {
      Append(Num(4, n));
    }

    method WriteInt64(n: int64)
      requires Valid() && !short
      modifies this
      ensures Valid() && written == old(written) + [Num(8, ToUint64(n))]
      ensures base == old(base) && off == old(off) && types == old(types) && taken == old(taken) && !short
    {
      Append(Num(8, ToUint64(n)));
    }

    method WriteString8Length(s: bytes)
      requires Valid() && !short
      modifies this
      ensures Valid() && written == old(written) + [Str(1, s)]
      ensures base == old(base) && off == old(off) && types == old(types) && taken == old(taken) && !short
    {
      Append(Str(1, s));
    }

    method WriteString16Length(s: bytes)
      requires Valid() && !short
      modifies this
      ensures Valid() && written == old(written) + [Str(2, s)]
      ensures base == old(base) && off == old(off) && types == old(types) && taken == old(taken) && !short
    {
      Append(Str(2, s));
    }

    method WriteString32Length(s: bytes)
      requires Valid() && !short
      modifies this
      ensures Valid() && written == old(written) + [Str(4, s)]
      ensures base == old(base) && off == old(off) && types == old(types) && taken == old(taken) && !short
    {
      Append(Str(4, s));
    }

    /** Read the next field.  When the input ends inside it the buffer is
        `short` from then on, and the result is a zero value. */
    method Take(t: Type) returns (v: Value)
      requires Valid()
      modifies this
      ensures Valid() && data == old(data)
      ensures v.TypeOf() == t && v.Fits()
      ensures types == old(types) + [t] && taken == old(taken) + [v]
      ensures old(short) ==> short
      ensures short ==> v == match t { case NumType(w) => Num(w, 0) case StrType(w) => Str(w, []) }
      ensures !short ==> PrintValue(v) <= old(data[off..])
      ensures short && !old(short) ==> ParseValue(t, old(data[off..])).None?
    {
      hide Print, Parse, PrintValue, ParseValue, BigEndian, FromBigEndian, Pow256;
      ParseSnoc(types, t, data);
      var parsed := ParseValue(t, data[off..]);
      if short || parsed.None? {
        short := true;
        v := match t case NumType(w) => Num(w, 0) case StrType(w) => Str(w, []);
      } else {
        PrintValueOfParseValue(t, data[off..]);
        v := parsed.value.0;
        assert PrintValue(v) + parsed.value.1 == data[off..];
        assert data[off + |PrintValue(v)|..] == data[off..][|PrintValue(v)|..] == parsed.value.1;
        off := off + |PrintValue(v)|;
      }
      types, taken := types + [t], taken + [v];
    }

    method ReadByte() returns (n: byte)
      requires Valid()
      modifies this
      ensures Valid() && data == old(data)
      ensures types == old(types) + [NumType(1)] && taken == old(taken) + [Num(1, n)]
      ensures old(short) ==> short
      ensures if short then n == 0 else old(off) < |data| && n == data[old(off)]
      ensures short && !old(short) ==> old(off) == |data|
    {
      var v := Take(NumType(1));
      assert Pow256(1) == 256;
      OneByte(v.n);
      n := v.n;
    }

    method ReadUInt16() returns (x: uint16)
      requires Valid()
      modifies this
      ensures Valid() && data == old(data)
      ensures types == old(types) + [NumType(2)] && taken == old(taken) + [Num(2, x)]
      ensures old(short) ==> short
    {
      var v := Take(NumType(2));
      assert Pow256(2) == 0x1_0000;
      x := v.n;
    }

    method ReadUInt32() returns (x: uint32)
      requires Valid()
      modifies this
      ensures Valid() && data == old(data)
      ensures types == old(types) + [NumType(4)] && taken == old(taken) + [Num(4, x)]
      ensures old(short) ==> short
    {
      var v := Take(NumType(4));
      assert Pow256(4) == 0x1_0000_0000;
      x := v.n;
    }

    method ReadUInt64() returns (x: nat)
      requires Valid()
      modifies this
      ensures Valid() && data == old(data)
      ensures types == old(types) + [NumType(8)] && taken == old(taken) + [Num(8, x)]
      ensures old(short) ==> short
    {
      var v := Take(NumType(8));
      x := v.n;
    }

    method ReadString8Length() returns (x: bytes)
      requires Valid()
      modifies this
      ensures Valid() && data == old(data)
      ensures types == old(types) + [StrType(1)] && taken == old(taken) + [Str(1, x)]
      ensures old(short) ==> short
    {
      var v := Take(StrType(1));
      x := v.s;
    }

    method ReadString16Length() returns (x: bytes)
      requires Valid()
      modifies this
      ensures Valid() && data == old(data)
      ensures types == old(types) + [StrType(2)] && taken == old(taken) + [Str(2, x)]
      ensures old(short) ==> short
    {
      var v := Take(StrType(2));
      x := v.s;
    }

    method ReadString32Length() returns (x: bytes)
      requires Valid()
      modifies this
      ensures Valid() && data == old(data)
      ensures types == old(types) + [StrType(4)] && taken == old(taken) + [Str(4, x)]
      ensures old(short) ==> short
    {
      var v := Take(StrType(4));
      x := v.s;
    }
  }
}
