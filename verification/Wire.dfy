/** The wire grammar that all bodies are written in: a body is a sequence of
    fields, each a big-endian number or a string after its length.  Printing is
    defined on any field list; parsing follows a list of field types. */
module Wire {
  import opened Options
  import opened Bytes

  /** `w` is the width in bytes of a number or of a string's length prefix. */
  datatype Type = NumType(w: nat) | StrType(w: nat)

  datatype Value = Num(w: nat, n: nat) | Str(w: nat, s: bytes) {
    function TypeOf(): Type {
      match this
      case Num(w, _) => NumType(w)
      case Str(w, _) => StrType(w)
    }

    /** The field can be read back: its number or length fits its width. */
    predicate Fits() {
      match this
      case Num(w, n) => n < Pow256(w)
      case Str(w, s) => |s| < Pow256(w)
    }
  }

  predicate AllFit(vs: seq<Value>) {
    forall i :: 0 <= i < |vs| ==> vs[i].Fits()
  }

  predicate Typed(vs: seq<Value>, ts: seq<Type>) {
    |vs| == |ts| && forall i :: 0 <= i < |vs| ==> vs[i].TypeOf() == ts[i]
  }

  /** A string that does not fit its prefix is still written whole, after the
      low bytes of its length. */
  function PrintValue(v: Value): bytes {
    match v
    case Num(w, n) => BigEndian(n, w)
    case Str(w, s) => BigEndian(|s|, w) + s
  }

  function Print(vs: seq<Value>): bytes {
    if vs == [] then [] else Print(vs[..|vs| - 1]) + PrintValue(vs[|vs| - 1])
  }

  /** Read one field off the front of `b`; `None` when `b` is too short. */
  function ParseValue(t: Type, b: bytes): (r: Option<(Value, bytes)>) {
    if |b| < t.w then None
    else
      var n := FromBigEndian(b[..t.w]);
      match t
      case NumType(w) => Some((Num(w, n), b[w..]))
      case StrType(w) =>
        if |b| - w < n then None else Some((Str(w, b[w..w + n]), b[w + n..]))
  }

  /** Read the fields of types `ts` off the front of `b`: the fields and what is left. */
  function Parse(ts: seq<Type>, b: bytes): (r: Option<(seq<Value>, bytes)>) {
    if ts == [] then Some(([], b))
    else
      var (vs, b') :- Parse(ts[..|ts| - 1], b);
      var (v, rest) :- ParseValue(ts[|ts| - 1], b');
      Some((vs + [v], rest))
  }

  lemma ConcatAssociative(a: bytes, b: bytes, c: bytes)
    ensures (a + b) + c == a + (b + c)
  {
  }

  // Fields that were appended one after another, as one list.

  lemma Append2<T>(s: seq<T>, a: T, b: T)
    ensures s + [a] + [b] == s + [a, b]
  {
  }

  lemma Append3<T>(s: seq<T>, a: T, b: T, c: T)
    ensures s + [a] + [b] + [c] == s + [a, b, c]
  {
  }

  lemma Append6<T>(a: T, b: T, c: T, d: T, e: T, f: T)
    ensures [] + [a] + [b] + [c] + [d] + [e] + [f] == [a, b, c, d, e, f]
  {
  }

  lemma PrintSnoc(vs: seq<Value>, v: Value)
    ensures Print(vs + [v]) == Print(vs) + PrintValue(v)
  {
    assert (vs + [v])[..|vs|] == vs;
  }

  lemma ParseSnoc(ts: seq<Type>, t: Type, b: bytes)
    ensures Parse(ts + [t], b) ==
            match Parse(ts, b)
            case None => None
            case Some((vs, b')) =>
              match ParseValue(t, b')
              case None => None
              case Some((v, rest)) => Some((vs + [v], rest))
  {
    assert (ts + [t])[..|ts|] == ts;
  }

  lemma {:induction false} PrintAppend(vs: seq<Value>, ws: seq<Value>)
    ensures Print(vs + ws) == Print(vs) + Print(ws)
  {
    if ws == [] {
      assert vs + ws == vs;
    } else {
      var ws', w := ws[..|ws| - 1], ws[|ws| - 1];
      assert vs + ws == (vs + ws') + [w];
      PrintSnoc(vs + ws', w);
      PrintAppend(vs, ws');
      ConcatAssociative(Print(vs), Print(ws'), PrintValue(w));
    }
  }

  lemma PrintCons(vs: seq<Value>)
    requires vs != []
    ensures Print(vs) == PrintValue(vs[0]) + Print(vs[1..])
  {
    hide PrintValue;
    PrintSnoc([], vs[0]);
    assert [] + [vs[0]] == [vs[0]] && [] + PrintValue(vs[0]) == PrintValue(vs[0]);
    PrintAppend([vs[0]], vs[1..]);
    assert [vs[0]] + vs[1..] == vs;
  }

  lemma ParseValueOfPrintValue(v: Value, rest: bytes)
    requires v.Fits()
    ensures ParseValue(v.TypeOf(), PrintValue(v) + rest) == Some((v, rest))
  {
    var b := PrintValue(v) + rest;
    var n := if v.Num? then v.n else |v.s|;
    assert b[..v.w] == BigEndian(n, v.w);
    FromBigEndianOfBigEndian(n, v.w);
    if v.Str? {
      assert b[v.w..v.w + n] == v.s;
      assert b[v.w + n..] == rest;
    } else {
      assert b[v.w..] == rest;
    }
  }

  lemma PrintValueOfParseValue(t: Type, b: bytes)
    ensures match ParseValue(t, b)
            case None => true
            case Some((v, rest)) => v.TypeOf() == t && v.Fits() && PrintValue(v) + rest == b
  {
    hide BigEndian, FromBigEndian, Pow256;
    if ParseValue(t, b).Some? {
      BigEndianOfFromBigEndian(b[..t.w]);
      match t
      case NumType(w) => assert b == b[..w] + b[w..];
      case StrType(w) =>
        var n := FromBigEndian(b[..w]);
        assert b == b[..w] + b[w..w + n] + b[w + n..];
    }
  }

  /** Reading what was printed gives the fields back and leaves what follows. */
  lemma {:induction false} ParseOfPrint(vs: seq<Value>, ts: seq<Type>, rest: bytes)
    requires Typed(vs, ts) && AllFit(vs)
    ensures Parse(ts, Print(vs) + rest) == Some((vs, rest))
  {
    if vs == [] {
      assert Print(vs) + rest == rest;
    } else {
      var vs', v := vs[..|vs| - 1], vs[|vs| - 1];
      var ts', t := ts[..|ts| - 1], ts[|ts| - 1];
      assert vs == vs' + [v] && ts == ts' + [t];
      ConcatAssociative(Print(vs'), PrintValue(v), rest);
      ParseOfPrint(vs', ts', PrintValue(v) + rest);
      ParseValueOfPrintValue(v, rest);
      ParseSnoc(ts', t, Print(vs) + rest);
    }
  }

  /** Whatever is read has the types asked for, fits, and prints to the bytes consumed. */
  lemma {:induction false} PrintOfParse(ts: seq<Type>, b: bytes)
    requires Parse(ts, b).Some?
    ensures Typed(Parse(ts, b).value.0, ts) && AllFit(Parse(ts, b).value.0)
    ensures Print(Parse(ts, b).value.0) + Parse(ts, b).value.1 == b
  {
    if ts != [] {
      var ts', t := ts[..|ts| - 1], ts[|ts| - 1];
      assert ts == ts' + [t];
      ParseSnoc(ts', t, b);
      PrintOfParse(ts', b);
      var (vs, b') := Parse(ts', b).value;
      var (v, rest) := ParseValue(t, b').value;
      PrintOfOneMore(vs, ts', t, b', b);
    }
  }

  lemma PrintOfOneMore(vs: seq<Value>, ts: seq<Type>, t: Type, b': bytes, b: bytes)
    requires Typed(vs, ts) && AllFit(vs) && Print(vs) + b' == b && ParseValue(t, b').Some?
    ensures var (v, rest) := ParseValue(t, b').value;
            Typed(vs + [v], ts + [t]) && AllFit(vs + [v]) && Print(vs + [v]) + rest == b
  {
    hide Print, ParseValue, PrintValue;
    PrintValueOfParseValue(t, b');
    var (v, rest) := ParseValue(t, b').value;
    PrintSnoc(vs, v);
    ConcatAssociative(Print(vs), PrintValue(v), rest);
  }

  /** Exact: a field list survives printing and reading if and only if every field fits. */
  lemma ParseOfPrintExact(vs: seq<Value>, ts: seq<Type>, rest: bytes)
    requires Typed(vs, ts)
    ensures (exists r :: Parse(ts, Print(vs) + rest) == Some((vs, r))) <==> AllFit(vs)
  {
    if AllFit(vs) {
      ParseOfPrint(vs, ts, rest);
    } else {
      if exists r :: Parse(ts, Print(vs) + rest) == Some((vs, r)) {
        PrintOfParse(ts, Print(vs) + rest);
      }
    }
  }

  /** Bytes appended to the input stay unread. */
  lemma ParseExtends(ts: seq<Type>, b: bytes, more: bytes)
    requires Parse(ts, b).Some?
    ensures Parse(ts, b + more) == Some((Parse(ts, b).value.0, Parse(ts, b).value.1 + more))
  {
    PrintOfParse(ts, b);
    var (vs, rest) := Parse(ts, b).value;
    ParseOfPrint(vs, ts, rest + more);
    ConcatAssociative(Print(vs), rest, more);
  }

  /** The first byte printed is the first field, when that is a single byte. */
  lemma PrintHead(vs: seq<Value>)
    requires vs != [] && vs[0].Num? && vs[0].w == 1 && vs[0].Fits()
    ensures Print(vs) != [] && Print(vs)[0] == vs[0].n
  {
    hide Print, BigEndian;
    PrintCons(vs);
    OneByte(vs[0].n);
    assert Pow256(1) == 256;
  }
}
