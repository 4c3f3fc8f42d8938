/** The decoder reads exactly what the encoding wrote, wherever it stands. */
module BorshRoundTrip {
  import opened Totals
  import opened Utf8
  import opened LittleEndian
  import opened TextFormat
  import opened IdlLimits
  import opened BorshModel

  lemma {:induction false} BytesLowest(u: nat, n: nat)
    ensures Bytes(u, n) == Lowest(u, n, 256)
    decreases n
  {
    if n > 0 {
      BytesLowest(u / 256, n - 1);
    }
  }

  /** Reading the bytes of a number, with anything behind them, gives the number. */
  lemma NumberRead(u: nat, n: nat, post: seq<Byte>)
    requires u < Pow(256, n)
    ensures var b := Bytes(u, n) + post; b[..n] == Bytes(u, n) && b[n..] == post && Value(b[..n], 256) == u
  {
    BytesLowest(u, n);
    ValueLowest(u, n, 256);
    assert (Bytes(u, n) + post)[..n] == Bytes(u, n);
  }

  lemma Pow4()
    ensures Pow(256, 4) == 0x1_0000_0000
  {
    assert Pow(256, 2) == 65536;
  }

  lemma Split(a: seq<Byte>, b: seq<Byte>, n: nat)
    requires n == |a|
    ensures (a + b)[..n] == a && (a + b)[n..] == b
  {
  }

  lemma Assoc(a: seq<Byte>, b: seq<Byte>, c: seq<Byte>)
    ensures (a + b) + c == a + (b + c)
  {
  }

  // ------------------------------------------------------------- primitives

  lemma TextRead(idl: Idl, s: string, post: seq<Byte>)
    requires |Utf8.Encode(s)| < Pow(256, 4)
    ensures DecodePrimitive(idl, Text, Encoding(VText(s)) + post) == Some((Str(s), |Encoding(VText(s))|))
  {
    var e := Utf8.Encode(s);
    var len := Bytes(|e|, 4);
    Assoc(len, e, post);
    NumberRead(|e|, 4, e + post);
    DecodeEncode(s);
    var b := len + (e + post);
    assert b[4..4 + |e|] == e by {
      assert b[4..] == e + post;
      assert b[4..4 + |e|] == b[4..][..|e|];
    }
  }

  lemma PrimitiveRead(idl: Idl, p: Primitive, v: Val, e: seq<Byte>, post: seq<Byte>)
    requires RenderPrimitive(idl, p, v).Some? && EncodedAs(v, e)
    ensures DecodePrimitive(idl, p, e + post) == Some((RenderPrimitive(idl, p, v).value, |e|))
  {
    hide Value, Bytes, Pow, Decimal, HexBytes, Utf8.Encode, Utf8.Decode;
    match p
    case Boolean =>
    case UInt(w) => NumberRead(v.u, w, post);
    case SInt(w) =>
      SignedUnsigned(v.i, Pow(256, w));
      NumberRead(Clamp(Unsigned(v.i, Pow(256, w))), w, post);
    case Account => Split(v.bytes, post, 32);
    case Program => Split(v.bytes, post, 32);
    case Text => TextRead(idl, v.s, post);
    case NotPrimitive =>
  }

  // ------------------------------------------------------------- accepted bytes

  lemma {:induction false} SameLength(v: Val, e: seq<Byte>)
    requires EncodedAs(v, e)
    ensures |e| == |Encoding(v)|
    decreases v
  {
    hide Bytes;
    match v
    case VSome(x) => SameLength(x, e[1..]);
    case VVec(vs) => SameLengths(vs, e[4..]);
    case VSeq(vs) => SameLengths(vs, e);
    case VEnum(_, vs) => SameLengths(vs, e[1..]);
    case _ =>
  }

  lemma {:induction false} SameLengths(vs: Vals, e: seq<Byte>)
    requires AllEncodedAs(vs, e)
    ensures |e| == |Encodings(vs)|
    decreases vs
  {
    if vs.Cons? {
      SameLengths(vs.tail, e[|Encoding(vs.head)|..]);
    }
  }

  /** The encoding itself is accepted. */
  lemma {:induction false} EncodingAccepted(v: Val)
    ensures EncodedAs(v, Encoding(v))
    decreases v
  {
    hide Bytes;
    match v
    case VSome(x) =>
      EncodingAccepted(x);
      Split([1], Encoding(x), 1);
    case VVec(vs) =>
      EncodingsAccepted(vs);
      Split(Bytes(Count(vs), 4), Encodings(vs), 4);
    case VSeq(vs) => EncodingsAccepted(vs);
    case VEnum(i, vs) =>
      EncodingsAccepted(vs);
      Split([i], Encodings(vs), 1);
    case _ =>
  }

  lemma {:induction false} EncodingsAccepted(vs: Vals)
    ensures AllEncodedAs(vs, Encodings(vs))
    decreases vs
  {
    if vs.Cons? {
      EncodingAccepted(vs.head);
      EncodingsAccepted(vs.tail);
      Split(Encoding(vs.head), Encodings(vs.tail), |Encoding(vs.head)|);
    }
  }

  // -------------------------------------------------------------- the round trip

  /** For every type description, recursive ones included, and every value that is
      well-typed within the depth and length limits: decoding its encoding, whatever
      bytes follow, yields its rendering and consumes exactly the encoding. */
  lemma RoundTrip(idl: Idl, ty: Type, v: Val, depth: nat, post: seq<Byte>)
    requires Render(idl, ty, v, depth).Some?
    ensures DecodeType(idl, ty, Encoding(v) + post, depth) == Some((Render(idl, ty, v, depth).value, |Encoding(v)|))
  {
    hide DecodeType, Render, Encoding, EncodedAs;
    EncodingAccepted(v);
    AcceptedRead(idl, ty, v, depth, Encoding(v), post);
  }

  /** The same for all the bytes accepted for the value. */
  lemma {:induction false} AcceptedRead(idl: Idl, ty: Type, v: Val, depth: nat, e: seq<Byte>, post: seq<Byte>)
    requires Render(idl, ty, v, depth).Some? && EncodedAs(v, e)
    ensures DecodeType(idl, ty, e + post, depth) == Some((Render(idl, ty, v, depth).value, |e|))
    decreases Left(depth), 3, v
  {
    hide DecodePrimitive, RenderPrimitive, PrimitiveOf, FindShape, DecodeMany, RenderMany, DecodeShape, RenderShape, Bytes, Value;
    match ty
    case Named(name) => PrimitiveRead(idl, PrimitiveOf(name), v, e, post);
    case Opt(inner) =>
      if v.VSome? {
        Join(e, 1, post);
        AcceptedRead(idl, inner, v.v, depth + 1, e[1..], post);
      }
    case Vec(inner) =>
      var n := Count(v.vs);
      Pow4();
      Join(e, 4, post);
      NumberRead(n, 4, []);
      assert Bytes(n, 4) + [] == Bytes(n, 4);
      ManyRead(idl, inner, v.vs, depth, e[4..], post);
    case Arr(inner, len) => ManyRead(idl, inner, v.vs, depth, e, post);
    case Defined(name) => ShapeRead(idl, FindShape(idl, name).value, v, depth + 1, e, post);
    case Inline(shape) => ShapeRead(idl, shape, v, depth + 1, e, post);
    case Malformed =>
  }

  lemma Join(e: seq<Byte>, n: nat, post: seq<Byte>)
    requires n <= |e|
    ensures (e + post)[..n] == e[..n] && (e + post)[n..] == e[n..] + post
    ensures n > 0 ==> (e + post)[0] == e[0]
  {
  }

  /** One element and the rest. */
  lemma ManyStep(idl: Idl, ty: Type, b: seq<Byte>, depth: nat, n: nat)
    requires depth <= MAX_DEPTH && n > 0
    ensures DecodeMany(idl, ty, b, depth, n) == (
              match DecodeType(idl, ty, b, depth + 1)
              case None => None
              case Some(d) => (match DecodeMany(idl, ty, b[d.1..], depth, n - 1)
                               case None => None
                               case Some(rest) => Some(([d.0] + rest.0, d.1 + rest.1))))
  {
  }

  lemma ManyEmpty(idl: Idl, ty: Type, b: seq<Byte>, depth: nat)
    requires depth <= MAX_DEPTH
    ensures DecodeMany(idl, ty, b, depth, 0) == Some(([], 0))
  {
  }

  lemma RenderManyStep(idl: Idl, ty: Type, vs: Vals, depth: nat)
    requires depth <= MAX_DEPTH && vs.Cons? && RenderMany(idl, ty, vs, depth).Some?
    ensures Render(idl, ty, vs.head, depth + 1).Some? && RenderMany(idl, ty, vs.tail, depth).Some?
    ensures RenderMany(idl, ty, vs, depth).value
         == [Render(idl, ty, vs.head, depth + 1).value] + RenderMany(idl, ty, vs.tail, depth).value
    ensures Encodings(vs) == Encoding(vs.head) + Encodings(vs.tail) && Count(vs) == 1 + Count(vs.tail)
  {
  }

  lemma {:induction false} ManyRead(idl: Idl, ty: Type, vs: Vals, depth: nat, e: seq<Byte>, post: seq<Byte>)
    requires depth <= MAX_DEPTH && RenderMany(idl, ty, vs, depth).Some? && AllEncodedAs(vs, e)
    ensures DecodeMany(idl, ty, e + post, depth, Count(vs)) == Some((RenderMany(idl, ty, vs, depth).value, |e|))
    decreases Left(depth), 1, vs
  {
    hide DecodeType, Render, Encoding, EncodedAs, DecodeMany;
    if vs.Nil? {
      ManyEmpty(idl, ty, e + post, depth);
    } else {
      hide RenderMany, Count;
      RenderManyStep(idl, ty, vs, depth);
      var n := |Encoding(vs.head)|;
      Assoc(e[..n], e[n..], post);
      assert e[..n] + e[n..] == e;
      Join(e, n, post);
      AcceptedRead(idl, ty, vs.head, depth + 1, e[..n], e[n..] + post);
      ManyRead(idl, ty, vs.tail, depth, e[n..], post);
      ManyStep(idl, ty, e + post, depth, Count(vs));
    }
  }

  lemma {:induction false} ShapeRead(idl: Idl, shape: Shape, v: Val, depth: nat, e: seq<Byte>, post: seq<Byte>)
    requires RenderShape(idl, shape, v, depth).Some? && EncodedAs(v, e)
    ensures DecodeShape(idl, shape, e + post, depth) == Some((RenderShape(idl, shape, v, depth).value, |e|))
    decreases Left(depth), 2, v
  {
    hide DecodeFields, RenderFields;
    match shape
    case Struct(fields) => FieldsRead(idl, fields, 0, v.vs, depth, e, post);
    case Enum(variants) =>
      Join(e, 1, post);
      FieldsRead(idl, variants[v.index].fields, 0, v.vs, depth, e[1..], post);
    case BadShape =>
  }

  lemma {:induction false} FieldsRead(idl: Idl, fields: seq<Field>, index: nat, vs: Vals, depth: nat, e: seq<Byte>, post: seq<Byte>)
    requires index <= |fields| && depth <= MAX_DEPTH && RenderFields(idl, fields, index, vs, depth).Some? && AllEncodedAs(vs, e)
    ensures DecodeFields(idl, fields, index, e + post, depth)
         == Some((RenderFields(idl, fields, index, vs, depth).value, |e|))
    decreases Left(depth), 1, vs
  {
    hide DecodeType, Render, Encoding, EncodedAs, FieldName;
    if vs.Cons? {
      var n := |Encoding(vs.head)|;
      Assoc(e[..n], e[n..], post);
      assert e[..n] + e[n..] == e;
      Join(e, n, post);
      AcceptedRead(idl, fields[index].ty.value, vs.head, depth + 1, e[..n], e[n..] + post);
      FieldsRead(idl, fields, index + 1, vs.tail, depth, e[n..], post);
    }
  }

  /** The same at any offset of a larger byte string. */
  lemma RoundTripAt(idl: Idl, ty: Type, v: Val, depth: nat, pre: seq<Byte>, post: seq<Byte>)
    requires Render(idl, ty, v, depth).Some?
    ensures DecodeType(idl, ty, (pre + Encoding(v) + post)[|pre|..], depth)
         == Some((Render(idl, ty, v, depth).value, |Encoding(v)|))
  {
    hide DecodeType, Render, Encoding;
    assert (pre + Encoding(v) + post)[|pre|..] == Encoding(v) + post;
    RoundTrip(idl, ty, v, depth, post);
  }

  // ------------------------------------------------------------------- locality

  /** The bytes a result was read from, followed by anything else. */
  predicate SameStart(b: seq<Byte>, n: nat, c: seq<Byte>) {
    n <= |b| && n <= |c| && b[..n] == c[..n]
  }

  lemma SameRest(b: seq<Byte>, n: nat, c: seq<Byte>, m: nat)
    requires SameStart(b, n, c) && m <= n
    ensures SameStart(b, m, c) && SameStart(b[m..], n - m, c[m..])
  {
    assert b[..m] == b[..n][..m] && c[..m] == c[..n][..m];
    assert b[m..][..n - m] == b[..n][m..] && c[m..][..n - m] == c[..n][m..];
  }

  lemma SameAt(b: seq<Byte>, n: nat, c: seq<Byte>, i: nat)
    requires SameStart(b, n, c) && i < n
    ensures b[i] == c[i] && c != [] && b != []
  {
    assert b[..n][i] == c[..n][i];
  }

  lemma PrimitiveLocal(idl: Idl, p: Primitive, b: seq<Byte>, c: seq<Byte>)
    requires DecodePrimitive(idl, p, b).Some? && SameStart(b, DecodePrimitive(idl, p, b).value.1, c)
    ensures DecodePrimitive(idl, p, c) == DecodePrimitive(idl, p, b)
  {
    hide Value, Pow, Decimal, HexBytes, Utf8.Decode;
    var n := DecodePrimitive(idl, p, b).value.1;
    match p
    case Boolean => SameAt(b, n, c, 0);
    case Text =>
      SameRest(b, n, c, 4);
      assert b[4..][..n - 4] == b[4..n] && c[4..][..n - 4] == c[4..n];
    case _ =>
  }

  /** A decoded value depends on the bytes it consumed and on no others. */
  lemma {:induction false} ReadsOnlyConsumed(idl: Idl, ty: Type, b: seq<Byte>, depth: nat, c: seq<Byte>)
    requires DecodeType(idl, ty, b, depth).Some? && SameStart(b, DecodeType(idl, ty, b, depth).value.1, c)
    ensures DecodeType(idl, ty, c, depth) == DecodeType(idl, ty, b, depth)
    decreases Left(depth), 3, 0
  {
    hide DecodePrimitive, PrimitiveOf, FindShape, DecodeMany, DecodeShape, Value, SameStart;
    var n := DecodeType(idl, ty, b, depth).value.1;
    match ty
    case Named(name) => PrimitiveLocal(idl, PrimitiveOf(name), b, c);
    case Opt(inner) =>
      SameAt(b, n, c, 0);
      if b[0] == 1 {
        SameRest(b, n, c, 1);
        ReadsOnlyConsumed(idl, inner, b[1..], depth + 1, c[1..]);
      }
    case Vec(inner) =>
      SameRest(b, n, c, 4);
      PrefixEqual(b, 4, c);
      ManyLocal(idl, inner, b[4..], depth, Value(b[..4], 256), c[4..]);
    case Arr(inner, len) => ManyLocal(idl, inner, b, depth, len, c);
    case Defined(name) => ShapeLocal(idl, FindShape(idl, name).value, b, depth + 1, c);
    case Inline(shape) => ShapeLocal(idl, shape, b, depth + 1, c);
    case Malformed =>
  }

  lemma PrefixEqual(b: seq<Byte>, n: nat, c: seq<Byte>)
    requires SameStart(b, n, c)
    ensures n <= |b| && n <= |c| && b[..n] == c[..n]
  {
  }

  lemma {:induction false} ManyLocal(idl: Idl, ty: Type, b: seq<Byte>, depth: nat, n: nat, c: seq<Byte>)
    requires depth <= MAX_DEPTH && DecodeMany(idl, ty, b, depth, n).Some?
    requires SameStart(b, DecodeMany(idl, ty, b, depth, n).value.1, c)
    ensures DecodeMany(idl, ty, c, depth, n) == DecodeMany(idl, ty, b, depth, n)
    decreases Left(depth), 1, n
  {
    hide DecodeType, DecodeMany, SameStart;
    if n == 0 {
      ManyEmpty(idl, ty, b, depth);
      ManyEmpty(idl, ty, c, depth);
    } else {
      ManyStep(idl, ty, b, depth, n);
      ManyStep(idl, ty, c, depth, n);
      var total := DecodeMany(idl, ty, b, depth, n).value.1;
      var m := DecodeType(idl, ty, b, depth + 1).value.1;
      SameRest(b, total, c, m);
      ReadsOnlyConsumed(idl, ty, b, depth + 1, c);
      ManyLocal(idl, ty, b[m..], depth, n - 1, c[m..]);
    }
  }

  lemma {:induction false} ShapeLocal(idl: Idl, shape: Shape, b: seq<Byte>, depth: nat, c: seq<Byte>)
    requires DecodeShape(idl, shape, b, depth).Some? && SameStart(b, DecodeShape(idl, shape, b, depth).value.1, c)
    ensures DecodeShape(idl, shape, c, depth) == DecodeShape(idl, shape, b, depth)
    decreases Left(depth), 2, 0
  {
    hide DecodeFields, SameStart;
    var n := DecodeShape(idl, shape, b, depth).value.1;
    match shape
    case Struct(fields) => FieldsLocal(idl, fields, 0, b, depth, c);
    case Enum(variants) =>
      SameAt(b, n, c, 0);
      SameRest(b, n, c, 1);
      FieldsLocal(idl, variants[b[0]].fields, 0, b[1..], depth, c[1..]);
    case BadShape =>
  }

  lemma {:induction false} FieldsLocal(idl: Idl, fields: seq<Field>, index: nat, b: seq<Byte>, depth: nat, c: seq<Byte>)
    requires index <= |fields| && depth <= MAX_DEPTH && DecodeFields(idl, fields, index, b, depth).Some?
    requires SameStart(b, DecodeFields(idl, fields, index, b, depth).value.1, c)
    ensures DecodeFields(idl, fields, index, c, depth) == DecodeFields(idl, fields, index, b, depth)
    decreases Left(depth), 1, |fields| - index
  {
    hide DecodeType, SameStart, FieldName;
    if index < |fields| {
      var total := DecodeFields(idl, fields, index, b, depth).value.1;
      var ty := fields[index].ty.value;
      var m := DecodeType(idl, ty, b, depth + 1).value.1;
      SameRest(b, total, c, m);
      ReadsOnlyConsumed(idl, ty, b, depth + 1, c);
      FieldsLocal(idl, fields, index + 1, b[m..], depth, c[m..]);
    }
  }

  // --------------------------------------------------------------- field names

  predicate DistinctNames(fields: seq<Field>) {
    forall i, j :: 0 <= i < j < |fields| ==> FieldName(fields[i], i) != FieldName(fields[j], j)
  }

  function Nth(vs: Vals, i: nat): Val
    requires i < Count(vs)
  {
    if i == 0 then vs.head else Nth(vs.tail, i - 1)
  }

  /** With distinct names every field of a struct shows its own value. */
  lemma {:induction false} FieldsShown(idl: Idl, fields: seq<Field>, index: nat, vs: Vals, depth: nat, i: nat)
    requires index <= i < |fields| && depth <= MAX_DEPTH && DistinctNames(fields)
    requires RenderFields(idl, fields, index, vs, depth).Some?
    ensures var m := RenderFields(idl, fields, index, vs, depth).value;
            && Count(vs) == |fields| - index && fields[i].ty.Some?
            && FieldName(fields[i], i) in m
            && Some(m[FieldName(fields[i], i)]) == Render(idl, fields[i].ty.value, Nth(vs, i - index), depth + 1)
    ensures forall k :: k in RenderFields(idl, fields, index, vs, depth).value ==> NameFrom(fields, index, k)
    decreases vs
  {
    hide Render, FieldName;
    FieldsFrom(idl, fields, index, vs, depth);
    if i > index {
      FieldsShown(idl, fields, index + 1, vs.tail, depth, i);
    } else {
      FieldsFrom(idl, fields, index + 1, vs.tail, depth);
    }
  }

  predicate NameFrom(fields: seq<Field>, index: nat, k: string) {
    exists j :: index <= j < |fields| && k == FieldName(fields[j], j)
  }

  lemma {:induction false} FieldsFrom(idl: Idl, fields: seq<Field>, index: nat, vs: Vals, depth: nat)
    requires index <= |fields| && depth <= MAX_DEPTH && RenderFields(idl, fields, index, vs, depth).Some?
    ensures Count(vs) == |fields| - index
    ensures forall k :: k in RenderFields(idl, fields, index, vs, depth).value ==> NameFrom(fields, index, k)
    decreases vs
  {
    hide Render, FieldName;
    if vs.Cons? {
      FieldsFrom(idl, fields, index + 1, vs.tail, depth);
      forall k | k in RenderFields(idl, fields, index, vs, depth).value ensures NameFrom(fields, index, k) {
        if k in RenderFields(idl, fields, index + 1, vs.tail, depth).value {
          assert NameFrom(fields, index + 1, k);
        }
      }
    }
  }
}
