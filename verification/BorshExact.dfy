/** What the decoder accepts: exactly the encodings of well-typed values, with any
    non-zero byte for `true`. */
module BorshExact {
  import opened Totals
  import opened Utf8
  import opened LittleEndian
  import opened TextFormat
  import opened IdlLimits
  import opened BorshModel
  import opened BorshRoundTrip

  // ---------------------------------------------------------------- primitives

  /** The bytes of a number are the bytes of its value. */
  lemma NumberWritten(s: seq<Byte>)
    ensures Value(s, 256) < Pow(256, |s|) && Bytes(Value(s, 256), |s|) == s
  {
    ValueBound(s, 256);
    LowestValue(s, 256);
    BytesLowest(Value(s, 256), |s|);
  }

  lemma UnsignedSigned(u: nat, m: nat)
    requires u < m
    ensures InSigned(Signed(u, m), m) && Unsigned(Signed(u, m), m) == u
  {
  }

  lemma TextWritten(idl: Idl, b: seq<Byte>) returns (v: Val)
    requires DecodePrimitive(idl, Text, b).Some?
    ensures var d := DecodePrimitive(idl, Text, b).value;
            RenderPrimitive(idl, Text, v) == Some(d.0) && EncodedAs(v, b[..d.1])
  {
    hide Value, Pow, Bytes, Utf8.Encode, Utf8.Decode;
    var len := Value(b[..4], 256);
    var text := b[4..4 + len];
    EncodeDecode(text);
    NumberWritten(b[..4]);
    v := VText(Utf8.Decode(text).value);
    assert b[..4 + len] == b[..4] + text;
  }

  lemma PrimitiveWritten(idl: Idl, p: Primitive, b: seq<Byte>) returns (v: Val)
    requires DecodePrimitive(idl, p, b).Some?
    ensures var d := DecodePrimitive(idl, p, b).value;
            RenderPrimitive(idl, p, v) == Some(d.0) && EncodedAs(v, b[..d.1])
  {
    hide Value, Bytes, Pow, Decimal, HexBytes, Utf8.Encode, Utf8.Decode;
    match p
    case Boolean => v := VBool(b[0] != 0);
    case UInt(w) =>
      NumberWritten(b[..w]);
      v := VUInt(w, Value(b[..w], 256));
    case SInt(w) =>
      NumberWritten(b[..w]);
      UnsignedSigned(Value(b[..w], 256), Pow(256, w));
      v := VSInt(w, Signed(Value(b[..w], 256), Pow(256, w)));
    case Account => v := VKey(b[..32]);
    case Program => v := VKey(b[..32]);
    case Text => v := TextWritten(idl, b);
  }

  // ------------------------------------------------------------------- values

  /** Slices of a prefix. */
  lemma Prefix(b: seq<Byte>, n: nat, m: nat)
    requires m <= n <= |b|
    ensures b[..n][..m] == b[..m] && b[..n][m..] == b[m..][..n - m]
    ensures m > 0 ==> b[..n] != [] && b[..n][0] == b[0]
  {
  }

  /** Whatever decodes is the rendering of a well-typed value, and the bytes consumed are
      accepted for that value. */
  lemma {:induction false} Written(idl: Idl, ty: Type, b: seq<Byte>, depth: nat) returns (v: Val)
    requires DecodeType(idl, ty, b, depth).Some?
    ensures var d := DecodeType(idl, ty, b, depth).value;
            Render(idl, ty, v, depth) == Some(d.0) && EncodedAs(v, b[..d.1])
    decreases Left(depth), 3, 0
  {
    hide DecodePrimitive, RenderPrimitive, PrimitiveOf, FindShape, DecodeMany, RenderMany, DecodeShape, RenderShape, Bytes, Value;
    var n := DecodeType(idl, ty, b, depth).value.1;
    match ty
    case Named(name) => v := PrimitiveWritten(idl, PrimitiveOf(name), b);
    case Opt(inner) =>
      if b[0] == 0 {
        v := VNone;
      } else {
        var x := Written(idl, inner, b[1..], depth + 1);
        v := VSome(x);
        Prefix(b, n, 1);
      }
    case Vec(inner) =>
      NumberWritten(b[..4]);
      var vs := ManyWritten(idl, inner, b[4..], depth, Value(b[..4], 256));
      v := VVec(vs);
      Prefix(b, n, 4);
    case Arr(inner, len) =>
      var vs := ManyWritten(idl, inner, b, depth, len);
      v := VSeq(vs);
    case Defined(name) => v := ShapeWritten(idl, FindShape(idl, name).value, b, depth + 1);
    case Inline(shape) => v := ShapeWritten(idl, shape, b, depth + 1);
  }

  lemma {:induction false} ManyWritten(idl: Idl, ty: Type, b: seq<Byte>, depth: nat, n: nat) returns (vs: Vals)
    requires depth <= MAX_DEPTH && DecodeMany(idl, ty, b, depth, n).Some?
    ensures var d := DecodeMany(idl, ty, b, depth, n).value;
            Count(vs) == n && RenderMany(idl, ty, vs, depth) == Some(d.0) && AllEncodedAs(vs, b[..d.1])
    decreases Left(depth), 1, n
  {
    hide DecodeType, Render, Encoding, EncodedAs, DecodeMany;
    if n == 0 {
      ManyEmpty(idl, ty, b, depth);
      vs := Nil;
    } else {
      ManyStep(idl, ty, b, depth, n);
      var m := DecodeType(idl, ty, b, depth + 1).value.1;
      var head := Written(idl, ty, b, depth + 1);
      var tail := ManyWritten(idl, ty, b[m..], depth, n - 1);
      vs := Cons(head, tail);
      SameLength(head, b[..m]);
      Prefix(b, DecodeMany(idl, ty, b, depth, n).value.1, m);
    }
  }

  lemma {:induction false} ShapeWritten(idl: Idl, shape: Shape, b: seq<Byte>, depth: nat) returns (v: Val)
    requires DecodeShape(idl, shape, b, depth).Some?
    ensures var d := DecodeShape(idl, shape, b, depth).value;
            RenderShape(idl, shape, v, depth) == Some(d.0) && EncodedAs(v, b[..d.1])
    decreases Left(depth), 2, 0
  {
    hide DecodeFields, RenderFields;
    match shape
    case Struct(fields) =>
      var vs := FieldsWritten(idl, fields, 0, b, depth);
      v := VSeq(vs);
    case Enum(variants) =>
      var vs := FieldsWritten(idl, variants[b[0]].fields, 0, b[1..], depth);
      v := VEnum(b[0], vs);
      Prefix(b, DecodeShape(idl, shape, b, depth).value.1, 1);
  }

  lemma {:induction false} FieldsWritten(idl: Idl, fields: seq<Field>, index: nat, b: seq<Byte>, depth: nat) returns (vs: Vals)
    requires index <= |fields| && depth <= MAX_DEPTH && DecodeFields(idl, fields, index, b, depth).Some?
    ensures var d := DecodeFields(idl, fields, index, b, depth).value;
            RenderFields(idl, fields, index, vs, depth) == Some(d.0) && AllEncodedAs(vs, b[..d.1])
    decreases Left(depth), 1, |fields| - index
  {
    hide DecodeType, Render, Encoding, EncodedAs, FieldName;
    if index == |fields| {
      vs := Nil;
    } else {
      var ty := fields[index].ty.value;
      var m := DecodeType(idl, ty, b, depth + 1).value.1;
      var head := Written(idl, ty, b, depth + 1);
      var tail := FieldsWritten(idl, fields, index + 1, b[m..], depth);
      vs := Cons(head, tail);
      SameLength(head, b[..m]);
      Prefix(b, DecodeFields(idl, fields, index, b, depth).value.1, m);
    }
  }

  // ---------------------------------------------------------------- the decoder

  /** A well-typed value that is shown as `j` and for which the bytes are accepted. */
  predicate Shows(idl: Idl, ty: Type, depth: nat, v: Val, j: Json, e: seq<Byte>) {
    Render(idl, ty, v, depth) == Some(j) && EncodedAs(v, e)
  }

  /** The decoder yields `j` from the first `n` bytes exactly when they are accepted for
      some well-typed value that is shown as `j`. */
  lemma DecodesExactly(idl: Idl, ty: Type, b: seq<Byte>, depth: nat, j: Json, n: nat)
    requires n <= |b|
    ensures DecodeType(idl, ty, b, depth) == Some((j, n)) <==> exists v :: Shows(idl, ty, depth, v, j, b[..n])
  {
    hide DecodeType, Render, EncodedAs;
    if DecodeType(idl, ty, b, depth) == Some((j, n)) {
      var v := Written(idl, ty, b, depth);
      assert Shows(idl, ty, depth, v, j, b[..n]);
    }
    if v :| Shows(idl, ty, depth, v, j, b[..n]) {
      AcceptedRead(idl, ty, v, depth, b[..n], b[n..]);
      assert b[..n] + b[n..] == b;
    }
  }

  /** Two well-typed values of a type that start the same bytes take up equally many of
      them and are shown alike. */
  lemma NoOtherReading(idl: Idl, ty: Type, depth: nat, b: seq<Byte>, v: Val, j: Json, n: nat, w: Val, k: Json, m: nat)
    requires n <= |b| && m <= |b|
    requires Shows(idl, ty, depth, v, j, b[..n]) && Shows(idl, ty, depth, w, k, b[..m])
    ensures n == m && j == k
  {
    hide DecodeType, Shows;
    DecodesExactly(idl, ty, b, depth, j, n);
    DecodesExactly(idl, ty, b, depth, k, m);
  }

  // -------------------------------------------------------------- named types

  predicate UnsignedType(name: string, bytes: nat) {
    (name, bytes) in {("u8", 1), ("u16", 2), ("u32", 4), ("u64", 8), ("u128", 16)}
  }

  predicate SignedType(name: string, bytes: nat) {
    (name, bytes) in {("i8", 1), ("i16", 2), ("i32", 4), ("i64", 8), ("i128", 16)}
  }

  /** An unsigned type shows, in decimal, the little-endian number in its bytes. */
  lemma UnsignedShown(idl: Idl, name: string, bytes: nat, b: seq<Byte>, depth: nat)
    requires UnsignedType(name, bytes) && depth <= MAX_DEPTH
    ensures var r := DecodeType(idl, Named(name), b, depth);
            if |b| < bytes then r.None?
            else r.Some? && r.value.1 == bytes && r.value.0.Str? && DigitsValue(r.value.0.text) == Some(Value(b[..bytes], 256))
  {
    hide Value, Decimal, DigitsValue;
    if |b| >= bytes {
      DecimalRead(Value(b[..bytes], 256));
    }
  }

  /** A signed type shows the number of its range that is congruent to the little-endian
      number in its bytes. */
  lemma SignedShown(idl: Idl, name: string, bytes: nat, b: seq<Byte>, depth: nat)
    requires SignedType(name, bytes) && depth <= MAX_DEPTH
    ensures var r := DecodeType(idl, Named(name), b, depth);
            if |b| < bytes then r.None?
            else
              && r.Some? && r.value.1 == bytes && r.value.0.Str? && IntegerValue(r.value.0.text).Some?
              && var v, u := IntegerValue(r.value.0.text).value, Value(b[..bytes], 256);
                 && -(Pow(256, bytes) as int) <= 2 * v < Pow(256, bytes)
                 && (v == u || v == u - Pow(256, bytes))
  {
    hide Value, DecimalInt, IntegerValue, Pow;
    if |b| >= bytes {
      NumberWritten(b[..bytes]);
      IntegerRead(Signed(Value(b[..bytes], 256), Pow(256, bytes)));
    }
  }

  /** A boolean is any byte but zero; an account shows its 32 bytes as the account text, a
      program as hexadecimal that reads back. */
  lemma KeysShown(idl: Idl, b: seq<Byte>, depth: nat)
    requires depth <= MAX_DEPTH
    ensures DecodeType(idl, Named("bool"), b, depth) == if b == [] then None else Some((Bool(b[0] > 0), 1))
    ensures DecodeType(idl, Named("account_id"), b, depth) == if |b| < 32 then None else Some((Str(idl.accountText(b[..32])), 32))
    ensures var r := DecodeType(idl, Named("program_id"), b, depth);
            if |b| < 32 then r.None?
            else r.Some? && r.value.1 == 32 && r.value.0.Str? && |r.value.0.text| == 64 && UnhexBytes(r.value.0.text) == Some(b[..32])
  {
    hide HexBytes, UnhexBytes;
    if |b| >= 32 {
      UnhexOfHex(b[..32]);
    }
  }

  /** A string shows the text whose UTF-8 bytes, as many as the first four say, follow; there
      is no value if there are too few of them or if they are no text's. */
  lemma TextShown(idl: Idl, b: seq<Byte>, depth: nat, t: string)
    requires depth <= MAX_DEPTH
    ensures DecodeType(idl, Named("string"), b, depth) == Some((Str(t), 4 + |Utf8.Encode(t)|)) <==>
              && |b| >= 4 + |Utf8.Encode(t)|
              && Value(b[..4], 256) == |Utf8.Encode(t)|
              && b[4..4 + |Utf8.Encode(t)|] == Utf8.Encode(t)
    ensures DecodeType(idl, Named("string"), b, depth).Some? ==>
              exists u: string :: DecodeType(idl, Named("string"), b, depth) == Some((Str(u), 4 + |Utf8.Encode(u)|))
  {
    hide Value, Utf8.Encode, Utf8.Decode;
    DecodeEncode(t);
    if |b| >= 4 && |b| >= 4 + Value(b[..4], 256) {
      var text := b[4..4 + Value(b[..4], 256)];
      if Utf8.Decode(text).Some? {
        EncodeDecode(text);
      }
    }
  }

  /** No other name is a type. */
  lemma NamesExact(idl: Idl, name: string, b: seq<Byte>, depth: nat)
    ensures DecodeType(idl, Named(name), b, depth).Some? ==>
              || (exists n :: UnsignedType(name, n)) || (exists n :: SignedType(name, n))
              || name in {"bool", "account_id", "program_id", "string"}
  {
    hide Value, Pow, Decimal, HexBytes, Utf8.Decode;
    assert UnsignedType("u8", 1) && UnsignedType("u16", 2) && UnsignedType("u32", 4) && UnsignedType("u64", 8) && UnsignedType("u128", 16);
    assert SignedType("i8", 1) && SignedType("i16", 2) && SignedType("i32", 4) && SignedType("i64", 8) && SignedType("i128", 16);
  }

  // ---------------------------------------------------------- names of an IDL

  /** The first type of this name, or else the shape of the first account of this name. */
  lemma {:induction false} TypeFound(types: seq<(string, Shape)>, name: string)
    ensures match FindType(types, name)
            case Some(shape) =>
              exists i :: 0 <= i < |types| && types[i] == (name, shape) && forall j :: 0 <= j < i ==> types[j].0 != name
            case None => forall i :: 0 <= i < |types| ==> types[i].0 != name
  {
    if types != [] && types[0].0 != name {
      TypeFound(types[1..], name);
      match FindType(types[1..], name)
      case Some(shape) =>
        var i :| 0 <= i < |types| - 1 && types[1..][i] == (name, shape) && forall j :: 0 <= j < i ==> types[1..][j].0 != name;
        assert types[i + 1] == (name, shape);
        assert forall j :: 0 < j < i + 1 ==> types[j] == types[1..][j - 1];
      case None =>
        assert forall j :: 0 < j < |types| ==> types[j] == types[1..][j - 1];
    }
  }

  lemma {:induction false} AccountFound(accounts: seq<(string, Option<Shape>)>, name: string)
    ensures match FindAccount(accounts, name)
            case Some(shape) =>
              exists i :: 0 <= i < |accounts| && accounts[i] == (name, Some(shape)) && forall j :: 0 <= j < i ==> accounts[j].0 != name
            case None => forall i :: 0 <= i < |accounts| && accounts[i].1.Some? && accounts[i].0 == name ==>
                           exists j :: 0 <= j < i && accounts[j] == (name, None)
  {
    if accounts != [] && accounts[0].0 != name {
      AccountFound(accounts[1..], name);
      assert forall j :: 0 < j < |accounts| ==> accounts[j] == accounts[1..][j - 1];
      match FindAccount(accounts[1..], name)
      case Some(shape) =>
        var i :| 0 <= i < |accounts| - 1 && accounts[1..][i] == (name, Some(shape)) && forall j :: 0 <= j < i ==> accounts[1..][j].0 != name;
        assert accounts[i + 1] == (name, Some(shape));
      case None =>
        forall i | 0 <= i < |accounts| && accounts[i].1.Some? && accounts[i].0 == name
          ensures exists j :: 0 <= j < i && accounts[j] == (name, None)
        {
          assert accounts[1..][i - 1] == accounts[i];
          var j :| 0 <= j < i - 1 && accounts[1..][j] == (name, None);
          assert accounts[j + 1] == (name, None);
        }
    } else if accounts != [] {
      assert accounts[0].1.None? ==> accounts[0] == (name, None);
      assert accounts[0].1.Some? ==> accounts[0] == (name, Some(accounts[0].1.value));
    }
  }

  /** A name that both a type and an account have means the type. */
  lemma ShapeFound(idl: Idl, name: string, i: nat)
    requires i < |idl.types| && idl.types[i].0 == name && forall j :: 0 <= j < i ==> idl.types[j].0 != name
    ensures FindShape(idl, name) == Some(idl.types[i].1)
  {
    TypeFound(idl.types, name);
  }

  lemma AccountShapeFound(idl: Idl, name: string)
    requires forall j :: 0 <= j < |idl.types| ==> idl.types[j].0 != name
    ensures FindShape(idl, name) == FindAccount(idl.accounts, name)
  {
    TypeFound(idl.types, name);
  }

  /** Unnamed fields are numbered by their position, so no two share a name. */
  lemma FieldNumbers(f: Field, i: nat, g: Field, j: nat)
    ensures f.name.Some? ==> FieldName(f, i) == f.name.value
    ensures f.name.None? ==> "field_" <= FieldName(f, i) && DigitsValue(FieldName(f, i)[6..]) == Some(i)
    ensures f.name.None? && g.name.None? && FieldName(f, i) == FieldName(g, j) ==> i == j
  {
    hide Decimal, DigitsValue;
    DecimalRead(i);
    DecimalRead(j);
    assert ("field_" + Decimal(i))[6..] == Decimal(i) && ("field_" + Decimal(j))[6..] == Decimal(j);
  }

  // ------------------------------------------------------------------- limits

  /** Nothing is decoded more than 32 levels deep, and no vector or array of more than 100000
      elements. At these limits decoding goes on: a byte is read at level 32, and a vector
      of 100000 empty structs is not too long. */
  lemma LimitsExact(idl: Idl, ty: Type, b: seq<Byte>, depth: nat, inner: Type, len: nat)
    ensures DecodeType(idl, ty, b, depth).Some? ==> depth <= 32
    ensures DecodeType(idl, Named("u8"), [7], 32) == Some((Str("7"), 1))
    ensures DecodeType(idl, Vec(inner), b, depth).Some? ==> |b| >= 4 && Value(b[..4], 256) <= 100_000
    ensures DecodeType(idl, Arr(inner, len), b, depth).Some? ==> len <= 100_000
    ensures depth <= 30 ==> DecodeType(idl, Arr(Inline(Struct([])), 100_000), b, depth).Some?
  {
    hide DecodeMany, Value;
    if depth <= 30 {
      EmptyStructs(idl, b, depth, 100_000);
    }
    assert Value([7], 256) == 7 by {
      OneByte(7);
    }
    assert [7][..1] == [7];
  }

  lemma OneByte(x: Byte)
    ensures Value([x], 256) == x
  {
  }

  lemma EmptyStruct(idl: Idl, b: seq<Byte>, depth: nat)
    requires depth <= 31
    ensures DecodeType(idl, Inline(Struct([])), b, depth) == Some((Object(map[]), 0))
  {
    assert DecodeFields(idl, [], 0, b, depth + 1) == Some((map[], 0));
    assert DecodeShape(idl, Struct([]), b, depth + 1) == Some((Object(map[]), 0));
  }

  lemma {:induction false} EmptyStructs(idl: Idl, b: seq<Byte>, depth: nat, n: nat)
    requires depth <= 30
    ensures DecodeMany(idl, Inline(Struct([])), b, depth, n).Some?
    decreases n
  {
    if n > 0 {
      EmptyStruct(idl, b, depth + 1);
      assert b[0..] == b;
      EmptyStructs(idl, b, depth, n - 1);
    }
  }
}
