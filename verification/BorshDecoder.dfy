/** The decoder as it runs: cursors that advance over the bytes, and loops that push
    values. */
module BorshDecoder {
  import opened Totals
  import opened Utf8
  import opened LittleEndian
  import opened TextFormat
  import opened IdlLimits
  import opened BorshModel
  import opened BorshRoundTrip

  method ReadLeUnsigned(bytes: seq<Byte>, offset: nat, count: nat) returns (r: Option<nat>)
    ensures r == if offset + count <= |bytes| && count <= 16 then Some(Value(bytes[offset..offset + count], 256)) else None
  {
    if offset + count > |bytes| || count > 16 {
      return None;
    }
    var slice: seq<nat> := bytes[offset..offset + count];
    var value, weight := 0, 1;
    for i := 0 to count
      invariant value == Value(slice[..i], 256) && weight == Pow(256, i)
    {
      assert slice[..i + 1] == slice[..i] + [slice[i]];
      ValueAppend(slice[..i], [slice[i]], 256);
      OneDigit(slice[i]);
      value := value + weight * slice[i];
      weight := 256 * weight;
    }
    assert slice[..count] == slice;
    r := Some(value);
  }

  lemma OneDigit(d: nat)
    ensures Value([d], 256) == d
  {
    assert [d][1..] == [];
  }

  /** The sixteen-byte buffer is filled with the sign before the bytes are copied in. */
  method ReadLeSigned(bytes: seq<Byte>, offset: nat, count: nat) returns (r: Option<int>)
    ensures r == if offset + count <= |bytes| && 0 < count <= 16
                 then Some(Signed(Value(bytes[offset..offset + count], 256), Pow(256, count))) else None
  {
    hide Value, Pow, Signed;
    if offset + count > |bytes| || count > 16 || count == 0 {
      return None;
    }
    var slice: seq<nat> := bytes[offset..offset + count];
    var fill := if slice[count - 1] >= 0x80 then 0xFF else 0;
    var wide := new nat[16](_ => fill);
    for i := 0 to count
      invariant forall k :: 0 <= k < 16 ==> wide[k] == if k < i then slice[k] else fill
    {
      wide[i] := slice[i];
    }
    assert wide[..] == slice + Fill(fill, 16 - count);
    SignExtension(slice, 16 - count, 256);
    r := Some(Signed(Value(wide[..], 256), Pow(256, 16)));
  }

  /** The byte at an offset of the whole is the first one of the rest. */
  lemma Rest(bytes: seq<Byte>, offset: nat, n: nat)
    requires offset + n <= |bytes|
    ensures bytes[offset..][n..] == bytes[offset + n..] && bytes[offset..][..n] == bytes[offset..offset + n]
    ensures |bytes[offset..]| == |bytes| - offset
    ensures offset < |bytes| ==> bytes[offset..][0] == bytes[offset]
  {
  }

  method DecodeBorshNumber(p: Primitive, bytes: seq<Byte>, offset: nat, ghost idl: Idl) returns (r: Option<(Json, nat)>)
    requires offset <= |bytes| && (p.UInt? || p.SInt?) && 0 < p.width <= 16
    ensures r == DecodePrimitive(idl, p, bytes[offset..])
  {
    if offset + p.width <= |bytes| {
      Rest(bytes, offset, p.width);
    }
    if p.UInt? {
      var n := ReadLeUnsigned(bytes, offset, p.width);
      return if n.None? then None else Some((Str(Decimal(n.value)), p.width));
    }
    var n := ReadLeSigned(bytes, offset, p.width);
    r := if n.None? then None else Some((Str(DecimalInt(n.value)), p.width));
  }

  method DecodeBorshText(bytes: seq<Byte>, offset: nat, ghost idl: Idl) returns (r: Option<(Json, nat)>)
    requires offset <= |bytes|
    ensures r == DecodePrimitive(idl, Text, bytes[offset..])
  {
    hide Utf8.Decode, Value;
    ghost var b := bytes[offset..];
    var len := ReadLeUnsigned(bytes, offset, 4);
    if len.None? {
      return None;
    }
    Rest(bytes, offset, 4);
    if offset + 4 + len.value > |bytes| {
      return None;
    }
    assert b[4..4 + len.value] == bytes[offset + 4..offset + 4 + len.value];
    var text := Utf8.Decode(bytes[offset + 4..offset + 4 + len.value]);
    r := if text.None? then None else Some((Str(text.value), 4 + len.value));
  }

  method DecodeBorshPrimitive(idl: Idl, name: string, bytes: seq<Byte>, offset: nat) returns (r: Option<(Json, nat)>)
    requires offset <= |bytes|
    ensures r == DecodePrimitive(idl, PrimitiveOf(name), bytes[offset..])
  {
    var p := PrimitiveOf(name);
    Widths(name);
    hide PrimitiveOf;
    match p {
      case Boolean =>
        if offset == |bytes| {
          return None;
        }
        r := Some((Bool(bytes[offset] != 0), 1));
      case Account =>
        if offset + 32 > |bytes| {
          return None;
        }
        Rest(bytes, offset, 32);
        r := Some((Str(idl.accountText(bytes[offset..offset + 32])), 32));
      case Program =>
        if offset + 32 > |bytes| {
          return None;
        }
        Rest(bytes, offset, 32);
        r := Some((Str(HexBytes(bytes[offset..offset + 32])), 32));
      case Text => r := DecodeBorshText(bytes, offset, idl);
      case NotPrimitive => r := None;
      case _ => r := DecodeBorshNumber(p, bytes, offset, idl);
    }
  }

  lemma Widths(name: string)
    ensures var p := PrimitiveOf(name); p.UInt? || p.SInt? ==> 0 < p.width <= 16
  {
  }

  // ---------------------------------------------------------------- the recursion

  /** Values already decoded in front of what the rest decodes to. */
  function Prefixed(values: seq<Json>, used: nat, rest: Option<(seq<Json>, nat)>): Option<(seq<Json>, nat)> {
    match rest case None => None case Some(d) => Some((values + d.0, used + d.1))
  }

  /** The element loop of vectors and arrays. */
  method DecodeElements(idl: Idl, ty: Type, bytes: seq<Byte>, offset: nat, depth: nat, n: nat) returns (r: Option<(seq<Json>, nat)>)
    requires offset <= |bytes| && depth <= MAX_DEPTH
    ensures r == DecodeMany(idl, ty, bytes[offset..], depth, n)
    decreases Left(depth), 1
  {
    hide DecodeType, DecodeMany;
    var cursor := offset;
    var values := [];
    ghost var whole := DecodeMany(idl, ty, bytes[offset..], depth, n);
    PrefixNone(whole);
    var i := 0;
    while i < n
      invariant i <= n && offset <= cursor <= |bytes|
      invariant whole == Prefixed(values, cursor - offset, DecodeMany(idl, ty, bytes[cursor..], depth, n - i))
    {
      ManyStep(idl, ty, bytes[cursor..], depth, n - i);
      var d := DecodeBorshType(idl, ty, bytes, cursor, depth + 1);
      if d.None? {
        return None;
      }
      Rest(bytes, cursor, d.value.1);
      PrefixMore(values, cursor - offset, d.value.0, d.value.1, DecodeMany(idl, ty, bytes[cursor + d.value.1..], depth, n - i - 1));
      cursor := cursor + d.value.1;
      values := values + [d.value.0];
      i := i + 1;
    }
    ManyEmpty(idl, ty, bytes[cursor..], depth);
    assert values + [] == values;
    r := Some((values, cursor - offset));
  }

  lemma PrefixNone(rest: Option<(seq<Json>, nat)>)
    ensures Prefixed([], 0, rest) == rest
  {
    if rest.Some? {
      assert [] + rest.value.0 == rest.value.0;
    }
  }

  lemma PrefixMore(values: seq<Json>, used: nat, j: Json, n: nat, rest: Option<(seq<Json>, nat)>)
    ensures Prefixed(values, used, match rest case None => None case Some(d) => Some(([j] + d.0, n + d.1)))
         == Prefixed(values + [j], used + n, rest)
  {
    if rest.Some? {
      assert values + ([j] + rest.value.0) == (values + [j]) + rest.value.0;
    }
  }

  method DecodeBorshType(idl: Idl, ty: Type, bytes: seq<Byte>, offset: nat, depth: nat) returns (r: Option<(Json, nat)>)
    requires offset <= |bytes|
    ensures r == DecodeType(idl, ty, bytes[offset..], depth)
    decreases Left(depth), 3
  {
    hide DecodePrimitive, PrimitiveOf, FindShape, DecodeMany, DecodeShape, Value;
    if depth > MAX_DEPTH {
      return None;
    }
    match ty {
      case Named(name) => r := DecodeBorshPrimitive(idl, name, bytes, offset);
      case Opt(inner) =>
        if offset == |bytes| {
          return None;
        }
        Rest(bytes, offset, 1);
        var tag := bytes[offset];
        if tag == 0 {
          return Some((Null, 1));
        }
        if tag != 1 {
          return None;
        }
        var d := DecodeBorshType(idl, inner, bytes, offset + 1, depth + 1);
        r := if d.None? then None else Some((d.value.0, d.value.1 + 1));
      case Vec(inner) =>
        if offset + 4 <= |bytes| {
          Rest(bytes, offset, 4);
        }
        var len := ReadLeUnsigned(bytes, offset, 4);
        if len.None? || len.value > MAX_LENGTH {
          return None;
        }
        var d := DecodeElements(idl, inner, bytes, offset + 4, depth, len.value);
        r := if d.None? then None else Some((List(d.value.0), d.value.1 + 4));
      case Arr(inner, len) =>
        if len > MAX_LENGTH {
          return None;
        }
        var d := DecodeElements(idl, inner, bytes, offset, depth, len);
        r := if d.None? then None else Some((List(d.value.0), d.value.1));
      case Defined(name) =>
        var shape := FindShape(idl, name);
        if shape.None? {
          return None;
        }
        r := DecodeBorshShape(idl, shape.value, bytes, offset, depth + 1);
      case Inline(shape) => r := DecodeBorshShape(idl, shape, bytes, offset, depth + 1);
      case Malformed => r := None;
    }
  }

  /** Fields already inserted, then those the rest decodes to. */
  function Inserted(object_: map<string, Json>, used: nat, rest: Option<(map<string, Json>, nat)>): Option<(map<string, Json>, nat)> {
    match rest case None => None case Some(d) => Some((object_ + d.0, used + d.1))
  }

  lemma InsertNone(rest: Option<(map<string, Json>, nat)>)
    ensures Inserted(map[], 0, rest) == rest
  {
    if rest.Some? {
      assert map[] + rest.value.0 == rest.value.0;
    }
  }

  lemma InsertMore(object_: map<string, Json>, used: nat, name: string, j: Json, n: nat, rest: Option<(map<string, Json>, nat)>)
    ensures Inserted(object_, used, match rest case None => None case Some(d) => Some((map[name := j] + d.0, n + d.1)))
         == Inserted(object_[name := j], used + n, rest)
  {
    if rest.Some? {
      assert object_ + (map[name := j] + rest.value.0) == object_[name := j] + rest.value.0;
    }
  }

  lemma FieldsStep(idl: Idl, fields: seq<Field>, index: nat, b: seq<Byte>, depth: nat)
    requires index < |fields| && depth <= MAX_DEPTH && fields[index].ty.Some?
    ensures DecodeFields(idl, fields, index, b, depth) == (
              match DecodeType(idl, fields[index].ty.value, b, depth + 1)
              case None => None
              case Some(d) => (match DecodeFields(idl, fields, index + 1, b[d.1..], depth)
                               case None => None
                               case Some(rest) => Some((map[FieldName(fields[index], index) := d.0] + rest.0, d.1 + rest.1))))
  {
  }

  lemma FieldUntyped(idl: Idl, fields: seq<Field>, index: nat, b: seq<Byte>, depth: nat)
    requires index < |fields| && depth <= MAX_DEPTH && fields[index].ty.None?
    ensures DecodeFields(idl, fields, index, b, depth) == None
  {
  }

  lemma FieldsEmpty(idl: Idl, fields: seq<Field>, b: seq<Byte>, depth: nat)
    requires depth <= MAX_DEPTH
    ensures DecodeFields(idl, fields, |fields|, b, depth) == Some((map[], 0))
  {
  }

  /** The field loop of structs and enum variants. */
  method DecodeBorshFields(idl: Idl, fields: seq<Field>, bytes: seq<Byte>, offset: nat, depth: nat)
    returns (r: Option<(map<string, Json>, nat)>)
    requires offset <= |bytes| && depth <= MAX_DEPTH
    ensures r == DecodeFields(idl, fields, 0, bytes[offset..], depth)
    decreases Left(depth), 1
  {
    hide DecodeType, DecodeFields, FieldName;
    var cursor := offset;
    var object_ := map[];
    ghost var whole := DecodeFields(idl, fields, 0, bytes[offset..], depth);
    InsertNone(whole);
    var index := 0;
    while index < |fields|
      invariant index <= |fields| && offset <= cursor <= |bytes|
      invariant whole == Inserted(object_, cursor - offset, DecodeFields(idl, fields, index, bytes[cursor..], depth))
    {
      var name := FieldName(fields[index], index);
      if fields[index].ty.None? {
        FieldUntyped(idl, fields, index, bytes[cursor..], depth);
        return None;
      }
      FieldsStep(idl, fields, index, bytes[cursor..], depth);
      var d := DecodeBorshType(idl, fields[index].ty.value, bytes, cursor, depth + 1);
      if d.None? {
        return None;
      }
      Rest(bytes, cursor, d.value.1);
      InsertMore(object_, cursor - offset, name, d.value.0, d.value.1,
                 DecodeFields(idl, fields, index + 1, bytes[cursor + d.value.1..], depth));
      cursor := cursor + d.value.1;
      object_ := object_[name := d.value.0];
      index := index + 1;
    }
    FieldsEmpty(idl, fields, bytes[cursor..], depth);
    assert object_ + map[] == object_;
    r := Some((object_, cursor - offset));
  }

  method DecodeBorshShape(idl: Idl, shape: Shape, bytes: seq<Byte>, offset: nat, depth: nat) returns (r: Option<(Json, nat)>)
    requires offset <= |bytes|
    ensures r == DecodeShape(idl, shape, bytes[offset..], depth)
    decreases Left(depth), 2
  {
    hide DecodeFields;
    if depth > MAX_DEPTH {
      return None;
    }
    match shape {
      case Struct(fields) =>
        var d := DecodeBorshFields(idl, fields, bytes, offset, depth);
        r := if d.None? then None else Some((Object(d.value.0), d.value.1));
      case Enum(variants) =>
        if offset == |bytes| || bytes[offset] >= |variants| {
          return None;
        }
        Rest(bytes, offset, 1);
        var v := variants[bytes[offset]];
        var d := DecodeBorshFields(idl, v.fields, bytes, offset + 1, depth);
        r := if d.None? then None
             else Some((Tagged(if v.name.Some? then v.name.value else "unknown", bytes[offset], d.value.0), d.value.1 + 1));
      case BadShape => r := None;
    }
  }
}
