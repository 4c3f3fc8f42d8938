/** The byte decoder that an IDL's type descriptions drive, and the encoding it reads. */
module BorshModel {
  import opened Totals
  import opened Utf8
  import opened LittleEndian
  import opened TextFormat
  import opened IdlLimits

  datatype Primitive = Boolean | UInt(width: nat) | SInt(width: nat) | Account | Program | Text | NotPrimitive

  function PrimitiveOf(name: string): Primitive {
    if name == "bool" then Boolean
    else if name == "u8" then UInt(1)
    else if name == "i8" then SInt(1)
    else if name == "u16" then UInt(2)
    else if name == "i16" then SInt(2)
    else if name == "u32" then UInt(4)
    else if name == "i32" then SInt(4)
    else if name == "u64" then UInt(8)
    else if name == "i64" then SInt(8)
    else if name == "u128" then UInt(16)
    else if name == "i128" then SInt(16)
    else if name == "account_id" then Account
    else if name == "program_id" then Program
    else if name == "string" then Text
    else NotPrimitive
  }

  /** A type description. `Malformed` stands for every description the decoder rejects
      by its form. */
  datatype Type =
    | Named(name: string)
    | Opt(inner: Type)
    | Vec(inner: Type)
    | Arr(inner: Type, len: nat)
    | Defined(name: string)
    | Inline(shape: Shape)
    | Malformed

  datatype Shape = Struct(fields: seq<Field>) | Enum(variants: seq<Variant>) | BadShape

  datatype Field = Field(name: Option<string>, ty: Option<Type>)

  datatype Variant = Variant(name: Option<string>, fields: seq<Field>)

  /** The named shapes of an IDL, and the text of an account id. */
  datatype Idl = Idl(types: seq<(string, Shape)>, accounts: seq<(string, Option<Shape>)>, accountText: seq<Byte> -> string)

  datatype Json =
    | Null
    | Bool(b: bool)
    | Str(text: string)
    | List(items: seq<Json>)
    | Object(fields: map<string, Json>)
    | Tagged(variant: string, index: nat, fields: map<string, Json>)

  function FindType(types: seq<(string, Shape)>, name: string): Option<Shape> {
    if types == [] then None
    else if types[0].0 == name then Some(types[0].1)
    else FindType(types[1..], name)
  }

  function FindAccount(accounts: seq<(string, Option<Shape>)>, name: string): Option<Shape> {
    if accounts == [] then None
    else if accounts[0].0 == name then accounts[0].1
    else FindAccount(accounts[1..], name)
  }

  /** `find_defined_shape`: the types first, then the accounts. */
  function FindShape(idl: Idl, name: string): Option<Shape> {
    match FindType(idl.types, name)
    case Some(s) => Some(s)
    case None => FindAccount(idl.accounts, name)
  }

  function FieldName(f: Field, index: nat): string {
    if f.name.Some? then f.name.value else "field_" + Decimal(index)
  }

  // ----------------------------------------------------------------- decoding

  function DecodePrimitive(idl: Idl, p: Primitive, b: seq<Byte>): (r: Option<(Json, nat)>)
    ensures r.Some? ==> r.value.1 <= |b|
  {
    match p
    case Boolean => if b == [] then None else Some((Bool(b[0] != 0), 1))
    case UInt(w) => if |b| < w then None else Some((Str(Decimal(Value(b[..w], 256))), w))
    case SInt(w) => if |b| < w then None else Some((Str(DecimalInt(Signed(Value(b[..w], 256), Pow(256, w)))), w))
    case Account => if |b| < 32 then None else Some((Str(idl.accountText(b[..32])), 32))
    case Program => if |b| < 32 then None else Some((Str(HexBytes(b[..32])), 32))
    case Text =>
      if |b| < 4 then None
      else
        var len := Value(b[..4], 256);
        if |b| < 4 + len then None
        else (match Utf8.Decode(b[4..4 + len]) case None => None case Some(s) => Some((Str(s), 4 + len)))
    case NotPrimitive => None
  }

  /** `decode_borsh_type` on the bytes from its offset: a value and how many bytes it took. */
  function DecodeType(idl: Idl, ty: Type, b: seq<Byte>, depth: nat): (r: Option<(Json, nat)>)
    ensures r.Some? ==> r.value.1 <= |b|
    decreases Left(depth), 3, 0
  {
    if depth > MAX_DEPTH then None
    else
      match ty
      case Named(name) => DecodePrimitive(idl, PrimitiveOf(name), b)
      case Opt(inner) =>
        if b == [] then None
        else if b[0] == 0 then Some((Null, 1))
        else if b[0] != 1 then None
        else (match DecodeType(idl, inner, b[1..], depth + 1) case None => None case Some(d) => Some((d.0, d.1 + 1)))
      case Vec(inner) =>
        if |b| < 4 then None
        else
          var len := Value(b[..4], 256);
          if len > MAX_LENGTH then None
          else (match DecodeMany(idl, inner, b[4..], depth, len) case None => None case Some(d) => Some((List(d.0), d.1 + 4)))
      case Arr(inner, len) =>
        if len > MAX_LENGTH then None
        else (match DecodeMany(idl, inner, b, depth, len) case None => None case Some(d) => Some((List(d.0), d.1)))
      case Defined(name) =>
        (match FindShape(idl, name) case None => None case Some(shape) => DecodeShape(idl, shape, b, depth + 1))
      case Inline(shape) => DecodeShape(idl, shape, b, depth + 1)
      case Malformed => None
  }

  /** `n` values in a row. */
  function DecodeMany(idl: Idl, ty: Type, b: seq<Byte>, depth: nat, n: nat): (r: Option<(seq<Json>, nat)>)
    requires depth <= MAX_DEPTH
    ensures r.Some? ==> r.value.1 <= |b|
    decreases Left(depth), 1, n
  {
    if n == 0 then Some(([], 0))
    else
      match DecodeType(idl, ty, b, depth + 1)
      case None => None
      case Some(d) =>
        match DecodeMany(idl, ty, b[d.1..], depth, n - 1)
        case None => None
        case Some(rest) => Some(([d.0] + rest.0, d.1 + rest.1))
  }

  function DecodeShape(idl: Idl, shape: Shape, b: seq<Byte>, depth: nat): (r: Option<(Json, nat)>)
    ensures r.Some? ==> r.value.1 <= |b|
    decreases Left(depth), 2, 0
  {
    if depth > MAX_DEPTH then None
    else
      match shape
      case Struct(fields) =>
        (match DecodeFields(idl, fields, 0, b, depth) case None => None case Some(d) => Some((Object(d.0), d.1)))
      case Enum(variants) =>
        if b == [] || b[0] >= |variants| then None
        else
          var v := variants[b[0]];
          (match DecodeFields(idl, v.fields, 0, b[1..], depth)
           case None => None
           case Some(d) => Some((Tagged(if v.name.Some? then v.name.value else "unknown", b[0], d.0), d.1 + 1)))
      case BadShape => None
  }

  /** The fields from `index` on, each inserted under its name. */
  function DecodeFields(idl: Idl, fields: seq<Field>, index: nat, b: seq<Byte>, depth: nat): (r: Option<(map<string, Json>, nat)>)
    requires index <= |fields| && depth <= MAX_DEPTH
    ensures r.Some? ==> r.value.1 <= |b|
    decreases Left(depth), 1, |fields| - index
  {
    if index == |fields| then Some((map[], 0))
    else if fields[index].ty.None? then None
    else
      match DecodeType(idl, fields[index].ty.value, b, depth + 1)
      case None => None
      case Some(d) =>
        match DecodeFields(idl, fields, index + 1, b[d.1..], depth)
        case None => None
        case Some(rest) => Some((map[FieldName(fields[index], index) := d.0] + rest.0, d.1 + rest.1))
  }

  // ------------------------------------------------------- values and encoding

  datatype Val =
    | VBool(b: bool)
    | VUInt(width: nat, u: nat)
    | VSInt(width: nat, i: int)
    | VText(s: string)
    | VKey(bytes: seq<Byte>)
    | VNone
    | VSome(v: Val)
    | VVec(vs: Vals)
    | VSeq(vs: Vals)
    | VEnum(index: Byte, vs: Vals)

  datatype Vals = Nil | Cons(head: Val, tail: Vals)

  function Count(vs: Vals): nat {
    if vs.Nil? then 0 else 1 + Count(vs.tail)
  }

  /** The `n` lowest bytes of a number. */
  function Bytes(u: nat, n: nat): (r: seq<Byte>)
    ensures |r| == n
    decreases n
  {
    if n == 0 then [] else [u % 256] + Bytes(u / 256, n - 1)
  }

  /** The Borsh encoding. */
  function Encoding(v: Val): seq<Byte> {
    match v
    case VBool(b) => [if b then 1 else 0]
    case VUInt(w, u) => Bytes(u, w)
    case VSInt(w, i) => Bytes(Clamp(Unsigned(i, Pow(256, w))), w)
    case VText(s) => Bytes(|Utf8.Encode(s)|, 4) + Utf8.Encode(s)
    case VKey(k) => k
    case VNone => [0]
    case VSome(x) => [1] + Encoding(x)
    case VVec(vs) => Bytes(Count(vs), 4) + Encodings(vs)
    case VSeq(vs) => Encodings(vs)
    case VEnum(i, vs) => [i] + Encodings(vs)
  }

  function Encodings(vs: Vals): seq<Byte> {
    if vs.Nil? then [] else Encoding(vs.head) + Encodings(vs.tail)
  }

  /** The bytes a reader accepts for a value: its encoding, except that any non-zero byte
      stands for `true`. */
  predicate EncodedAs(v: Val, e: seq<Byte>) {
    match v
    case VBool(b) => |e| == 1 && (e[0] != 0 <==> b)
    case VSome(x) => e != [] && e[0] == 1 && EncodedAs(x, e[1..])
    case VVec(vs) => |e| >= 4 && e[..4] == Bytes(Count(vs), 4) && AllEncodedAs(vs, e[4..])
    case VSeq(vs) => AllEncodedAs(vs, e)
    case VEnum(i, vs) => e != [] && e[0] == i && AllEncodedAs(vs, e[1..])
    case _ => e == Encoding(v)
  }

  predicate AllEncodedAs(vs: Vals, e: seq<Byte>) {
    if vs.Nil? then e == []
    else
      var n := |Encoding(vs.head)|;
      n <= |e| && EncodedAs(vs.head, e[..n]) && AllEncodedAs(vs.tail, e[n..])
  }

  // ---------------------------------------------------------------- rendering

  function RenderPrimitive(idl: Idl, p: Primitive, v: Val): Option<Json> {
    match (p, v)
    case (Boolean, VBool(b)) => Some(Bool(b))
    case (UInt(w), VUInt(n, u)) => if n == w && u < Pow(256, w) then Some(Str(Decimal(u))) else None
    case (SInt(w), VSInt(n, i)) => if n == w && InSigned(i, Pow(256, w)) then Some(Str(DecimalInt(i))) else None
    case (Account, VKey(k)) => if |k| == 32 then Some(Str(idl.accountText(k))) else None
    case (Program, VKey(k)) => if |k| == 32 then Some(Str(HexBytes(k))) else None
    case (Text, VText(s)) => if |Utf8.Encode(s)| < Pow(256, 4) then Some(Str(s)) else None
    case _ => None
  }

  /** The JSON rendering of a value that is well-typed and within the depth and length
      limits; nothing for any other value. */
  function Render(idl: Idl, ty: Type, v: Val, depth: nat): Option<Json>
    decreases Left(depth), 3, v
  {
    if depth > MAX_DEPTH then None
    else
      match ty
      case Named(name) => RenderPrimitive(idl, PrimitiveOf(name), v)
      case Opt(inner) => if v.VNone? then Some(Null) else if v.VSome? then Render(idl, inner, v.v, depth + 1) else None
      case Vec(inner) =>
        if v.VVec? && Count(v.vs) <= MAX_LENGTH then
          (match RenderMany(idl, inner, v.vs, depth) case None => None case Some(js) => Some(List(js)))
        else None
      case Arr(inner, len) =>
        if v.VSeq? && Count(v.vs) == len <= MAX_LENGTH then
          (match RenderMany(idl, inner, v.vs, depth) case None => None case Some(js) => Some(List(js)))
        else None
      case Defined(name) =>
        (match FindShape(idl, name) case None => None case Some(shape) => RenderShape(idl, shape, v, depth + 1))
      case Inline(shape) => RenderShape(idl, shape, v, depth + 1)
      case Malformed => None
  }

  function RenderMany(idl: Idl, ty: Type, vs: Vals, depth: nat): Option<seq<Json>>
    requires depth <= MAX_DEPTH
    decreases Left(depth), 1, vs
  {
    match vs
    case Nil => Some([])
    case Cons(head, tail) =>
      match (Render(idl, ty, head, depth + 1), RenderMany(idl, ty, tail, depth))
      case (Some(j), Some(js)) => Some([j] + js)
      case _ => None
  }

  function RenderShape(idl: Idl, shape: Shape, v: Val, depth: nat): Option<Json>
    decreases Left(depth), 2, v
  {
    if depth > MAX_DEPTH then None
    else
      match shape
      case Struct(fields) =>
        if v.VSeq? then (match RenderFields(idl, fields, 0, v.vs, depth) case None => None case Some(m) => Some(Object(m)))
        else None
      case Enum(variants) =>
        if v.VEnum? && v.index < |variants| then
          var variant := variants[v.index];
          (match RenderFields(idl, variant.fields, 0, v.vs, depth)
           case None => None
           case Some(m) => Some(Tagged(if variant.name.Some? then variant.name.value else "unknown", v.index, m)))
        else None
      case BadShape => None
  }

  function RenderFields(idl: Idl, fields: seq<Field>, index: nat, vs: Vals, depth: nat): Option<map<string, Json>>
    requires index <= |fields| && depth <= MAX_DEPTH
    decreases Left(depth), 1, vs
  {
    match vs
    case Nil => if index == |fields| then Some(map[]) else None
    case Cons(head, tail) =>
      if index == |fields| || fields[index].ty.None? then None
      else
        match (Render(idl, fields[index].ty.value, head, depth + 1), RenderFields(idl, fields, index + 1, tail, depth))
        case (Some(j), Some(m)) => Some(map[FieldName(fields[index], index) := j] + m)
        case _ => None
  }
}
