/** Instruction arguments: parsing text, encoding words, decoding words. */
module InstructionModel {
  import opened Totals
  import opened Utf8
  import opened LittleEndian
  import opened TextFormat
  import opened IdlLimits
  import opened InstructionVariants

  type Word32 = n: nat | n < TWO32

  datatype Type = Named(name: string) | Arr(elem: Type, len: nat) | Vec(elem: Type) | Opt(inner: Type) | Defined(name: string) | Malformed

  /** Account ids and program ids are read and shown by other modules: from what a user
      types, from the wire, and back to text. */
  datatype Ids = Ids(readAccount: string -> Option<seq<Byte>>, readWire: string -> Option<seq<Byte>>,
                     showAccount: seq<Byte> -> string, readProgram: string -> Option<string>)

  /** What those modules promise: an account id that a user types has 32 bytes, the text of
      32 bytes reads back from the wire, and a program id is 64 lower-case hexadecimal
      digits. */
  ghost predicate Faithful(ids: Ids) {
    && (forall s: string :: ids.readAccount(s).Some? ==> |ids.readAccount(s).value| == 32)
    && (forall a: seq<Byte> :: |a| == 32 ==> ids.readWire(ids.showAccount(a)) == Some(a))
    && (forall s: string :: ids.readProgram(s).Some? ==> |ids.readProgram(s).value| == 64 && LowerHex(ids.readProgram(s).value))
  }

  /** An integer type: its range, whether it is signed, and how many words it takes. */
  datatype Num = Num(range: nat, signed: bool, words: nat)

  function NumOf(name: string): Option<Num> {
    if name == "u8" then Some(Num(256, false, 1))
    else if name == "u16" then Some(Num(65536, false, 1))
    else if name == "u32" then Some(Num(TWO32, false, 1))
    else if name == "i8" then Some(Num(256, true, 1))
    else if name == "i16" then Some(Num(65536, true, 1))
    else if name == "i32" then Some(Num(TWO32, true, 1))
    else if name == "u64" then Some(Num(Pow(TWO32, 2), false, 2))
    else if name == "i64" then Some(Num(Pow(TWO32, 2), true, 2))
    else if name == "u128" then Some(Num(Pow(TWO32, 4), false, 4))
    else if name == "i128" then Some(Num(Pow(TWO32, 4), true, 4))
    else None
  }

  predicate Fits(n: Num, v: int) {
    if n.signed then InSigned(v, n.range) else 0 <= v < n.range
  }

  /** `DynamicValue`. */
  datatype Dynamic =
    | DBool(b: bool)
    | DNum(num: Num, v: int)
    | DStr(s: string)
    | DTuple(items: seq<Dynamic>)
    | DSeq(items: seq<Dynamic>)
    | DNone
    | DSome(value: Dynamic)

  datatype Parsed = Parsed(report: string, value: Dynamic)

  // ------------------------------------------------------------------ parsing

  /** `str::parse` for an integer type: no minus sign for an unsigned one. */
  function ParseNum(s: string, n: Num): Option<int> {
    var v := if s != "" && s[0] == '-' && !n.signed then None else IntegerValue(s);
    if v.Some? && Fits(n, v.value) then v else None
  }

  function ParseBool(s: string): Option<bool> {
    if s == "true" || s == "1" || s == "yes" then Some(true)
    else if s == "false" || s == "0" || s == "no" then Some(false)
    else None
  }

  function StripPrefix(s: string, p: string): string {
    if p <= s then s[|p|..] else s
  }

  /** The privacy prefixes that an account argument may carry. */
  function StripAccountPrefix(s: string): string {
    if "Private/" <= s then StripPrefix(s, "Private/")
    else if "private/" <= s then StripPrefix(s, "private/")
    else if "Public/" <= s then StripPrefix(s, "Public/")
    else StripPrefix(s, "public/")
  }

  function ProgramItems(hex: string): Option<seq<Dynamic>> {
    match UnhexBytes(hex)
    case None => None
    case Some(b) => if |b| == 32 then Some(Numbers(Num(TWO32, false, 1), WordsOf(b))) else None
  }

  function ParsePrimitive(ids: Ids, raw: string, name: string): Option<Parsed> {
    var s := Trim(raw);
    if NumOf(name).Some? then
      (match ParseNum(s, NumOf(name).value) case None => None case Some(v) => Some(Parsed(DecimalInt(v), DNum(NumOf(name).value, v))))
    else if name == "bool" then
      (match ParseBool(s) case None => None case Some(b) => Some(Parsed(if b then "true" else "false", DBool(b))))
    else if name == "string" || name == "String" then Some(Parsed(s, DStr(s)))
    else if name == "account_id" then
      (match ids.readAccount(Trim(StripAccountPrefix(s)))
       case None => None
       case Some(a) => Some(Parsed(ids.showAccount(a), DStr(ids.showAccount(a)))))
    else if name == "program_id" then
      (match ids.readProgram(s)
       case None => None
       case Some(hex) => (match ProgramItems(hex) case None => None case Some(items) => Some(Parsed(hex, DTuple(items)))))
    else None
  }

  function Numbers(n: Num, vs: seq<nat>): (r: seq<Dynamic>)
    ensures |r| == |vs|
  {
    if vs == [] then [] else [DNum(n, vs[0])] + Numbers(n, vs[1..])
  }

  function Zeros(n: nat): (r: seq<Byte>)
    ensures |r| == n
  {
    if n == 0 then [] else [0] + Zeros(n - 1)
  }

  predicate AllHex(s: string) {
    forall i :: 0 <= i < |s| ==> HexDigitOf(s[i]).Some?
  }

  /** The bytes of a byte array argument: hexadecimal, or text padded with zeros. */
  function ArrayBytes(raw: string, size: nat): Option<seq<Byte>> {
    var s := Trim(raw);
    var bytes := if "0x" <= s || "0X" <= s then UnhexBytes(s[2..])
                 else if |Utf8.Encode(s)| == size * 2 && AllHex(s) then UnhexBytes(s)
                 else if |Utf8.Encode(s)| > size then None
                 else Some(Utf8.Encode(s) + Zeros(size - |Utf8.Encode(s)|));
    if bytes.Some? && |bytes.value| == size then bytes else None
  }

  function ParseU8Array(raw: string, size: nat): Option<Parsed> {
    match ArrayBytes(raw, size)
    case None => None
    case Some(b) => Some(Parsed("0x" + HexBytes(b), DTuple(Numbers(Num(256, false, 1), b))))
  }

  /** `str::split` at commas. */
  function SplitCommas(s: string): (r: seq<string>)
    ensures |r| >= 1
  {
    if s == "" then [""]
    else if s[0] == ',' then [""] + SplitCommas(s[1..])
    else var rest := SplitCommas(s[1..]); [[s[0]] + rest[0]] + rest[1..]
  }

  function ParseItems(parts: seq<string>, n: Num): Option<seq<nat>>
    requires !n.signed
  {
    if parts == [] then Some([])
    else
      match ParseNum(Trim(parts[0]), n)
      case None => None
      case Some(v) => (match ParseItems(parts[1..], n) case None => None case Some(vs) => Some([v] + vs))
  }

  function JoinTexts(ts: seq<string>): string {
    if ts == [] then "" else if |ts| == 1 then ts[0] else ts[0] + ", " + JoinTexts(ts[1..])
  }

  function Decimals(vs: seq<nat>): (r: seq<string>)
    ensures |r| == |vs|
  {
    if vs == [] then [] else [Decimal(vs[0])] + Decimals(vs[1..])
  }

  function ParseU32Array(raw: string, size: nat): Option<Parsed> {
    if |SplitCommas(raw)| != size then None
    else
      match ParseItems(SplitCommas(raw), Num(TWO32, false, 1))
      case None => None
      case Some(vs) => Some(Parsed("[" + JoinTexts(Decimals(vs)) + "]", DTuple(Numbers(Num(TWO32, false, 1), vs))))
  }

  function ParseChunks(parts: seq<string>, size: nat): Option<seq<Dynamic>> {
    if parts == [] then Some([])
    else
      match ParseU8Array(Trim(parts[0]), size)
      case None => None
      case Some(p) => (match ParseChunks(parts[1..], size) case None => None case Some(ds) => Some([p.value] + ds))
  }

  function ParseVec(raw: string, elem: Type): Option<Parsed> {
    var parts := if Trim(raw) == "" then [] else SplitCommas(raw);
    if elem.Arr? then
      if elem.elem != Named("u8") || elem.len > MAX_LENGTH then None
      else (match ParseChunks(parts, elem.len)
            case None => None
            case Some(ds) => Some(Parsed(Decimal(|ds|) + " items", DSeq(ds))))
    else if elem == Named("u8") then
      (match ParseItems(parts, Num(256, false, 1))
       case None => None
       case Some(vs) => Some(Parsed(Decimal(|vs|) + " bytes", DSeq(Numbers(Num(256, false, 1), vs)))))
    else if elem == Named("u32") then
      (match ParseItems(parts, Num(TWO32, false, 1))
       case None => None
       case Some(vs) => Some(Parsed(Decimal(|vs|) + " words", DSeq(Numbers(Num(TWO32, false, 1), vs)))))
    else None
  }

  /** `validate_interaction_type`. */
  predicate Supported(ty: Type) {
    match ty
    case Named(name) => NumOf(name).Some? || name in {"bool", "string", "String", "account_id", "program_id"}
    case Arr(elem, len) => len <= MAX_LENGTH && (elem == Named("u8") || elem == Named("u32"))
    case Vec(elem) => (elem.Arr? && elem.len <= MAX_LENGTH && elem.elem == Named("u8")) || elem == Named("u8") || elem == Named("u32")
    case Opt(inner) => Supported(inner)
    case Defined(_) => false
    case Malformed => false
  }

  /** `parse_typed_value`. */
  function ParseTyped(ids: Ids, raw: string, ty: Type): Option<Parsed> {
    if !Supported(ty) then None
    else
      match ty
      case Named(name) => ParsePrimitive(ids, raw, name)
      case Arr(elem, len) => if elem == Named("u8") then ParseU8Array(raw, len) else ParseU32Array(raw, len)
      case Vec(elem) => ParseVec(raw, elem)
      case Opt(inner) =>
        if Trim(raw) == "" || Trim(raw) == "none" || Trim(raw) == "null" then Some(Parsed("None", DNone))
        else
          (match ParseTyped(ids, raw, inner)
           case None => None
           case Some(p) => Some(Parsed("Some(" + p.report + ")", DSome(p.value))))
      case Defined(_) => None
      case Malformed => None
  }

  // ----------------------------------------------------------------- encoding

  /** Four bytes a word, the last word padded with zeros. */
  function WordsOf(b: seq<Byte>): seq<Word32>
    decreases |b|
  {
    if b == [] then []
    else if |b| >= 4 then [WordOf(b[0], b[1], b[2], b[3])] + WordsOf(b[4..])
    else [WordOf(b[0], if |b| > 1 then b[1] else 0, if |b| > 2 then b[2] else 0, 0)]
  }

  function WordOf(b0: Byte, b1: Byte, b2: Byte, b3: Byte): Word32 {
    var v: nat := b0 as nat + 0x100 * b1 as nat + 0x1_0000 * b2 as nat + 0x100_0000 * b3 as nat;
    v
  }

  function BytesOf(w: seq<Word32>): (r: seq<Byte>)
    ensures |r| == 4 * |w|
  {
    if w == [] then [] else WordBytes(w[0]) + BytesOf(w[1..])
  }

  function WordBytes(w: Word32): (r: seq<Byte>)
    ensures |r| == 4
  {
    [w % 0x100, w / 0x100 % 0x100, w / 0x1_0000 % 0x100, w / 0x100_0000]
  }

  /** The `n` lowest words of a number. */
  function LowWords(v: nat, n: nat): (r: seq<Word32>)
    ensures |r| == n
    decreases n
  {
    if n == 0 then [] else [v % TWO32] + LowWords(v / TWO32, n - 1)
  }

  /** The serializer's words for a value. */
  function Words(d: Dynamic): seq<Word32> {
    match d
    case DBool(b) => [if b then 1 else 0]
    case DNum(n, v) => LowWords(Clamp(Unsigned(v, Pow(TWO32, n.words))), n.words)
    case DStr(s) => LowWords(|Utf8.Encode(s)|, 1) + WordsOf(Utf8.Encode(s))
    case DTuple(items) => AllWords(items)
    case DSeq(items) => LowWords(|items|, 1) + AllWords(items)
    case DNone => [0]
    case DSome(x) => [1] + Words(x)
  }

  function AllWords(items: seq<Dynamic>): seq<Word32> {
    if items == [] then [] else Words(items[0]) + AllWords(items[1..])
  }

  // ----------------------------------------------------------------- decoding

  function DecodeNum(n: Num, w: seq<Word32>): (r: Option<(string, nat)>)
    ensures r.Some? ==> r.value.1 <= |w|
  {
    if |w| < n.words then None
    else
      var u := Value(w[..n.words], TWO32);
      var v := if n.signed then Signed(u, Pow(TWO32, n.words)) else u;
      if Fits(n, v) then Some((DecimalInt(v), n.words)) else None
  }

  function DecodeText(w: seq<Word32>): (r: Option<(string, nat)>)
    ensures r.Some? ==> r.value.1 <= |w|
  {
    if w == [] then None
    else
      var n: nat := (w[0] as nat + 3) / 4;
      if |w| < 1 + n then None
      else
        match Utf8.Decode(BytesOf(w[1..1 + n])[..w[0]])
        case None => None
        case Some(s) => Some((s, 1 + n))
  }

  function DecodePrimitive(ids: Ids, name: string, w: seq<Word32>): (r: Option<(string, nat)>)
    ensures r.Some? ==> r.value.1 <= |w|
  {
    if NumOf(name).Some? then DecodeNum(NumOf(name).value, w)
    else if name == "bool" then if w == [] then None else Some((if w[0] != 0 then "true" else "false", 1))
    else if name == "account_id" then
      (match DecodeText(w)
       case None => None
       case Some(d) => (match ids.readWire(d.0) case None => None case Some(a) => Some((ids.showAccount(a), d.1))))
    else if name == "program_id" then if |w| < 8 then None else Some((HexBytes(BytesOf(w[..8])), 8))
    else if name == "string" || name == "String" then DecodeText(w)
    else None
  }

  /** `decode_instruction_type` on the words from its offset. */
  function DecodeType(ids: Ids, ty: Type, w: seq<Word32>, depth: nat): (r: Option<(string, nat)>)
    ensures r.Some? ==> r.value.1 <= |w|
    decreases Left(depth), 1, 0
  {
    if depth > MAX_DEPTH then None
    else
      match ty
      case Named(name) => DecodePrimitive(ids, name, w)
      case Opt(inner) =>
        if w == [] then None
        else if w[0] == 0 then Some(("None", 1))
        else if w[0] != 1 then None
        else (match DecodeType(ids, inner, w[1..], depth + 1)
              case None => None
              case Some(d) => Some(("Some(" + d.0 + ")", d.1 + 1)))
      case Arr(elem, len) =>
        if len > MAX_LENGTH then None
        else (match DecodeMany(ids, elem, w, depth, len)
              case None => None
              case Some(d) => Some(("[" + JoinTexts(d.0) + "]", d.1)))
      case Vec(_) => None
      case Defined(_) => None
      case Malformed => None
  }

  function DecodeMany(ids: Ids, ty: Type, w: seq<Word32>, depth: nat, n: nat): (r: Option<(seq<string>, nat)>)
    requires depth <= MAX_DEPTH
    ensures r.Some? ==> r.value.1 <= |w|
    decreases Left(depth), 0, n
  {
    if n == 0 then Some(([], 0))
    else
      match DecodeType(ids, ty, w, depth + 1)
      case None => None
      case Some(d) =>
        match DecodeMany(ids, ty, w[d.1..], depth, n - 1)
        case None => None
        case Some(rest) => Some(([d.0] + rest.0, d.1 + rest.1))
  }

  // -------------------------------------------------------------- instructions

  datatype Arg = Arg(name: Option<string>, ty: Option<Type>)

  datatype Row = Row(name: string, declared: Declared, args: seq<Arg>)

  /** The values shown for the arguments, whether one of them failed, and what is left. */
  datatype Decoded = Decoded(values: seq<string>, failed: bool, rest: seq<Word32>)

  /** The argument loop: stops at the first argument that does not decode. */
  function DecodeArgs(ids: Ids, args: seq<Arg>, w: seq<Word32>): Decoded {
    if args == [] then Decoded([], false, w)
    else if args[0].ty.None? then
      var d := DecodeArgs(ids, args[1..], w);
      d.(values := ["missing type"] + d.values)
    else
      match DecodeType(ids, args[0].ty.value, w, 0)
      case None => Decoded(["unsupported"], true, w)
      case Some(v) =>
        var d := DecodeArgs(ids, args[1..], w[v.1..]);
        d.(values := [v.0] + d.values)
  }

  function Declarations(rows: seq<Row>): (r: seq<Declared>)
    ensures |r| == |rows|
  {
    if rows == [] then [] else [rows[0].declared] + Declarations(rows[1..])
  }

  /** `decode_instruction_words_with_idl`: the row that the first word selects and its
      arguments. */
  function DecodeInstruction(ids: Ids, rows: seq<Row>, external: ExternalType, words: seq<Word32>): Option<(nat, Decoded)> {
    if words == [] then None
    else
      match VariantIndices(Declarations(rows), external)
      case None => None
      case Some(v) =>
        match RowOf(v, words[0])
        case None => None
        case Some(row) => if row < |rows| then Some((row, DecodeArgs(ids, rows[row].args, words[1..]))) else None
  }
}
