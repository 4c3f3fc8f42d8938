/** What was parsed and encoded decodes to what was reported. */
module InstructionRoundTrip {
  import opened Totals
  import opened Utf8
  import opened LittleEndian
  import opened TextFormat
  import opened IdlLimits
  import opened InstructionVariants
  import opened InstructionModel

  lemma Assoc(a: seq<Word32>, b: seq<Word32>, c: seq<Word32>)
    ensures (a + b) + c == a + (b + c)
  {
  }

  lemma Split(a: seq<Word32>, b: seq<Word32>, n: nat)
    requires n == |a|
    ensures (a + b)[..n] == a && (a + b)[n..] == b
  {
  }

  // ------------------------------------------------------------------- numbers

  predicate GoodNum(n: Num) {
    n.words > 0 && n.range <= Pow(TWO32, n.words)
  }

  lemma NumbersGood(name: string)
    ensures NumOf(name).Some? ==> GoodNum(NumOf(name).value)
    ensures GoodNum(Num(256, false, 1)) && GoodNum(Num(TWO32, false, 1))
  {
    assert Pow(TWO32, 1) == TWO32;
  }

  lemma {:induction false} LowWordsLowest(v: nat, n: nat)
    ensures LowWords(v, n) == Lowest(v, n, TWO32)
    decreases n
  {
    if n > 0 {
      LowWordsLowest(v / TWO32, n - 1);
    }
  }

  /** The unsigned form of a number that fits. */
  lemma FittingNumber(n: Num, v: int)
    requires GoodNum(n) && Fits(n, v)
    ensures var u := Unsigned(v, Pow(TWO32, n.words));
            && 0 <= u < Pow(TWO32, n.words)
            && v == if n.signed then Signed(u, Pow(TWO32, n.words)) else u
  {
    hide Pow;
    if n.signed {
      SignedUnsigned(v, Pow(TWO32, n.words));
    }
  }

  lemma NumRead(n: Num, v: int, post: seq<Word32>)
    requires GoodNum(n) && Fits(n, v)
    ensures |Words(DNum(n, v))| == n.words
    ensures DecodeNum(n, Words(DNum(n, v)) + post) == Some((DecimalInt(v), n.words))
  {
    hide Pow, Value, LowWords, DecimalInt;
    FittingNumber(n, v);
    var u := Unsigned(v, Pow(TWO32, n.words));
    var w := LowWords(u, n.words);
    LowWordsLowest(u, n.words);
    ValueLowest(u, n.words, TWO32);
    Split(w, post, n.words);
  }

  // --------------------------------------------------------------------- bytes

  lemma WordRoundTrip(b0: Byte, b1: Byte, b2: Byte, b3: Byte)
    ensures WordBytes(WordOf(b0, b1, b2, b3)) == [b0, b1, b2, b3]
  {
    var w: nat := WordOf(b0, b1, b2, b3);
    assert w == b0 + 0x100 * (b1 + 0x100 * (b2 + 0x100 * b3));
    DigitSplit(b0, b1 + 0x100 * (b2 + 0x100 * b3), 0x100);
    DigitSplit(b1, b2 + 0x100 * b3, 0x100);
    DigitSplit(b2, b3, 0x100);
    assert w / 0x100 / 0x100 == w / 0x1_0000;
    assert w / 0x1_0000 / 0x100 == w / 0x100_0000;
  }

  lemma {:induction false} BytesOfWords(b: seq<Byte>)
    ensures |WordsOf(b)| == (|b| + 3) / 4
    ensures |b| <= |BytesOf(WordsOf(b))| && BytesOf(WordsOf(b))[..|b|] == b
    decreases |b|
  {
    hide WordOf, WordBytes;
    if |b| >= 4 {
      BytesOfWords(b[4..]);
      WordRoundTrip(b[0], b[1], b[2], b[3]);
      var w := WordsOf(b);
      assert w[1..] == WordsOf(b[4..]);
      assert b == [b[0], b[1], b[2], b[3]] + b[4..];
      assert BytesOf(w)[..|b|] == WordBytes(w[0]) + BytesOf(w[1..])[..|b| - 4];
    } else if b != [] {
      WordRoundTrip(b[0], if |b| > 1 then b[1] else 0, if |b| > 2 then b[2] else 0, 0);
      var w := WordsOf(b);
      assert w[1..] == [];
      assert BytesOf(w) == WordBytes(w[0]);
    }
  }

  lemma TextRead(s: string, post: seq<Word32>)
    requires |Utf8.Encode(s)| < TWO32
    ensures DecodeText(Words(DStr(s)) + post) == Some((s, |Words(DStr(s))|))
  {
    var e := Utf8.Encode(s);
    BytesOfWords(e);
    DecodeEncode(s);
    hide Utf8.Encode, Utf8.Decode, WordsOf, BytesOf;
    var body := WordsOf(e);
    assert LowWords(|e|, 1) == [|e|];
    var w := [|e|] + (body + post);
    assert Words(DStr(s)) + post == w;
    assert w[1..1 + |body|] == body;
  }

  // --------------------------------------------------------- tuples of numbers

  lemma {:induction false} NumbersRead(ids: Ids, name: string, n: Num, vs: seq<nat>, post: seq<Word32>, depth: nat)
    requires NumOf(name) == Some(n) && !n.signed && GoodNum(n) && depth <= MAX_DEPTH && (vs != [] ==> depth < MAX_DEPTH)
    requires forall i :: 0 <= i < |vs| ==> vs[i] < n.range
    ensures DecodeMany(ids, Type.Named(name), AllWords(Numbers(n, vs)) + post, depth, |vs|)
         == Some((Decimals(vs), |AllWords(Numbers(n, vs))|))
    decreases |vs|
  {
    hide DecodeNum, Words, NumOf;
    if vs == [] {
      assert Numbers(n, vs) == [];
    } else {
      var items := Numbers(n, vs);
      assert items[1..] == Numbers(n, vs[1..]);
      var head, tail := Words(items[0]), AllWords(items[1..]);
      NumRead(n, vs[0], tail + post);
      Assoc(head, tail, post);
      Split(head, tail + post, n.words);
      NumbersRead(ids, name, n, vs[1..], post, depth);
    }
  }

  /** One-word numbers are their own words. */
  lemma {:induction false} PlainWords(ws: seq<Word32>)
    ensures AllWords(Numbers(Num(TWO32, false, 1), ws)) == ws
  {
    if ws != [] {
      PlainWords(ws[1..]);
      var items := Numbers(Num(TWO32, false, 1), ws);
      assert items[1..] == Numbers(Num(TWO32, false, 1), ws[1..]);
      assert Pow(TWO32, 1) == TWO32;
      assert LowWords(ws[0], 1) == [ws[0]];
      assert ws == [ws[0]] + ws[1..];
    }
  }

  lemma ProgramRead(ids: Ids, hex: string, post: seq<Word32>)
    requires |hex| == 64 && LowerHex(hex)
    ensures ProgramItems(hex).Some?
    ensures var w := Words(DTuple(ProgramItems(hex).value));
            |w| == 8 && DecodePrimitive(ids, "program_id", w + post) == Some((hex, 8))
  {
    hide HexBytes, UnhexBytes, LowerHex, WordsOf, BytesOf, Numbers, AllWords;
    HexOfUnhex(hex);
    var b := UnhexBytes(hex).value;
    BytesOfWords(b);
    PlainWords(WordsOf(b));
    var w := WordsOf(b);
    Split(w, post, 8);
    assert BytesOf(w)[..32] == BytesOf(w);
  }

  lemma {:induction false} ItemsInRange(parts: seq<string>, n: Num)
    requires !n.signed && ParseItems(parts, n).Some?
    ensures |ParseItems(parts, n).value| == |parts|
    ensures forall i :: 0 <= i < |parts| ==> ParseItems(parts, n).value[i] < n.range
  {
    hide ParseNum;
    if parts != [] {
      ItemsInRange(parts[1..], n);
      ParsedFits(Trim(parts[0]), n);
    }
  }

  lemma ParsedFits(s: string, n: Num)
    ensures ParseNum(s, n).Some? ==> Fits(n, ParseNum(s, n).value)
  {
  }

  // ------------------------------------------------------------------------ ids

  lemma IdsRead(ids: Ids, s: string)
    requires Faithful(ids)
    ensures ids.readAccount(s).Some? ==> ids.readWire(ids.showAccount(ids.readAccount(s).value)) == ids.readAccount(s)
    ensures ids.readProgram(s).Some? ==> |ids.readProgram(s).value| == 64 && LowerHex(ids.readProgram(s).value)
  {
  }

  /** Account ids in hexadecimal. */
  function HexAccount(s: string): Option<seq<Byte>> {
    match UnhexBytes(s)
    case Some(b) => if |b| == 32 then Some(b) else None
    case None => None
  }

  function HexProgram(s: string): Option<string> {
    if |s| == 64 && LowerHex(s) then Some(s) else None
  }

  /** The promise can be kept by readers that yield nothing but 32 bytes. */
  lemma FaithfulIds()
    ensures Faithful(Ids(HexAccount, HexAccount, HexBytes, HexProgram))
    ensures forall s: string :: HexAccount(s).Some? ==> |HexAccount(s).value| == 32
  {
    hide UnhexBytes, HexBytes, LowerHex;
    forall a: seq<Byte> | |a| == 32 ensures HexAccount(HexBytes(a)) == Some(a) {
      UnhexOfHex(a);
    }
  }

  // ------------------------------------------------------------ the round trip

  /** Values whose words can be decoded with `room` levels left: no vector, and options and
      array elements not too deep. */
  predicate Readable(ty: Type, d: Dynamic, room: int) {
    && room >= 0
    && match ty
       case Named(_) => true
       case Arr(_, len) => len == 0 || room >= 1
       case Opt(inner) => d.DSome? ==> Readable(inner, d.value, room - 1)
       case _ => false
  }

  /** Text arguments have a length that fits its word. */
  predicate ShortTexts(d: Dynamic) {
    match d
    case DStr(s) => |Utf8.Encode(s)| < TWO32
    case DSome(x) => ShortTexts(x)
    case _ => true
  }

  predicate ShowsBytes(report: string, shown: string, b: seq<Byte>) {
    report == "0x" + HexBytes(b) && shown == "[" + JoinTexts(Decimals(b)) + "]"
  }

  /** The decoded text is the parser's report; only byte arrays are shown in another
      form, and then of the same bytes. */
  ghost predicate Agrees(ty: Type, report: string, shown: string) {
    match ty
    case Arr(elem, len) =>
      if elem == Type.Named("u8") then exists b: seq<Byte> :: |b| == len && ShowsBytes(report, shown, b) else report == shown
    case Opt(inner) =>
      (report == "None" && shown == "None")
      || (exists r: string, t: string :: report == Wrapped(r) && shown == Wrapped(t) && Agrees(inner, r, t))
    case _ => report == shown
  }

  function Wrapped(s: string): string {
    "Some(" + s + ")"
  }

  lemma PrimitiveRead(ids: Ids, raw: string, name: string, post: seq<Word32>)
    requires Faithful(ids) && ParsePrimitive(ids, raw, name).Some? && ShortTexts(ParsePrimitive(ids, raw, name).value.value)
    ensures var p := ParsePrimitive(ids, raw, name).value;
            DecodePrimitive(ids, name, Words(p.value) + post) == Some((p.report, |Words(p.value)|))
  {
    hide Trim, DecodeText, DecodeNum, ParseNum, DecimalInt, Utf8.Encode, StripAccountPrefix, Faithful;
    var p := ParsePrimitive(ids, raw, name).value;
    IdsRead(ids, Trim(raw));
    IdsRead(ids, Trim(StripAccountPrefix(Trim(raw))));
    if NumOf(name).Some? {
      NumbersGood(name);
      ParsedFits(Trim(raw), NumOf(name).value);
      NumRead(NumOf(name).value, p.value.v, post);
    } else if name == "bool" {
    } else if name == "program_id" {
      ProgramRead(ids, p.report, post);
    } else {
      TextRead(p.value.s, post);
    }
  }

  lemma BytesRead(ids: Ids, raw: string, len: nat, post: seq<Word32>, depth: nat)
    requires ParseU8Array(raw, len).Some? && len <= MAX_LENGTH && depth <= MAX_DEPTH && (len > 0 ==> depth < MAX_DEPTH)
    ensures var p := ParseU8Array(raw, len).value;
            exists b: seq<Byte>, shown: string :: |b| == len && ShowsBytes(p.report, shown, b)
              && DecodeType(ids, Arr(Type.Named("u8"), len), Words(p.value) + post, depth) == Some((shown, |Words(p.value)|))
  {
    hide ArrayBytes, HexBytes, JoinTexts, Decimals, Numbers, AllWords, DecodeMany;
    var b := ArrayBytes(raw, len).value;
    SizedBytes(raw, len);
    NumbersGood("u8");
    NumbersRead(ids, "u8", Num(256, false, 1), b, post, depth);
    var shown := "[" + JoinTexts(Decimals(b)) + "]";
    assert ShowsBytes(ParseU8Array(raw, len).value.report, shown, b);
  }

  lemma SizedBytes(raw: string, len: nat)
    ensures ArrayBytes(raw, len).Some? ==> |ArrayBytes(raw, len).value| == len
  {
  }

  lemma WordsRead(ids: Ids, raw: string, len: nat, post: seq<Word32>, depth: nat)
    requires ParseU32Array(raw, len).Some? && len <= MAX_LENGTH && depth <= MAX_DEPTH && (len > 0 ==> depth < MAX_DEPTH)
    ensures var p := ParseU32Array(raw, len).value;
            DecodeType(ids, Arr(Type.Named("u32"), len), Words(p.value) + post, depth) == Some((p.report, |Words(p.value)|))
  {
    hide SplitCommas, JoinTexts, Decimals, Numbers, AllWords, DecodeMany, ParseItems;
    var n := Num(TWO32, false, 1);
    ItemsInRange(SplitCommas(raw), n);
    NumbersGood("u32");
    NumbersRead(ids, "u32", n, ParseItems(SplitCommas(raw), n).value, post, depth);
  }

  /** An array with elements needs one more level than there is. */
  lemma TooDeep(ids: Ids, elem: Type, len: nat, w: seq<Word32>)
    requires len > 0
    ensures DecodeType(ids, Arr(elem, len), w, MAX_DEPTH).None?
  {
    assert DecodeType(ids, elem, w, MAX_DEPTH + 1).None?;
  }

  /** Every argument that parses, of whatever supported type: its words decode, whatever
      follows, if and only if the value holds no vector and is at most 32 levels deep. Then
      the shown text agrees with the parser's report and exactly those words are consumed. */
  lemma {:induction false} ArgumentRoundTrip(ids: Ids, raw: string, ty: Type, post: seq<Word32>, depth: nat)
    requires Faithful(ids) && ParseTyped(ids, raw, ty).Some? && ShortTexts(ParseTyped(ids, raw, ty).value.value)
    ensures var p := ParseTyped(ids, raw, ty).value;
            var d := DecodeType(ids, ty, Words(p.value) + post, depth);
            && (d.Some? <==> Readable(ty, p.value, MAX_DEPTH - depth))
            && (d.Some? ==> d.value.1 == |Words(p.value)| && Agrees(ty, p.report, d.value.0))
    decreases ty
  {
    hide ParsePrimitive, DecodePrimitive, ParseU8Array, ParseU32Array, DecodeMany, Trim, Faithful, ShowsBytes, Wrapped;
    var p := ParseTyped(ids, raw, ty).value;
    if depth <= MAX_DEPTH {
      match ty
      case Named(name) => PrimitiveRead(ids, raw, name, post);
      case Arr(elem, len) =>
        if len > 0 && depth == MAX_DEPTH {
          TooDeep(ids, elem, len, Words(p.value) + post);
        } else if elem == Type.Named("u8") {
          BytesRead(ids, raw, len, post, depth);
        } else {
          WordsRead(ids, raw, len, post, depth);
        }
      case Opt(inner) =>
        if p.value.DSome? {
          var q := ParseTyped(ids, raw, inner).value;
          ArgumentRoundTrip(ids, raw, inner, post, depth + 1);
          Assoc([1], Words(q.value), post);
          Split([1], Words(q.value) + post, 1);
          if Readable(ty, p.value, MAX_DEPTH - depth) {
            var shown := DecodeType(ids, inner, Words(q.value) + post, depth + 1).value.0;
            WrappedIs(shown);
            WrappedIs(q.report);
            assert p.report == Wrapped(q.report);
          }
        }
      case Vec(_) =>
      case Defined(_) =>
      case Malformed =>
    }
  }

  lemma WrappedIs(s: string)
    ensures Wrapped(s) == "Some(" + s + ")"
  {
  }

  /** A type of `n` options around another. */
  function Options(n: nat, ty: Type): Type {
    if n == 0 then ty else Opt(Options(n - 1, ty))
  }

  /** What parses but never decodes: every vector, whether empty or not, under any number of
      options that are given; and any value under more than 32 given options. A missing
      optional vector does decode. */
  lemma {:induction false} ParsedButNotDecoded(ids: Ids, raw: string, n: nat, ty: Type, post: seq<Word32>, depth: nat)
    requires Faithful(ids) && ParseTyped(ids, raw, Options(n, ty)).Some?
    requires ShortTexts(ParseTyped(ids, raw, Options(n, ty)).value.value)
    requires !(Trim(raw) == "" || Trim(raw) == "none" || Trim(raw) == "null")
    requires ty.Vec? || depth + n > MAX_DEPTH
    ensures DecodeType(ids, Options(n, ty), Words(ParseTyped(ids, raw, Options(n, ty)).value.value) + post, depth).None?
    decreases n
  {
    hide Trim, ParsePrimitive, DecodePrimitive, ParseU8Array, ParseU32Array, ParseVec, DecodeMany, Agrees, Faithful, Words;
    ArgumentRoundTrip(ids, raw, Options(n, ty), post, depth);
    var p := ParseTyped(ids, raw, Options(n, ty)).value;
    if n > 0 {
      var q := ParseTyped(ids, raw, Options(n - 1, ty)).value;
      assert p.value == DSome(q.value);
      ParsedButNotDecoded(ids, raw, n - 1, ty, post, depth + 1);
      ArgumentRoundTrip(ids, raw, Options(n - 1, ty), post, depth + 1);
    }
  }

  lemma MissingVectorDecodes(ids: Ids, elem: Type, post: seq<Word32>)
    requires Supported(Vec(elem))
    ensures ParseTyped(ids, "none", Opt(Vec(elem))) == Some(Parsed("None", DNone))
    ensures DecodeType(ids, Opt(Vec(elem)), Words(DNone) + post, 0) == Some(("None", 1))
  {
    assert Trim("none") == "none";
  }

  // --------------------------------------------------------------- instructions

  /** The arguments of a row, parsed one by one from their texts. */
  function ParseArgs(ids: Ids, args: seq<Arg>, raws: seq<string>): (r: Option<seq<Parsed>>)
    ensures r.Some? ==> |r.value| == |args| == |raws|
  {
    if |args| != |raws| then None
    else if args == [] then Some([])
    else if args[0].ty.None? then None
    else
      match ParseTyped(ids, raws[0], args[0].ty.value)
      case None => None
      case Some(p) => (match ParseArgs(ids, args[1..], raws[1..]) case None => None case Some(ps) => Some([p] + ps))
  }

  predicate ReadableArg(a: Arg, p: Parsed) {
    a.ty.Some? && Readable(a.ty.value, p.value, MAX_DEPTH)
  }

  predicate ReadableArgs(args: seq<Arg>, ps: seq<Parsed>) {
    |args| == |ps| && forall i :: 0 <= i < |args| ==> ReadableArg(args[i], ps[i])
  }

  predicate ShortArgs(ps: seq<Parsed>) {
    forall i :: 0 <= i < |ps| ==> ShortTexts(ps[i].value)
  }

  function Dynamics(ps: seq<Parsed>): (r: seq<Dynamic>)
    ensures |r| == |ps|
  {
    if ps == [] then [] else [ps[0].value] + Dynamics(ps[1..])
  }

  ghost predicate AllAgree(args: seq<Arg>, ps: seq<Parsed>, shown: seq<string>) {
    && |args| == |ps| == |shown|
    && forall i :: 0 <= i < |args| ==> args[i].ty.Some? && Agrees(args[i].ty.value, ps[i].report, shown[i])
  }

  lemma {:induction false} ArgsRoundTrip(ids: Ids, args: seq<Arg>, raws: seq<string>)
    requires Faithful(ids) && ParseArgs(ids, args, raws).Some? && ShortArgs(ParseArgs(ids, args, raws).value)
    ensures var ps := ParseArgs(ids, args, raws).value;
            var d := DecodeArgs(ids, args, AllWords(Dynamics(ps)));
            && (!d.failed <==> ReadableArgs(args, ps))
            && (!d.failed ==> d.rest == [] && AllAgree(args, ps, d.values))
  {
    hide Faithful, ParseTyped, DecodeType, Words, Agrees, Readable, ShortTexts;
    var ps := ParseArgs(ids, args, raws).value;
    if args != [] {
      var rest := ParseArgs(ids, args[1..], raws[1..]).value;
      assert ps[1..] == rest;
      assert forall i :: 0 <= i < |rest| ==> rest[i] == ps[i + 1];
      ArgsRoundTrip(ids, args[1..], raws[1..]);
      ReadableCons(args, ps);
      var head, tail := Words(ps[0].value), AllWords(Dynamics(rest));
      assert Dynamics(ps)[1..] == Dynamics(rest);
      ArgumentRoundTrip(ids, raws[0], args[0].ty.value, tail, 0);
      Split(head, tail, |head|);
      var e := DecodeArgs(ids, args[1..], tail);
      var d := DecodeType(ids, args[0].ty.value, head + tail, 0);
      if d.Some? && !e.failed {
        AgreeCons(args, ps, d.value.0, e.values);
      }
    }
  }

  lemma ReadableCons(args: seq<Arg>, ps: seq<Parsed>)
    requires |args| == |ps| > 0
    ensures ReadableArgs(args, ps) <==> ReadableArg(args[0], ps[0]) && ReadableArgs(args[1..], ps[1..])
  {
    hide ReadableArg;
    assert forall i :: 0 < i < |args| ==> args[i] == args[1..][i - 1] && ps[i] == ps[1..][i - 1];
  }

  lemma AgreeCons(args: seq<Arg>, ps: seq<Parsed>, shown: string, more: seq<string>)
    requires args != [] && ps != [] && args[0].ty.Some? && Agrees(args[0].ty.value, ps[0].report, shown)
    requires AllAgree(args[1..], ps[1..], more)
    ensures AllAgree(args, ps, [shown] + more)
  {
    hide Agrees;
    forall i | 0 <= i < |args| ensures args[i].ty.Some? && Agrees(args[i].ty.value, ps[i].report, ([shown] + more)[i]) {
      if i > 0 {
        assert args[i] == args[1..][i - 1] && ps[i] == ps[1..][i - 1] && ([shown] + more)[i] == more[i - 1];
      }
    }
  }

  /** For every IDL whose variant map can be built, every row of it, and every list of
      argument texts that parses: the words made of the row's variant index and the
      encoded arguments decode to the same row. There is an error if and only if some
      argument holds a vector or is too deep; otherwise no words remain and every shown
      text agrees with what the parser reported. */
  lemma InstructionRoundTrips(ids: Ids, rows: seq<Row>, external: ExternalType, row: nat, raws: seq<string>)
    requires Faithful(ids) && row < |rows| && VariantIndices(Declarations(rows), external).Some?
    requires ParseArgs(ids, rows[row].args, raws).Some? && ShortArgs(ParseArgs(ids, rows[row].args, raws).value)
    ensures var v := VariantIndices(Declarations(rows), external).value;
            var ps := ParseArgs(ids, rows[row].args, raws).value;
            && |v| == |rows| && v[row] < TWO32
            && var r := DecodeInstruction(ids, rows, external, [v[row]] + AllWords(Dynamics(ps)));
               && r.Some? && r.value.0 == row
               && (!r.value.1.failed <==> ReadableArgs(rows[row].args, ps))
               && (!r.value.1.failed ==> r.value.1.rest == [] && AllAgree(rows[row].args, ps, r.value.1.values))
  {
    hide Faithful, ParseArgs, DecodeArgs, AllAgree, ShortArgs, ReadableArgs, AllWords, Dynamics;
    VariantsArePermutation(Declarations(rows), external);
    VariantsFit(Declarations(rows), external, row);
    hide VariantIndices;
    var v := VariantIndices(Declarations(rows), external).value;
    var ps := ParseArgs(ids, rows[row].args, raws).value;
    ArgsRoundTrip(ids, rows[row].args, raws);
    var words := [v[row]] + AllWords(Dynamics(ps));
    assert words[1..] == AllWords(Dynamics(ps));
  }

  lemma VariantsFit(declared: seq<Declared>, external: ExternalType, row: nat)
    requires VariantIndices(declared, external).Some? && row < |declared|
    ensures |VariantIndices(declared, external).value| == |declared| && VariantIndices(declared, external).value[row] < TWO32
  {
  }
}
