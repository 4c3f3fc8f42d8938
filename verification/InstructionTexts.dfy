/** What the texts of instruction arguments mean: which texts parse, to which values, and
    that the value a user typed is the value that encoding and decoding show. */
module InstructionTexts {
  import opened Totals
  import opened Utf8
  import opened LittleEndian
  import opened BridgeTokens
  import opened TextFormat
  import opened IdlLimits
  import opened InstructionVariants
  import opened InstructionModel
  import opened InstructionRoundTrip

  // ----------------------------------------------------------------- trimming

  lemma DigitsTrimmed(s: string)
    requires DigitsValue(s).Some?
    ensures Trimmed(s) && Trim(s) == s
  {
    hide Trim;
    TrimExact(s);
    if s != "" {
      AllDigits(s, 0);
      AllDigits(s, |s| - 1);
    }
  }

  lemma IntegerTrimmed(v: int)
    ensures Trim(DecimalInt(v)) == DecimalInt(v) && DecimalInt(v) != ""
  {
    hide Trim, Decimal, DigitsValue;
    TrimExact(DecimalInt(v));
    var s := Decimal(if v < 0 then -v else v);
    DecimalRead(if v < 0 then -v else v);
    DigitsTrimmed(s);
  }

  // ----------------------------------------------------------------- integers

  /** The least value of an integer type, the first value beyond its range, and the number
      of words it takes. */
  function Range(name: string): Option<(int, int, nat)> {
    if name == "u8" then Some((0, 256, 1))
    else if name == "i8" then Some((-128, 128, 1))
    else if name == "u16" then Some((0, 65_536, 1))
    else if name == "i16" then Some((-32_768, 32_768, 1))
    else if name == "u32" then Some((0, 4_294_967_296, 1))
    else if name == "i32" then Some((-2_147_483_648, 2_147_483_648, 1))
    else if name == "u64" then Some((0, 18_446_744_073_709_551_616, 2))
    else if name == "i64" then Some((-9_223_372_036_854_775_808, 9_223_372_036_854_775_808, 2))
    else if name == "u128" then Some((0, 340_282_366_920_938_463_463_374_607_431_768_211_456, 4))
    else if name == "i128" then
      Some((-170_141_183_460_469_231_731_687_303_715_884_105_728, 170_141_183_460_469_231_731_687_303_715_884_105_728, 4))
    else None
  }

  lemma Powers()
    ensures Pow(TWO32, 1) == 4_294_967_296
    ensures Pow(TWO32, 2) == 18_446_744_073_709_551_616
    ensures Pow(TWO32, 4) == 340_282_366_920_938_463_463_374_607_431_768_211_456
  {
    assert Pow(TWO32, 1) == TWO32 * Pow(TWO32, 0);
    assert Pow(TWO32, 2) == TWO32 * Pow(TWO32, 1);
    assert Pow(TWO32, 3) == TWO32 * Pow(TWO32, 2);
    assert Pow(TWO32, 4) == TWO32 * Pow(TWO32, 3);
  }

  lemma RangeIs(name: string, v: int)
    ensures Range(name).Some? <==> NumOf(name).Some?
    ensures Range(name).Some? ==>
              && (Fits(NumOf(name).value, v) <==> Range(name).value.0 <= v < Range(name).value.1)
              && NumOf(name).value.words == Range(name).value.2
              && (NumOf(name).value.signed <==> Range(name).value.0 < 0)
  {
    Powers();
    hide Pow;
  }

  /** An argument of an integer type parses exactly when its trimmed text is an integer in
      the range of the type, without a minus sign for an unsigned one; the value is that
      integer and the report its decimal digits. */
  lemma IntegerParsed(ids: Ids, raw: string, name: string)
    requires Range(name).Some?
    ensures var (lo, hi, words) := Range(name).value;
            var p := ParseTyped(ids, raw, Named(name));
            var v := IntegerValue(Trim(raw));
            && (p.Some? <==> v.Some? && lo <= v.value < hi && (lo == 0 ==> Trim(raw)[0] != '-'))
            && (p.Some? ==> p.value.report == DecimalInt(v.value) && p.value.value.DNum? && p.value.value.v == v.value)
  {
    hide Trim, IntegerValue, DecimalInt, NumOf, Range, Fits;
    var v := IntegerValue(Trim(raw));
    EmptyIsNone(Trim(raw));
    RangeIs(name, if v.Some? then v.value else 0);
    LowIsZero(name);
  }

  lemma EmptyIsNone(s: string)
    ensures IntegerValue(s).Some? ==> s != ""
  {
  }

  lemma LowIsZero(name: string)
    ensures Range(name).Some? ==> Range(name).value.0 <= 0 && Range(name).value.2 > 0
  {
  }

  /** The words of an integer argument are its little-endian digits to the base 2^32, of
      the number itself or, for a negative one, of its two's complement. */
  lemma IntegerWords(ids: Ids, raw: string, name: string)
    requires Range(name).Some? && ParseTyped(ids, raw, Named(name)).Some?
    ensures var (lo, hi, words) := Range(name).value;
            var d := ParseTyped(ids, raw, Named(name)).value.value;
            var u := Value(Words(d), TWO32);
            && d.DNum? && |Words(d)| == words && (u == d.v || (d.v < 0 && u == d.v + Pow(TWO32, words)))
  {
    hide Trim, IntegerValue, DecimalInt, NumOf, Range, Pow, Value;
    IntegerParsed(ids, raw, name);
    var d := ParseTyped(ids, raw, Named(name)).value.value;
    RangeIs(name, d.v);
    ParsedNum(ids, raw, name);
    WholeRange(name, d.v);
    var n := d.num;
    var u := Clamp(Unsigned(d.v, Pow(TWO32, n.words)));
    LowWordsValue(u, n.words);
  }

  lemma ParsedNum(ids: Ids, raw: string, name: string)
    requires NumOf(name).Some? && ParseTyped(ids, raw, Named(name)).Some?
    ensures var d := ParseTyped(ids, raw, Named(name)).value.value;
            d.DNum? && d.num == NumOf(name).value && Fits(d.num, d.v)
  {
    hide Trim, DecimalInt, NumOf, IntegerValue;
  }

  /** The range of every type lies within its words. */
  lemma WholeRange(name: string, v: int)
    requires NumOf(name).Some? && Fits(NumOf(name).value, v)
    ensures var m := Pow(TWO32, NumOf(name).value.words); 0 <= Unsigned(v, m) < m
  {
    Powers();
    hide Pow;
  }

  lemma {:induction false} LowWordsValue(u: nat, n: nat)
    requires u < Pow(TWO32, n)
    ensures Value(LowWords(u, n), TWO32) == u
    decreases n
  {
    if n > 0 {
      DivBound(u, Pow(TWO32, n - 1), TWO32);
      LowWordsValue(u / TWO32, n - 1);
      var w := LowWords(u, n);
      assert w[1..] == LowWords(u / TWO32, n - 1);
    }
  }

  /** Every integer of the range of a type, typed in decimal, is the value that is parsed,
      and the very text that decoding its words shows. */
  lemma IntegerTyped(ids: Ids, name: string, v: int, post: seq<Word32>, depth: nat)
    requires Faithful(ids) && Range(name).Some? && Range(name).value.0 <= v < Range(name).value.1 && depth <= MAX_DEPTH
    ensures var p := ParseTyped(ids, DecimalInt(v), Named(name));
            && p.Some? && p.value.report == DecimalInt(v) && p.value.value.DNum? && p.value.value.v == v
            && DecodeType(ids, Named(name), Words(p.value.value) + post, depth) == Some((DecimalInt(v), Range(name).value.2))
  {
    hide Trim, IntegerValue, DecimalInt, Range, NumOf, Faithful, Words, Pow, Value, DecodePrimitive;
    IntegerTrimmed(v);
    IntegerRead(v);
    SignIs(v);
    IntegerParsed(ids, DecimalInt(v), name);
    IntegerWords(ids, DecimalInt(v), name);
    PrimitiveShown(ids, DecimalInt(v), name, post, depth);
  }

  lemma SignIs(v: int)
    ensures DecimalInt(v) != "" && (v >= 0 ==> DecimalInt(v)[0] != '-')
  {
    hide Decimal, DigitsValue;
    if v >= 0 {
      DecimalRead(v);
      AllDigits(Decimal(v), 0);
    }
  }

  /** A primitive argument without text shows its report. */
  lemma PrimitiveShown(ids: Ids, raw: string, name: string, post: seq<Word32>, depth: nat)
    requires Faithful(ids) && ParseTyped(ids, raw, Named(name)).Some? && ShortTexts(ParseTyped(ids, raw, Named(name)).value.value)
    requires depth <= MAX_DEPTH
    ensures var p := ParseTyped(ids, raw, Named(name)).value;
            DecodeType(ids, Named(name), Words(p.value) + post, depth) == Some((p.report, |Words(p.value)|))
  {
    hide Faithful, ShortTexts, Words, ParsePrimitive, DecodePrimitive, NumOf;
    PrimitiveRead(ids, raw, name, post);
  }

  // ----------------------------------------------------------------- booleans

  /** Exactly six spellings are booleans. */
  lemma BooleanParsed(ids: Ids, raw: string, post: seq<Word32>, depth: nat)
    requires depth <= MAX_DEPTH
    ensures var p := ParseTyped(ids, raw, Named("bool")); var s := Trim(raw);
            && (p == Some(Parsed("true", DBool(true))) <==> s in {"true", "1", "yes"})
            && (p == Some(Parsed("false", DBool(false))) <==> s in {"false", "0", "no"})
            && (p.None? <==> s !in {"true", "1", "yes", "false", "0", "no"})
    ensures DecodeType(ids, Named("bool"), [1] + post, depth) == Some(("true", 1)) && Words(DBool(true)) == [1]
    ensures DecodeType(ids, Named("bool"), [0] + post, depth) == Some(("false", 1)) && Words(DBool(false)) == [0]
  {
    hide Trim;
  }

  // -------------------------------------------------------------- text and ids

  /** A string is its trimmed text. */
  lemma StringParsed(ids: Ids, raw: string, name: string)
    requires name == "string" || name == "String"
    ensures ParseTyped(ids, raw, Named(name)) == Some(Parsed(Trim(raw), DStr(Trim(raw))))
    ensures Trimmed(raw) ==> ParseTyped(ids, raw, Named(name)) == Some(Parsed(raw, DStr(raw)))
  {
    hide Trim;
    TrimExact(raw);
  }

  const PREFIXES := ["Private/", "private/", "Public/", "public/"]

  /** An account argument is the account text itself, or one after a privacy prefix. */
  lemma AccountParsed(ids: Ids, text: string, i: nat)
    requires Trimmed(text) && text != "" && i <= 4
    requires forall k :: 0 <= k < 4 ==> !(PREFIXES[k] <= text)
    ensures var raw := if i < 4 then PREFIXES[i] + text else text;
            ParseTyped(ids, raw, Named("account_id")) ==
            match ids.readAccount(text)
            case None => None
            case Some(a) => Some(Parsed(ids.showAccount(a), DStr(ids.showAccount(a))))
  {
    hide Trim;
    TrimExact(text);
    if i < 4 {
      var raw := PREFIXES[i] + text;
      assert raw[0] == PREFIXES[i][0] && raw[|raw| - 1] == text[|text| - 1];
      TrimExact(raw);
      PrefixStripped(text, i);
    } else {
      assert !("Private/" <= text) && !("private/" <= text) && !("Public/" <= text) && !("public/" <= text) by {
        assert PREFIXES[0] == "Private/" && PREFIXES[1] == "private/" && PREFIXES[2] == "Public/" && PREFIXES[3] == "public/";
      }
    }
  }

  lemma PrefixStripped(text: string, i: nat)
    requires i < 4
    ensures StripAccountPrefix(PREFIXES[i] + text) == text
  {
    var raw := PREFIXES[i] + text;
    assert raw[0] == PREFIXES[i][0] && raw[1] == PREFIXES[i][1];
    assert PREFIXES[i] <= raw && raw[|PREFIXES[i]|..] == text;
  }

  /** A program argument is whatever its reader takes for one, and is shown as that. */
  lemma ProgramParsed(ids: Ids, raw: string, post: seq<Word32>, depth: nat)
    requires Faithful(ids) && depth <= MAX_DEPTH
    ensures var p := ParseTyped(ids, raw, Named("program_id"));
            && (p.Some? <==> ids.readProgram(Trim(raw)).Some?)
            && (p.Some? ==>
                  && p.value.report == ids.readProgram(Trim(raw)).value
                  && DecodeType(ids, Named("program_id"), Words(p.value.value) + post, depth) == Some((p.value.report, 8)))
  {
    hide Trim, Faithful, Words, ProgramItems, DecodePrimitive;
    IdsRead(ids, Trim(raw));
    if ids.readProgram(Trim(raw)).Some? {
      var hex := ids.readProgram(Trim(raw)).value;
      ProgramRead(ids, hex, post);
    }
  }

  /** There are no other named argument types. */
  lemma NamesParsed(ids: Ids, raw: string, name: string)
    ensures ParseTyped(ids, raw, Named(name)).Some? ==>
              Range(name).Some? || name in {"bool", "string", "String", "account_id", "program_id"}
  {
    hide Trim, Range, NumOf;
    RangeIs(name, 0);
  }

  // ------------------------------------------------------------------ options

  /** Three texts stand for a missing optional argument; any other is the argument itself. */
  lemma OptionParsed(ids: Ids, raw: string, inner: Type)
    ensures var p := ParseTyped(ids, raw, Opt(inner)); var q := ParseTyped(ids, raw, inner);
            if Trim(raw) in {"", "none", "null"} then p == if Supported(inner) then Some(Parsed("None", DNone)) else None
            else p.Some? == q.Some? && (p.Some? ==> p.value == Parsed("Some(" + q.value.report + ")", DSome(q.value.value)))
    ensures Words(DNone) == [0]
    ensures forall d :: Words(DSome(d)) == [1] + Words(d)
  {
    hide Trim;
  }

  // --------------------------------------------------------------- byte arrays

  lemma {:induction false} HexIsLower(b: seq<Byte>)
    ensures LowerHex(HexBytes(b)) && |HexBytes(b)| == 2 * |b|
  {
    if b != [] {
      HexIsLower(b[1..]);
      var s := HexBytes(b);
      assert IsHexDigit(HEX_DIGITS[b[0] / 16]) && IsHexDigit(HEX_DIGITS[b[0] % 16]);
      assert s == [HEX_DIGITS[b[0] / 16], HEX_DIGITS[b[0] % 16]] + HexBytes(b[1..]);
    }
  }

  lemma HexTrimmed(p: string, b: seq<Byte>)
    requires p in {"", "0x", "0X"}
    ensures Trim(p + HexBytes(b)) == p + HexBytes(b)
  {
    hide Trim, HexBytes;
    HexIsLower(b);
    TrimExact(p + HexBytes(b));
  }

  /** The value of a byte array argument. */
  function ByteTuple(b: seq<Byte>): Dynamic {
    DTuple(Numbers(Num(256, false, 1), b))
  }

  /** Hexadecimal after a prefix, in lower case, is parsed to exactly the bytes it was
      written for. */
  lemma HexTyped(ids: Ids, b: seq<Byte>, p: string)
    requires |b| <= MAX_LENGTH && p in {"0x", "0X"}
    ensures ParseTyped(ids, p + HexBytes(b), Arr(Named("u8"), |b|)) == Some(Parsed("0x" + HexBytes(b), ByteTuple(b)))
  {
    hide Trim, HexBytes, ParseU8Array;
    ArrayParsed(b, p);
  }

  lemma ArrayParsed(b: seq<Byte>, p: string)
    requires p in {"0x", "0X"}
    ensures ParseU8Array(p + HexBytes(b), |b|) == Some(Parsed("0x" + HexBytes(b), ByteTuple(b)))
  {
    hide Trim, HexBytes, UnhexBytes, Numbers, Utf8.Encode;
    HexTrimmed(p, b);
    UnhexOfHex(b);
    assert (p + HexBytes(b))[2..] == HexBytes(b);
  }

  lemma {:induction false} AsciiLength(s: string)
    requires LowerHex(s)
    ensures |Utf8.Encode(s)| == |s|
  {
    if s != "" {
      AsciiLength(s[1..]);
      assert s == [s[0]] + s[1..];
      EncodeCons(s[0], s[1..]);
    }
  }

  /** Without a prefix hexadecimal must have exactly the length of the array. */
  lemma BareHexTyped(ids: Ids, b: seq<Byte>)
    requires |b| <= MAX_LENGTH
    ensures ParseTyped(ids, HexBytes(b), Arr(Named("u8"), |b|)) == Some(Parsed("0x" + HexBytes(b), ByteTuple(b)))
  {
    hide Trim, HexBytes, UnhexBytes, Numbers, Utf8.Encode;
    HexTrimmed("", b);
    assert "" + HexBytes(b) == HexBytes(b);
    UnhexOfHex(b);
    HexIsLower(b);
    AsciiLength(HexBytes(b));
    forall i | 0 <= i < |HexBytes(b)| ensures HexDigitOf(HexBytes(b)[i]).Some? {
      HexOfDigit(HexBytes(b)[i]);
    }
    assert |HexBytes(b)| >= 2 ==> IsHexDigit(HexBytes(b)[1]);
  }

  /** Other text that is not too long is taken byte by byte and padded with zeros. */
  lemma TextBytesTyped(ids: Ids, text: string, size: nat)
    requires Trimmed(text) && size <= MAX_LENGTH && |Utf8.Encode(text)| <= size
    requires !("0x" <= text) && !("0X" <= text)
    requires !(|Utf8.Encode(text)| == size * 2 && forall i :: 0 <= i < |text| ==> IsHex(text[i]))
    ensures var p := ParseTyped(ids, text, Arr(Named("u8"), size));
            && p.Some?
            && var b := Utf8.Encode(text) + seq(size - |Utf8.Encode(text)|, _ => 0 as Byte);
               p == Some(Parsed("0x" + HexBytes(b), ByteTuple(b)))
  {
    hide Trim, HexBytes, UnhexBytes, Numbers, Utf8.Encode;
    TrimExact(text);
    ZerosAre(size - |Utf8.Encode(text)|);
    assert AllHex(text) ==> forall i :: 0 <= i < |text| ==> IsHex(text[i]) by {
      if AllHex(text) {
        forall i | 0 <= i < |text| ensures IsHex(text[i]) {
          assert HexDigitOf(text[i]).Some?;
        }
      }
    }
  }

  lemma {:induction false} ZerosAre(n: nat)
    ensures Zeros(n) == seq(n, _ => 0 as Byte)
  {
    if n > 0 {
      ZerosAre(n - 1);
    }
  }

  /** Bytes typed in hexadecimal are the words, one a byte, and the decimal list that
      decoding shows. */
  lemma BytesTyped(ids: Ids, b: seq<Byte>, post: seq<Word32>, depth: nat)
    requires |b| <= MAX_LENGTH && depth <= MAX_DEPTH && (b != [] ==> depth < MAX_DEPTH)
    ensures Words(ByteTuple(b)) == b
    ensures DecodeType(ids, Arr(Named("u8"), |b|), Words(ByteTuple(b)) + post, depth) == Some(("[" + JoinTexts(Decimals(b)) + "]", |b|))
  {
    hide Trim, HexBytes, DecodeMany, Decimal;
    HexTyped(ids, b, "0x");
    PlainNumbers(b, Num(256, false, 1));
    BytesRead(ids, "0x" + HexBytes(b), |b|, post, depth);
    ShownBytes(b, ParseU8Array("0x" + HexBytes(b), |b|).value.report);
  }

  lemma ShownBytes(b: seq<Byte>, report: string)
    requires report == "0x" + HexBytes(b)
    ensures forall c: seq<Byte> :: report == "0x" + HexBytes(c) ==> c == b
  {
    hide HexBytes, UnhexBytes;
    forall c: seq<Byte> | report == "0x" + HexBytes(c) ensures c == b {
      assert report[2..] == HexBytes(c) && report[2..] == HexBytes(b);
      UnhexOfHex(b);
      UnhexOfHex(c);
    }
  }

  // -------------------------------------------------------------------- lists

  predicate Item(t: string) {
    t != "" && Trimmed(t) && ',' !in t
  }

  /** The parts of a list are, but for white space around them, its items. */
  predicate PartsOf(parts: seq<string>, ts: seq<string>) {
    |parts| == |ts| && forall i :: 0 <= i < |ts| ==> Trim(parts[i]) == ts[i]
  }

  lemma SpaceTrimmed(t: string)
    requires Trimmed(t)
    ensures Trim(" " + t) == t && Trim(t) == t
  {
    TrimExact(t);
    assert (" " + t)[1..] == t;
  }

  lemma {:induction false} SplitNone(t: string)
    requires ',' !in t
    ensures SplitCommas(t) == [t]
  {
    if t != "" {
      SplitNone(t[1..]);
      assert t == [t[0]] + t[1..];
    }
  }

  lemma {:induction false} SplitFirst(t: string, rest: string)
    requires ',' !in t
    ensures SplitCommas(t + "," + rest) == [t] + SplitCommas(rest)
  {
    var s := t + "," + rest;
    if t == "" {
      assert s[1..] == rest;
    } else {
      SplitFirst(t[1..], rest);
      assert s[1..] == t[1..] + "," + rest;
      assert t == [t[0]] + t[1..];
    }
  }

  function Spaced(s: string, lead: bool): string {
    if lead then " " + s else s
  }

  lemma {:induction false} SplitList(ts: seq<string>, lead: bool)
    requires ts != [] && forall i :: 0 <= i < |ts| ==> Item(ts[i])
    ensures PartsOf(SplitCommas(Spaced(JoinTexts(ts), lead)), ts)
    decreases |ts|
  {
    hide Trim, Trimmed;
    SpaceTrimmed(ts[0]);
    var first := Spaced(ts[0], lead);
    if |ts| == 1 {
      SplitNone(first);
    } else {
      SplitList(ts[1..], true);
      var rest := Spaced(JoinTexts(ts[1..]), true);
      assert Spaced(JoinTexts(ts), lead) == first + "," + rest;
      SplitFirst(first, rest);
      var parts := SplitCommas(rest);
      forall i | 0 <= i < |ts| ensures Trim(([first] + parts)[i]) == ts[i] {
        if i > 0 {
          assert ts[i] == ts[1..][i - 1] && ([first] + parts)[i] == parts[i - 1];
        }
      }
    }
  }

  lemma DecimalItem(v: nat)
    ensures Item(Decimal(v))
  {
    hide Decimal, DigitsValue, Trim;
    DecimalRead(v);
    DigitsTrimmed(Decimal(v));
    forall i | 0 <= i < |Decimal(v)| ensures Decimal(v)[i] != ',' {
      AllDigits(Decimal(v), i);
    }
  }

  lemma {:induction false} DecimalItems(vs: seq<nat>)
    ensures forall i :: 0 <= i < |vs| ==> Item(Decimals(vs)[i]) && Decimals(vs)[i] == Decimal(vs[i])
  {
    hide Item, Decimal;
    if vs != [] {
      DecimalItems(vs[1..]);
      DecimalItem(vs[0]);
      forall i | 0 <= i < |vs| ensures Item(Decimals(vs)[i]) && Decimals(vs)[i] == Decimal(vs[i]) {
        if i > 0 {
          assert Decimals(vs)[i] == Decimals(vs[1..])[i - 1] && vs[i] == vs[1..][i - 1];
        }
      }
    }
  }

  lemma NumberItem(v: nat, n: Num)
    requires !n.signed && v < n.range
    ensures ParseNum(Decimal(v), n) == Some(v)
  {
    hide IntegerValue, Decimal;
    SignIs(v);
    IntegerRead(v);
  }

  lemma {:induction false} ItemsParsed(parts: seq<string>, vs: seq<nat>, n: Num)
    requires !n.signed && |parts| == |vs| && forall i :: 0 <= i < |vs| ==> vs[i] < n.range && Trim(parts[i]) == Decimal(vs[i])
    ensures ParseItems(parts, n) == Some(vs)
  {
    hide Trim, Decimal, ParseNum;
    if parts != [] {
      NumberItem(vs[0], n);
      ItemsParsed(parts[1..], vs[1..], n);
      assert vs == [vs[0]] + vs[1..];
    }
  }

  /** A comma list of decimal numbers parses to exactly these numbers. */
  lemma ListParsed(vs: seq<nat>, n: Num)
    requires vs != [] && !n.signed && forall i :: 0 <= i < |vs| ==> vs[i] < n.range
    ensures var parts := SplitCommas(JoinTexts(Decimals(vs))); |parts| == |vs| && ParseItems(parts, n) == Some(vs)
  {
    hide Item, Trim, Decimal, ParseItems;
    DecimalItems(vs);
    SplitList(Decimals(vs), false);
    ItemsParsed(SplitCommas(JoinTexts(Decimals(vs))), vs, n);
  }

  function WordTuple(vs: seq<Word32>): Dynamic {
    DTuple(Numbers(Num(TWO32, false, 1), vs))
  }

  /** A comma list of words parses to exactly these words, is encoded as them, and is shown
      as the same list. */
  lemma WordsTyped(ids: Ids, vs: seq<Word32>, post: seq<Word32>, depth: nat)
    requires 0 < |vs| <= MAX_LENGTH && depth < MAX_DEPTH
    ensures var list := JoinTexts(Decimals(vs)); var ty := Arr(Named("u32"), |vs|);
            && ParseTyped(ids, list, ty) == Some(Parsed("[" + list + "]", WordTuple(vs)))
            && Words(WordTuple(vs)) == vs
            && DecodeType(ids, ty, vs + post, depth) == Some(("[" + list + "]", |vs|))
  {
    hide Trim, JoinTexts, Decimals, SplitCommas, ParseItems, DecodeMany;
    var list := JoinTexts(Decimals(vs));
    ListParsed(vs, Num(TWO32, false, 1));
    PlainWords(vs);
    WordsRead(ids, list, |vs|, post, depth);
  }

  // ------------------------------------------------------------------- vectors

  lemma {:induction false} TrimEndKeeps(s: string)
    requires s != "" && !Space(s[0])
    ensures TrimEnd(s) != ""
  {
    if Space(s[|s| - 1]) {
      TrimEndKeeps(s[..|s| - 1]);
    }
  }

  lemma ListIsNotBlank(ts: seq<string>)
    requires ts != [] && Item(ts[0])
    ensures Trim(JoinTexts(ts)) != ""
  {
    assert JoinTexts(ts)[0] == ts[0][0];
    TrimEndKeeps(JoinTexts(ts));
  }

  /** A vector of bytes or words: blank text is the empty one, a comma list the one with
      these elements, encoded as their number and themselves. */
  lemma VectorTyped(ids: Ids, vs: seq<nat>, name: string)
    requires name == "u8" || name == "u32"
    requires forall i :: 0 <= i < |vs| ==> vs[i] < (if name == "u8" then 256 else TWO32)
    ensures var n := Num(if name == "u8" then 256 else TWO32, false, 1);
            ParseTyped(ids, JoinTexts(Decimals(vs)), Vec(Named(name))) ==
            Some(Parsed(Decimal(|vs|) + (if name == "u8" then " bytes" else " words"), DSeq(Numbers(n, vs))))
  {
    hide Trim, JoinTexts, Decimals, SplitCommas, ParseItems, Item, Decimal;
    if vs == [] {
      EmptyList();
    } else {
      DecimalItems(vs);
      ListIsNotBlank(Decimals(vs));
      ListParsed(vs, Num(if name == "u8" then 256 else TWO32, false, 1));
    }
  }

  lemma EmptyList()
    ensures Trim(JoinTexts(Decimals([]))) == "" && ParseItems([], Num(256, false, 1)) == Some([]) == ParseItems([], Num(TWO32, false, 1))
  {
  }

  lemma OneWord(v: Word32)
    ensures LowWords(v, 1) == [v]
  {
    assert LowWords(v / TWO32, 0) == [];
  }

  lemma VectorWords(vs: seq<Word32>, n: Num)
    requires !n.signed && n.words == 1 && |vs| < TWO32
    ensures Words(DSeq(Numbers(n, vs))) == [|vs| as Word32] + vs
  {
    hide Numbers, AllWords, LowWords;
    PlainNumbers(vs, n);
    OneWord(|vs|);
  }

  lemma {:induction false} PlainNumbers(vs: seq<Word32>, n: Num)
    requires !n.signed && n.words == 1
    ensures AllWords(Numbers(n, vs)) == vs && |Numbers(n, vs)| == |vs|
  {
    if vs != [] {
      PlainNumbers(vs[1..], n);
      Powers();
      assert Numbers(n, vs)[1..] == Numbers(n, vs[1..]);
      OneWord(vs[0]);
      assert vs == [vs[0]] + vs[1..];
    }
  }

  // ------------------------------------------------------- vectors of byte arrays

  function HexTexts(bs: seq<seq<Byte>>): (r: seq<string>)
    ensures |r| == |bs|
  {
    if bs == [] then [] else ["0x" + HexBytes(bs[0])] + HexTexts(bs[1..])
  }

  function ByteTuples(bs: seq<seq<Byte>>): (r: seq<Dynamic>)
    ensures |r| == |bs|
  {
    if bs == [] then [] else [ByteTuple(bs[0])] + ByteTuples(bs[1..])
  }

  lemma HexItem(b: seq<Byte>)
    ensures Item("0x" + HexBytes(b))
  {
    hide HexBytes;
    HexIsLower(b);
    assert forall i :: 0 <= i < |HexBytes(b)| ==> HexBytes(b)[i] != ',' && !Space(HexBytes(b)[i]);
  }

  lemma {:induction false} HexItems(bs: seq<seq<Byte>>)
    ensures forall i :: 0 <= i < |bs| ==> Item(HexTexts(bs)[i]) && HexTexts(bs)[i] == "0x" + HexBytes(bs[i])
  {
    hide Item, HexBytes;
    if bs != [] {
      HexItems(bs[1..]);
      HexItem(bs[0]);
      forall i | 0 <= i < |bs| ensures Item(HexTexts(bs)[i]) && HexTexts(bs)[i] == "0x" + HexBytes(bs[i]) {
        if i > 0 {
          assert HexTexts(bs)[i] == HexTexts(bs[1..])[i - 1] && bs[i] == bs[1..][i - 1];
        }
      }
    }
  }

  lemma {:induction false} ChunksParsed(parts: seq<string>, bs: seq<seq<Byte>>, size: nat)
    requires size <= MAX_LENGTH && |parts| == |bs|
    requires forall i :: 0 <= i < |bs| ==> |bs[i]| == size && Trim(parts[i]) == "0x" + HexBytes(bs[i])
    ensures ParseChunks(parts, size) == Some(ByteTuples(bs))
  {
    hide Trim, HexBytes, ParseU8Array, ByteTuple;
    if parts != [] {
      ArrayParsed(bs[0], "0x");
      ChunksParsed(parts[1..], bs[1..], size);
    }
  }

  /** A vector of byte arrays: a comma list of hexadecimal items. */
  lemma ChunksTyped(ids: Ids, bs: seq<seq<Byte>>, size: nat)
    requires bs != [] && size <= MAX_LENGTH && forall i :: 0 <= i < |bs| ==> |bs[i]| == size
    ensures ParseTyped(ids, JoinTexts(HexTexts(bs)), Vec(Arr(Named("u8"), size))) ==
            Some(Parsed(Decimal(|bs|) + " items", DSeq(ByteTuples(bs))))
  {
    hide Trim, JoinTexts, HexTexts, SplitCommas, ParseChunks, Item, Decimal, HexBytes, ByteTuples;
    HexItems(bs);
    ListIsNotBlank(HexTexts(bs));
    SplitList(HexTexts(bs), false);
    ChunksParsed(SplitCommas(JoinTexts(HexTexts(bs))), bs, size);
  }

  // --------------------------------------------------------------------- shown

  /** From any words an integer type shows the integer of its range that is congruent to
      the little-endian number in them, and nothing exactly when there is none or there
      are too few words. */
  lemma IntegerShown(ids: Ids, name: string, w: seq<Word32>, depth: nat)
    requires Range(name).Some? && depth <= MAX_DEPTH
    ensures var (lo, hi, words) := Range(name).value;
            var r := DecodeType(ids, Named(name), w, depth);
            if |w| < words then r.None?
            else
              var u, m := Value(w[..words], TWO32), Pow(TWO32, words);
              && (r.Some? ==>
                    && r.value.1 == words && IntegerValue(r.value.0).Some?
                    && var v := IntegerValue(r.value.0).value; lo <= v < hi && (v == u || v == u - m))
              && (r.None? ==> !(lo <= u < hi) && !(lo <= u - m < hi))
  {
    hide Value, Pow, NumOf, Range, DecimalInt, IntegerValue, Fits;
    var (lo, hi, words) := Range(name).value;
    RangeIs(name, 0);
    if |w| >= words {
      var n := NumOf(name).value;
      var u := Value(w[..words], TWO32);
      ValueBound(w[..words], TWO32);
      var v := if n.signed then Signed(u, Pow(TWO32, words)) else u;
      RangeIs(name, v);
      RangeIs(name, u);
      RangeWithin(name);
      IntegerRead(v);
    }
  }

  lemma RangeWithin(name: string)
    requires Range(name).Some?
    ensures var (lo, hi, words) := Range(name).value;
            var m: int := Pow(TWO32, words);
            if lo == 0 then hi <= m else lo < 0 && -m <= 2 * lo && 2 * hi <= m
  {
    Powers();
    hide Pow;
  }

  // ----------------------------------------------------------------- arguments

  /** Arguments are read one after the other, each from where the previous one ended; the
      first that does not decode ends the reading, and everything from it on remains. */
  lemma {:induction false} ArgumentsInOrder(ids: Ids, args: seq<Arg>, more: seq<Arg>, w: seq<Word32>)
    ensures var d := DecodeArgs(ids, args, w);
            DecodeArgs(ids, args + more, w) ==
            if d.failed then d else var e := DecodeArgs(ids, more, d.rest); e.(values := d.values + e.values)
  {
    hide DecodeType;
    if args == [] {
      assert args + more == more;
      var e := DecodeArgs(ids, more, w);
      assert [] + e.values == e.values;
    } else {
      assert (args + more)[1..] == args[1..] + more && (args + more)[0] == args[0];
      if args[0].ty.None? {
        ArgumentsInOrder(ids, args[1..], more, w);
      } else if DecodeType(ids, args[0].ty.value, w, 0).Some? {
        ArgumentsInOrder(ids, args[1..], more, w[DecodeType(ids, args[0].ty.value, w, 0).value.1..]);
      }
    }
  }

  /** One argument: without a type it is shown as such and takes no words; otherwise it takes
      the words of its value, or fails and takes none. */
  lemma OneArgument(ids: Ids, arg: Arg, w: seq<Word32>)
    ensures var d := DecodeArgs(ids, [arg], w);
            match arg.ty
            case None => d == Decoded(["missing type"], false, w)
            case Some(ty) =>
              (match DecodeType(ids, ty, w, 0)
               case Some(v) => d == Decoded([v.0], false, w[v.1..])
               case None => |d.values| == 1 && d.failed && d.rest == w)
  {
    hide DecodeType;
    assert [arg][1..] == [];
  }

  /** The first word selects the row; without one, or with one that no row has, there is
      nothing to decode. */
  lemma FirstWordSelects(ids: Ids, rows: seq<Row>, external: ExternalType, words: seq<Word32>)
    ensures var r := DecodeInstruction(ids, rows, external, words);
            r.Some? <==> words != [] && VariantIndices(Declarations(rows), external).Some? && words[0] < |rows|
    ensures var r := DecodeInstruction(ids, rows, external, words);
            r.Some? ==>
              && var v := VariantIndices(Declarations(rows), external).value;
              && r.value.0 < |rows| == |v| && v[r.value.0] == words[0]
              && r.value.1 == DecodeArgs(ids, rows[r.value.0].args, words[1..])
  {
    hide DecodeArgs;
    if words != [] && VariantIndices(Declarations(rows), external).Some? {
      VariantsArePermutation(Declarations(rows), external);
      hide VariantIndices;
    }
  }
}
