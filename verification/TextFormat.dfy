/** Numbers, hexadecimal bytes and trimming as text. */
module TextFormat {
  import opened Totals
  import opened Utf8
  import opened BridgeTokens

  function Digit(n: nat): char
    requires n < 10
  {
    HEX_DIGITS[n]
  }

  /** Decimal digits without leading zeros. */
  function Decimal(n: nat): string {
    if n < 10 then [Digit(n)] else Decimal(n / 10) + [Digit(n % 10)]
  }

  function DecimalInt(i: int): string {
    if i < 0 then "-" + Decimal(-i) else Decimal(i)
  }

  /** The number that decimal digits denote; nothing for any other text. */
  function DigitsValue(s: string): Option<nat> {
    if s == "" then None
    else
      var c := s[|s| - 1];
      if !('0' <= c <= '9') then None
      else if |s| == 1 then Some(c as nat - '0' as nat)
      else match DigitsValue(s[..|s| - 1]) case None => None case Some(v) => Some(v * 10 + (c as nat - '0' as nat))
  }

  /** Decimal digits read back as the number they were written for. */
  lemma {:induction false} DecimalRead(n: nat)
    ensures DigitsValue(Decimal(n)) == Some(n)
    ensures Decimal(n) != "" && (Decimal(n)[0] == '0' ==> n == 0)
  {
    if n < 10 {
      DigitIs(n);
    } else {
      DecimalRead(n / 10);
      DigitIs(n % 10);
      var s := Decimal(n);
      assert s[..|s| - 1] == Decimal(n / 10) && s[|s| - 1] == Digit(n % 10);
    }
  }

  lemma DigitIs(n: nat)
    requires n < 10
    ensures '0' <= Digit(n) <= '9' && Digit(n) as nat - '0' as nat == n
  {
  }

  function Negated(v: Option<nat>): Option<int> {
    if v.None? then None else Some(-(v.value as int))
  }

  /** The number that decimal digits with an optional sign denote. */
  function IntegerValue(s: string): Option<int> {
    if s == "" then None
    else if s[0] == '+' then DigitsValue(s[1..])
    else if s[0] == '-' then Negated(DigitsValue(s[1..]))
    else DigitsValue(s)
  }

  lemma {:induction false} AllDigits(s: string, i: nat)
    requires DigitsValue(s).Some? && i < |s|
    ensures '0' <= s[i] <= '9'
  {
    if i < |s| - 1 {
      AllDigits(s[..|s| - 1], i);
    }
  }

  /** An integer reads back as itself. */
  lemma IntegerRead(i: int)
    ensures IntegerValue(DecimalInt(i)) == Some(i)
  {
    hide DigitsValue, Decimal;
    if i < 0 {
      DecimalRead(-i);
      assert DecimalInt(i)[1..] == Decimal(-i);
    } else {
      DecimalRead(i);
      AllDigits(Decimal(i), 0);
    }
  }

  function HexPair(b: Byte): string {
    [HEX_DIGITS[b / 16], HEX_DIGITS[b % 16]]
  }

  /** Lower-case hexadecimal, two digits a byte. */
  function HexBytes(b: seq<Byte>): string {
    if b == [] then "" else HexPair(b[0]) + HexBytes(b[1..])
  }

  /** The value of a hexadecimal digit of either case. */
  function HexDigitOf(c: char): (r: Option<nat>)
    ensures r.Some? ==> r.value < 16
  {
    if IsHex(c) then Some(DigitValue(c)) else None
  }

  function UnhexPair(h: char, l: char): Option<Byte> {
    if HexDigitOf(h).Some? && HexDigitOf(l).Some? then Some(HexDigitOf(h).value * 16 + HexDigitOf(l).value) else None
  }

  /** `hex::decode`. */
  function UnhexBytes(s: string): Option<seq<Byte>> {
    if s == "" then Some([])
    else if |s| < 2 || UnhexPair(s[0], s[1]).None? then None
    else
      match UnhexBytes(s[2..])
      case None => None
      case Some(rest) => Some([UnhexPair(s[0], s[1]).value] + rest)
  }

  predicate LowerHex(s: string) {
    forall i :: 0 <= i < |s| ==> IsHexDigit(s[i])
  }

  lemma DigitOfHex(n: nat)
    requires n < 16
    ensures HexDigitOf(HEX_DIGITS[n]) == Some(n)
  {
  }

  lemma HexOfDigit(c: char)
    requires IsHexDigit(c)
    ensures HexDigitOf(c).Some? && HEX_DIGITS[HexDigitOf(c).value] == c
  {
  }

  lemma UnhexOfPair(b: Byte)
    ensures UnhexPair(HexPair(b)[0], HexPair(b)[1]) == Some(b)
  {
    hide HexDigitOf;
    DigitOfHex(b / 16);
    DigitOfHex(b % 16);
  }

  lemma PairOfUnhex(h: char, l: char)
    requires IsHexDigit(h) && IsHexDigit(l)
    ensures UnhexPair(h, l).Some? && HexPair(UnhexPair(h, l).value) == [h, l]
  {
    hide HexDigitOf;
    HexOfDigit(h);
    HexOfDigit(l);
    var x, y := HexDigitOf(h).value, HexDigitOf(l).value;
    assert (x * 16 + y) / 16 == x && (x * 16 + y) % 16 == y;
  }

  /** Decoding lower-case hexadecimal and encoding again gives the same text. */
  lemma {:induction false} HexOfUnhex(s: string)
    requires LowerHex(s) && |s| % 2 == 0
    ensures UnhexBytes(s).Some? && 2 * |UnhexBytes(s).value| == |s| && HexBytes(UnhexBytes(s).value) == s
  {
    hide HexPair, UnhexPair;
    if s != "" {
      HexOfUnhex(s[2..]);
      PairOfUnhex(s[0], s[1]);
      var b, rest := UnhexPair(s[0], s[1]).value, UnhexBytes(s[2..]).value;
      assert ([b] + rest)[1..] == rest;
      assert s == [s[0], s[1]] + s[2..];
    }
  }

  lemma {:induction false} UnhexOfHex(b: seq<Byte>)
    ensures UnhexBytes(HexBytes(b)) == Some(b) && |HexBytes(b)| == 2 * |b|
  {
    hide UnhexPair;
    if b != [] {
      UnhexOfHex(b[1..]);
      UnhexOfPair(b[0]);
      assert HexBytes(b)[2..] == HexBytes(b[1..]);
      assert b == [b[0]] + b[1..];
    }
  }

  // ----------------------------------------------------------------- trimming

  /** Unicode white space. */
  predicate Space(c: char) {
    || 9 <= c as int <= 13 || c == ' ' || c as int == 0x85 || c as int == 0xA0 || c as int == 0x1680
    || 0x2000 <= c as int <= 0x200A || c as int == 0x2028 || c as int == 0x2029 || c as int == 0x202F
    || c as int == 0x205F || c as int == 0x3000
  }

  function TrimStart(s: string): string {
    if s != "" && Space(s[0]) then TrimStart(s[1..]) else s
  }

  function TrimEnd(s: string): string {
    if s != "" && Space(s[|s| - 1]) then TrimEnd(s[..|s| - 1]) else s
  }

  function Trim(s: string): string {
    TrimEnd(TrimStart(s))
  }

  /** Text without white space at either end. */
  predicate Trimmed(s: string) {
    s == "" || (!Space(s[0]) && !Space(s[|s| - 1]))
  }

  lemma {:induction false} TrimStartEnds(s: string)
    ensures TrimStart(s) == "" || !Space(TrimStart(s)[0])
  {
    if s != "" && Space(s[0]) {
      TrimStartEnds(s[1..]);
    }
  }

  lemma {:induction false} TrimEndEnds(s: string)
    ensures TrimEnd(s) == "" || !Space(TrimEnd(s)[|TrimEnd(s)| - 1])
    ensures TrimEnd(s) <= s
  {
    if s != "" && Space(s[|s| - 1]) {
      TrimEndEnds(s[..|s| - 1]);
    }
  }

  /** Trimming gives trimmed text, and leaves trimmed text alone. */
  lemma TrimExact(s: string)
    ensures Trimmed(Trim(s))
    ensures Trimmed(s) ==> Trim(s) == s
  {
    TrimStartEnds(s);
    TrimEndEnds(TrimStart(s));
  }
}
