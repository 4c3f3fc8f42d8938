/** UTF-8 (section 3 of RFC 3629): strict, and lossy with replacement characters. */
module Utf8 {
  import opened Totals

  type Byte = n: nat | n < 256

  const REPLACEMENT := '\U{FFFD}'

  predicate Continuation(b: Byte) { 0x80 <= b < 0xC0 }

  /** How many bytes the sequence that `b` opens has; zero when it opens none. */
  function Width(b: Byte): nat {
    if b < 0x80 then 1
    else if 0xC2 <= b < 0xE0 then 2
    else if 0xE0 <= b < 0xF0 then 3
    else if 0xF0 <= b < 0xF5 then 4
    else 0
  }

  /** The second byte's range excludes overlong forms, surrogates and values past U+10FFFF. */
  predicate SecondOk(b0: Byte, b1: Byte) {
    if b0 == 0xE0 then 0xA0 <= b1 < 0xC0
    else if b0 == 0xED then 0x80 <= b1 < 0xA0
    else if b0 == 0xF0 then 0x90 <= b1 < 0xC0
    else if b0 == 0xF4 then 0x80 <= b1 < 0x90
    else Continuation(b1)
  }

  /** What a nonempty byte string starts with: a character, or a maximal piece of an
      ill-formed sequence. */
  datatype Scan = Valid(c: char, width: nat) | Invalid(width: nat)

  function Scalar(p: nat): char
    requires p < 0xD800 || 0xE000 <= p < 0x11_0000
  {
    p as char
  }

  function Point2(b0: nat, b1: nat): int { (b0 - 0xC0) * 64 + (b1 - 0x80) }
  function Point3(b0: nat, b1: nat, b2: nat): int { (b0 - 0xE0) * 4096 + (b1 - 0x80) * 64 + (b2 - 0x80) }
  function Point4(b0: nat, b1: nat, b2: nat, b3: nat): int {
    (b0 - 0xF0) * 262144 + (b1 - 0x80) * 4096 + (b2 - 0x80) * 64 + (b3 - 0x80)
  }

  function First(b: seq<Byte>): (r: Scan)
    requires b != []
    ensures 1 <= r.width <= |b|
  {
    var w := Width(b[0]);
    if w == 1 then Valid(Scalar(b[0]), 1)
    else if w == 0 || |b| < 2 || !SecondOk(b[0], b[1]) then Invalid(1)
    else if w == 2 then Valid(Scalar(Point2(b[0], b[1])), 2)
    else if |b| < 3 || !Continuation(b[2]) then Invalid(2)
    else if w == 3 then Valid(Scalar(Point3(b[0], b[1], b[2])), 3)
    else if |b| < 4 || !Continuation(b[3]) then Invalid(3)
    else Valid(Scalar(Point4(b[0], b[1], b[2], b[3])), 4)
  }

  function Encoded(c: char): (r: seq<Byte>)
    ensures 1 <= |r| <= 4 && Width(r[0]) == |r|
    ensures forall i :: 1 <= i < |r| ==> Continuation(r[i])
  {
    var p := c as nat;
    if p < 0x80 then [p]
    else if p < 0x800 then [0xC0 + p / 64, 0x80 + p % 64]
    else if p < 0x1_0000 then [0xE0 + p / 4096, 0x80 + p / 64 % 64, 0x80 + p % 64]
    else [0xF0 + p / 262144, 0x80 + p / 4096 % 64, 0x80 + p / 64 % 64, 0x80 + p % 64]
  }

  function Encode(s: string): seq<Byte> {
    if s == "" then [] else Encoded(s[0]) + Encode(s[1..])
  }

  function Decode(b: seq<Byte>): Option<string> {
    if b == [] then Some("")
    else
      match First(b)
      case Invalid(_) => None
      case Valid(c, w) => match Decode(b[w..]) case None => None case Some(s) => Some([c] + s)
  }

  /** Every ill-formed piece becomes one replacement character. */
  function Lossy(b: seq<Byte>): string {
    if b == [] then ""
    else match First(b) case Invalid(w) => [REPLACEMENT] + Lossy(b[w..]) case Valid(c, w) => [c] + Lossy(b[w..])
  }

  // ---------------------------------------------------------------- one character

  lemma TwoBytes(p: nat)
    requires 0x80 <= p < 0x800
    ensures 2 <= p / 64 < 32 && (p / 64) * 64 + p % 64 == p
  {
  }

  lemma ThreeBytes(p: nat)
    requires 0x800 <= p < 0x1_0000
    ensures p / 4096 < 16 && (p / 4096) * 4096 + (p / 64 % 64) * 64 + p % 64 == p
    ensures p / 4096 == 0 ==> p / 64 % 64 >= 32
    ensures p / 4096 == 13 && p < 0xD800 ==> p / 64 % 64 < 32
    ensures p / 4096 == 13 ==> 0xD000 <= p < 0xE000
  {
    assert p / 64 / 64 == p / 4096;
    assert (p / 64) / 64 * 64 + p / 64 % 64 == p / 64;
  }

  lemma FourBytes(p: nat)
    requires 0x1_0000 <= p < 0x11_0000
    ensures p / 262144 < 5 && (p / 262144) * 262144 + (p / 4096 % 64) * 4096 + (p / 64 % 64) * 64 + p % 64 == p
    ensures p / 262144 == 0 ==> p / 4096 % 64 >= 16
    ensures p / 262144 == 4 ==> p / 4096 % 64 < 16
  {
    assert p / 64 / 64 == p / 4096 && p / 4096 / 64 == p / 262144;
    assert (p / 64) / 64 * 64 + p / 64 % 64 == p / 64;
    assert (p / 4096) / 64 * 64 + p / 4096 % 64 == p / 4096;
  }

  /** A character is read back, whatever follows it. */
  lemma FirstEncoded(c: char, rest: seq<Byte>)
    ensures First(Encoded(c) + rest) == Valid(c, |Encoded(c)|)
  {
    var p := c as nat;
    var b := Encoded(c) + rest;
    assert forall i :: 0 <= i < |Encoded(c)| ==> b[i] == Encoded(c)[i];
    if p < 0x80 {
    } else if p < 0x800 {
      TwoBytes(p);
    } else if p < 0x1_0000 {
      ThreeBytes(p);
    } else {
      FourBytes(p);
    }
  }

  lemma Digits2(x: nat, y: nat)
    requires y < 64
    ensures (x * 64 + y) / 64 == x && (x * 64 + y) % 64 == y
  {
  }

  lemma Digits3(x: nat, y: nat, z: nat)
    requires y < 64 && z < 64
    ensures var p := x * 4096 + y * 64 + z; p / 4096 == x && p / 64 % 64 == y && p % 64 == z
  {
    var p := x * 4096 + y * 64 + z;
    Digits2(x * 64 + y, z);
    Digits2(x, y);
    assert p == (x * 64 + y) * 64 + z;
    assert p / 64 / 64 == p / 4096;
  }

  lemma Digits4(w: nat, x: nat, y: nat, z: nat)
    requires x < 64 && y < 64 && z < 64
    ensures var p := w * 262144 + x * 4096 + y * 64 + z;
            p / 262144 == w && p / 4096 % 64 == x && p / 64 % 64 == y && p % 64 == z
  {
    var p := w * 262144 + x * 4096 + y * 64 + z;
    Digits3(w * 64 + x, y, z);
    Digits2(w, x);
    assert p == (w * 64 + x) * 4096 + y * 64 + z;
    assert p / 4096 / 64 == p / 262144;
  }

  /** What reads as a character is its encoding. */
  lemma FirstIsEncoded(b: seq<Byte>)
    requires b != [] && First(b).Valid?
    ensures b[..First(b).width] == Encoded(First(b).c)
  {
    var w := Width(b[0]);
    if w == 2 {
      Digits2(b[0] - 0xC0, b[1] - 0x80);
    } else if w == 3 {
      Digits3(b[0] - 0xE0, b[1] - 0x80, b[2] - 0x80);
    } else if w == 4 {
      Digits4(b[0] - 0xF0, b[1] - 0x80, b[2] - 0x80, b[3] - 0x80);
    }
  }

  // ---------------------------------------------------------------- whole strings

  lemma EncodeCons(c: char, s: string)
    ensures Encode([c] + s) == Encoded(c) + Encode(s)
  {
    assert ([c] + s)[1..] == s;
  }

  lemma {:induction false} EncodeAppend(s: string, t: string)
    ensures Encode(s + t) == Encode(s) + Encode(t)
  {
    if s == "" {
      assert s + t == t;
    } else {
      assert (s + t)[1..] == s[1..] + t;
      EncodeAppend(s[1..], t);
    }
  }

  /** Strict decoding inverts encoding. */
  lemma {:induction false} DecodeEncode(s: string)
    ensures Decode(Encode(s)) == Some(s)
  {
    hide First, Encoded;
    if s != "" {
      FirstEncoded(s[0], Encode(s[1..]));
      assert (Encoded(s[0]) + Encode(s[1..]))[|Encoded(s[0])|..] == Encode(s[1..]);
      DecodeEncode(s[1..]);
      assert s == [s[0]] + s[1..];
    }
  }

  /** What decodes strictly is the encoding of what it decodes to. */
  lemma {:induction false} EncodeDecode(b: seq<Byte>)
    requires Decode(b).Some?
    ensures Encode(Decode(b).value) == b
    decreases |b|
  {
    hide First, Encoded;
    if b != [] {
      var f := First(b);
      FirstIsEncoded(b);
      EncodeDecode(b[f.width..]);
      var s := Decode(b[f.width..]).value;
      assert ([f.c] + s)[1..] == s;
      assert b == b[..f.width] + b[f.width..];
    }
  }

  /** Lossy decoding changes nothing in well-formed text. */
  lemma {:induction false} LossyOfWellFormed(s: string)
    ensures Lossy(Encode(s)) == s
  {
    hide First, Encoded;
    if s != "" {
      FirstEncoded(s[0], Encode(s[1..]));
      assert (Encoded(s[0]) + Encode(s[1..]))[|Encoded(s[0])|..] == Encode(s[1..]);
      LossyOfWellFormed(s[1..]);
      assert s == [s[0]] + s[1..];
    }
  }

  // ------------------------------------------------------------ ill-formed pieces

  /** The bytes begin the encoding of some character. */
  predicate BeginsCharacter(b: seq<Byte>) {
    exists c: char :: b <= Encoded(c)
  }

  /** A character that begins with the bytes of a truncated one. */
  lemma Truncated(b: seq<Byte>, whole: seq<Byte>)
    requires whole != [] && First(whole).Valid? && b <= whole[..First(whole).width]
    ensures BeginsCharacter(b)
  {
    FirstIsEncoded(whole);
    assert b <= Encoded(First(whole).c);
  }

  /** Bytes that begin a character are one whole or a truncated one. */
  lemma BeginningScan(b: seq<Byte>, v: nat, c: char)
    requires 1 <= v <= |b| && b[..v] <= Encoded(c)
    ensures First(b).Valid? || First(b).width >= v
  {
    FirstEncoded(c, []);
    assert Encoded(c) + [] == Encoded(c);
    assert forall i :: 0 <= i < v ==> b[..v][i] == b[i] && Encoded(c)[i] == b[..v][i];
  }

  lemma NoCharacter(b: seq<Byte>, v: nat, c: char)
    requires b != [] && First(b).Invalid? && First(b).width < v <= |b|
    ensures !(b[..v] <= Encoded(c))
  {
    if b[..v] <= Encoded(c) {
      BeginningScan(b, v, c);
    }
  }

  lemma StartsWith(b: seq<Byte>, c: char)
    requires Encoded(c) <= b
    ensures First(b) == Valid(c, |Encoded(c)|)
  {
    FirstEncoded(c, b[|Encoded(c)|..]);
    assert b == Encoded(c) + b[|Encoded(c)|..];
  }

  /** What one replacement character stands for: the bytes begin no character as they go on,
      and the piece is the longest beginning of a character there is, or a single byte. */
  lemma IllFormedPiece(b: seq<Byte>)
    requires b != [] && First(b).Invalid?
    ensures var w := First(b).width;
            && (w == 1 || BeginsCharacter(b[..w]))
            && (forall v :: w < v <= |b| ==> !BeginsCharacter(b[..v]))
            && (forall c: char :: !(Encoded(c) <= b))
  {
    var w := First(b).width;
    if w == 2 {
      Truncated(b[..2], if Width(b[0]) == 3 then [b[0], b[1], 0x80] else [b[0], b[1], 0x80, 0x80]);
    } else if w == 3 {
      Truncated(b[..3], [b[0], b[1], b[2], 0x80]);
    }
    forall v | w < v <= |b| ensures !BeginsCharacter(b[..v]) {
      forall c: char ensures !(b[..v] <= Encoded(c)) {
        NoCharacter(b, v, c);
      }
    }
    forall c: char ensures !(Encoded(c) <= b) {
      if Encoded(c) <= b {
        StartsWith(b, c);
      }
    }
  }
}
