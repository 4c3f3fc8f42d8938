/** Request ids and tokens of the asynchronous bridge. */
module BridgeTokens {

  const TWO64 := 0x1_0000_0000_0000_0000

  /** A `uint64_t`. */
  type Word = n: nat | n < TWO64

  const HEX_DIGITS := "0123456789abcdef"
  const TOKEN_PREFIX := "liab-"

  predicate IsHexDigit(c: char) {
    '0' <= c <= '9' || 'a' <= c <= 'f'
  }

  predicate IsHex(c: char) {
    IsHexDigit(c) || 'A' <= c <= 'F'
  }

  /** The value of a hexadecimal digit of either case. */
  function DigitValue(c: char): (r: nat)
    requires IsHex(c)
    ensures r < 16
  {
    if c <= '9' then c as nat - '0' as nat
    else if c <= 'F' then c as nat - 'A' as nat + 10
    else c as nat - 'a' as nat + 10
  }

  /** The number a lower-case hexadecimal string denotes. */
  function HexValue(s: string): nat
    requires forall i :: 0 <= i < |s| ==> IsHexDigit(s[i])
  {
    if s == [] then 0 else HexValue(s[..|s| - 1]) * 16 + DigitValue(s[|s| - 1])
  }

  function Power16(n: nat): nat {
    if n == 0 then 1 else Power16(n - 1) * 16
  }

  /** The `n` lowest hexadecimal digits of `v`, most significant first. */
  function Hex(v: nat, n: nat): (s: string)
    ensures |s| == n && forall i :: 0 <= i < |s| ==> IsHexDigit(s[i])
  {
    if n == 0 then [] else Hex(v / 16, n - 1) + [HEX_DIGITS[v % 16]]
  }

  lemma {:induction false} HexDenotes(v: nat, n: nat)
    requires v < Power16(n)
    ensures HexValue(Hex(v, n)) == v
    decreases n
  {
    if n > 0 {
      var s := Hex(v, n);
      assert s[..|s| - 1] == Hex(v / 16, n - 1);
      assert DigitValue(HEX_DIGITS[v % 16]) == v % 16;
      HexDenotes(v / 16, n - 1);
    }
  }

  /** `hexadecimal`: the digits are filled in from the right. */
  method Hexadecimal(value: nat) returns (r: string)
    requires value < TWO64
    ensures r == Hex(value, 16)
  {
    var digits := new char[16](_ => '0');
    var v, index := value, 16;
    while index > 0
      invariant 0 <= index <= 16
      invariant Hex(v, index) + digits[index..] == Hex(value, 16)
    {
      digits[index - 1] := HEX_DIGITS[v % 16];
      assert Hex(v, index) + digits[index..] == Hex(v / 16, index - 1) + digits[index - 1..];
      v := v / 16;
      index := index - 1;
    }
    r := digits[..];
  }

  function MakeToken(space: nat, id: nat): string {
    TOKEN_PREFIX + Hex(space, 16) + Hex(id, 16)
  }

  predicate ValidToken(token: string) {
    && |token| == |TOKEN_PREFIX| + 32
    && token[..|TOKEN_PREFIX|] == TOKEN_PREFIX
    && forall i :: |TOKEN_PREFIX| <= i < |token| ==> IsHexDigit(token[i])
  }

  lemma Power16Is()
    ensures Power16(16) == TWO64
  {
    assert Power16(4) == 0x1_0000;
    assert Power16(8) == 0x1_0000_0000;
    assert Power16(12) == 0x1_0000_0000_0000;
  }

  /** A token determines the namespace and the id, and always passes the check that
      `pollAsync`, `cancelAsync` and `releaseAsync` make. */
  lemma TokensInjective(space: nat, id: nat, space': nat, id': nat)
    requires space < TWO64 && id < TWO64 && space' < TWO64 && id' < TWO64
    ensures ValidToken(MakeToken(space, id))
    ensures MakeToken(space, id) == MakeToken(space', id') ==> space == space' && id == id'
  {
    Power16Is();
    var t, t' := MakeToken(space, id), MakeToken(space', id');
    assert t[..5] == TOKEN_PREFIX && t[5..21] == Hex(space, 16) && t[21..] == Hex(id, 16);
    assert t'[5..21] == Hex(space', 16) && t'[21..] == Hex(id', 16);
    HexDenotes(space, 16);
    HexDenotes(id, 16);
    HexDenotes(space', 16);
    HexDenotes(id', 16);
    assert forall i :: 5 <= i < 21 ==> t[i] == Hex(space, 16)[i - 5];
    assert forall i :: 21 <= i < 37 ==> t[i] == Hex(id, 16)[i - 21];
  }

  // ------------------------------------------------------------- allocation

  /** The wrapping increment of `nextBridgeId`. */
  function Succ64(n: nat): nat {
    if n + 1 < TWO64 then n + 1 else 0
  }

  /** The `k`-th id after `next`. */
  function Ahead(next: nat, k: nat): nat {
    (next + k) % TWO64
  }

  /** Up to `tries` consecutive ids; zero when each of them is zero or taken. */
  function Allocate(next: nat, taken: set<nat>, tries: nat): (r: (nat, nat))
    requires next < TWO64
    ensures r.1 < TWO64
    ensures r.0 != 0 ==> r.0 !in taken && r.0 < TWO64
    decreases tries
  {
    if tries == 0 then (0, next)
    else if next != 0 && next !in taken then (next, Succ64(next))
    else Allocate(Succ64(next), taken, tries - 1)
  }

  lemma {:induction false} AllocateFails(next: nat, taken: set<nat>, tries: nat)
    requires next < TWO64 && Allocate(next, taken, tries).0 == 0
    ensures forall k :: 0 <= k < tries ==> Ahead(next, k) in taken + {0}
    decreases tries
  {
    if tries > 0 {
      AllocateFails(Succ64(next), taken, tries - 1);
      forall k | 0 <= k < tries ensures Ahead(next, k) in taken + {0} {
        if k > 0 {
          assert Ahead(next, k) == Ahead(Succ64(next), k - 1);
        }
      }
    }
  }

  /** Consecutive ids are distinct until they come round. */
  lemma AheadDistinct(next: nat, i: nat, j: nat)
    requires next < TWO64 && i < j < TWO64
    ensures Ahead(next, i) != Ahead(next, j)
  {
  }

  lemma {:induction false} PigeonHole(next: nat, forbidden: set<nat>, n: nat)
    requires next < TWO64 && n <= TWO64
    requires forall k :: 0 <= k < n ==> Ahead(next, k) in forbidden
    ensures n <= |forbidden|
    decreases n
  {
    if n > 0 {
      var last := Ahead(next, n - 1);
      forall k | 0 <= k < n - 1 ensures Ahead(next, k) in forbidden - {last} {
        AheadDistinct(next, k, n - 1);
      }
      PigeonHole(next, forbidden - {last}, n - 1);
    }
  }

  /** With `|taken| + 2` tries an id is always found, also across the wrap. */
  lemma AllocateSucceeds(next: nat, taken: set<nat>)
    requires next < TWO64 && |taken| + 2 <= TWO64
    ensures Allocate(next, taken, |taken| + 2).0 != 0
  {
    var forbidden := taken + {0};
    assert forbidden == if 0 in taken then taken else taken + {0};
    assert |forbidden| <= |taken| + 1;
    if Allocate(next, taken, |taken| + 2).0 == 0 {
      AllocateFails(next, taken, |taken| + 2);
      PigeonHole(next, forbidden, |taken| + 2);
    }
  }

  // ------------------------------------------------------------ which id, which token

  lemma AheadNext(next: nat, k: nat)
    requires next < TWO64
    ensures Ahead(Succ64(next), k) == Ahead(next, k + 1) && Ahead(next, 0) == next
  {
  }

  /** The id that is allocated is the first one tried that is not zero and not taken, and the
      counter then stands right behind it; without one among the tries there is none. */
  lemma {:induction false} AllocateFirst(next: nat, taken: set<nat>, tries: nat)
    requires next < TWO64
    ensures var r := Allocate(next, taken, tries);
            if r.0 == 0 then forall k :: 0 <= k < tries ==> Ahead(next, k) == 0 || Ahead(next, k) in taken
            else
              && r.1 == (r.0 + 1) % TWO64
              && exists k :: 0 <= k < tries && Ahead(next, k) == r.0 && forall j :: 0 <= j < k ==> Ahead(next, j) == 0 || Ahead(next, j) in taken
    decreases tries
  {
    hide Ahead;
    AheadNext(next, 0);
    if tries > 0 && !(next != 0 && next !in taken) {
      AllocateFirst(Succ64(next), taken, tries - 1);
      forall k: nat ensures Ahead(Succ64(next), k) == Ahead(next, k + 1) {
        AheadNext(next, k);
      }
      var r := Allocate(next, taken, tries);
      if r.0 == 0 {
        forall k | 0 <= k < tries ensures Ahead(next, k) == 0 || Ahead(next, k) in taken {
          if k > 0 {
            assert Ahead(Succ64(next), k - 1) == Ahead(next, k);
          }
        }
      } else {
        var k :| 0 <= k < tries - 1 && Ahead(Succ64(next), k) == r.0
                 && forall j :: 0 <= j < k ==> Ahead(Succ64(next), j) == 0 || Ahead(Succ64(next), j) in taken;
        forall j | 0 <= j < k + 1 ensures Ahead(next, j) == 0 || Ahead(next, j) in taken {
          if j > 0 {
            assert Ahead(Succ64(next), j - 1) == Ahead(next, j);
          }
        }
      }
    }
  }

  lemma DigitBack(c: char)
    requires IsHexDigit(c)
    ensures HEX_DIGITS[DigitValue(c)] == c
  {
  }

  /** Every lower-case hexadecimal text is the one of the number it denotes. */
  lemma {:induction false} HexOfValue(s: string)
    requires forall i :: 0 <= i < |s| ==> IsHexDigit(s[i])
    ensures HexValue(s) < Power16(|s|) && Hex(HexValue(s), |s|) == s
  {
    if s != "" {
      var front, c := s[..|s| - 1], s[|s| - 1];
      HexOfValue(front);
      DigitBack(c);
      assert (HexValue(front) * 16 + DigitValue(c)) / 16 == HexValue(front);
      assert (HexValue(front) * 16 + DigitValue(c)) % 16 == DigitValue(c);
      assert s == front + [c];
    }
  }

  /** The texts that pass as tokens are exactly the tokens: "liab-" and sixteen hexadecimal
      digits each for the namespace and the id. */
  lemma TokensExact(token: string)
    ensures ValidToken(token) <==> exists space: Word, id: Word :: token == MakeToken(space, id)
    ensures forall space: Word, id: Word :: MakeToken(space, id)[..5] == "liab-" && |MakeToken(space, id)| == 37
  {
    Power16Is();
    hide HexValue, Hex, Power16;
    forall space: Word, id: Word
      ensures ValidToken(MakeToken(space, id)) && MakeToken(space, id)[..5] == "liab-" && |MakeToken(space, id)| == 37
    {
      TokensInjective(space, id, space, id);
    }
    if ValidToken(token) {
      var a, b := token[5..21], token[21..];
      HexOfValue(a);
      HexOfValue(b);
      var space: Word, id: Word := HexValue(a), HexValue(b);
      assert token == token[..5] + a + b;
      assert token == MakeToken(space, id);
    }
  }
}
