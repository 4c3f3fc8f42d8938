/** The instruction decoder as it runs: a word cursor, accumulators and the argument
    loop. */
module InstructionDecoder {
  import opened Totals
  import opened LittleEndian
  import opened TextFormat
  import opened IdlLimits
  import opened InstructionVariants
  import opened InstructionModel

  method ReadWordsUnsigned(words: seq<Word32>, offset: nat, count: nat) returns (r: Option<nat>)
    ensures r == if offset + count <= |words| && count <= 4 then Some(Value(words[offset..offset + count], TWO32)) else None
  {
    if offset + count > |words| || count > 4 {
      return None;
    }
    var slice: seq<nat> := words[offset..offset + count];
    var value, weight := 0, 1;
    for i := 0 to count
      invariant value == Value(slice[..i], TWO32) && weight == Pow(TWO32, i)
    {
      assert slice[..i + 1] == slice[..i] + [slice[i]];
      ValueAppend(slice[..i], [slice[i]], TWO32);
      OneWord(slice[i]);
      value := value + weight * slice[i];
      weight := TWO32 * weight;
    }
    assert slice[..count] == slice;
    r := Some(value);
  }

  lemma OneWord(d: nat)
    ensures Value([d], TWO32) == d
  {
    assert [d][1..] == [];
  }

  /** The four-word buffer is filled with the sign before the words are copied in. */
  method ReadWordsSigned(words: seq<Word32>, offset: nat, count: nat) returns (r: Option<int>)
    ensures r == if offset + count <= |words| && 0 < count <= 4
                 then Some(Signed(Value(words[offset..offset + count], TWO32), Pow(TWO32, count))) else None
  {
    hide Value, Pow, Signed;
    if offset + count > |words| || count > 4 || count == 0 {
      return None;
    }
    var slice: seq<nat> := words[offset..offset + count];
    var fill := if slice[count - 1] >= 0x8000_0000 then TWO32 - 1 else 0;
    var wide := new nat[4](_ => fill);
    for i := 0 to count
      invariant forall k :: 0 <= k < 4 ==> wide[k] == if k < i then slice[k] else fill
    {
      wide[i] := slice[i];
    }
    assert wide[..] == slice + Fill(fill, 4 - count);
    SignExtension(slice, 4 - count, TWO32);
    r := Some(Signed(Value(wide[..], TWO32), Pow(TWO32, 4)));
  }

  lemma Rest(words: seq<Word32>, offset: nat, n: nat)
    requires offset + n <= |words|
    ensures words[offset..][n..] == words[offset + n..] && words[offset..][..n] == words[offset..offset + n]
    ensures |words[offset..]| == |words| - offset
    ensures offset < |words| ==> words[offset..][0] == words[offset]
  {
  }

  method DecodeNumber(n: Num, words: seq<Word32>, offset: nat) returns (r: Option<(string, nat)>)
    requires offset <= |words| && 0 < n.words <= 4
    ensures r == DecodeNum(n, words[offset..])
  {
    hide Value, Pow, DecimalInt, Signed;
    if offset + n.words > |words| {
      return None;
    }
    Rest(words, offset, n.words);
    var v: int;
    if n.signed {
      var s := ReadWordsSigned(words, offset, n.words);
      v := s.value;
    } else {
      var u := ReadWordsUnsigned(words, offset, n.words);
      v := u.value;
    }
    r := if Fits(n, v) then Some((DecimalInt(v), n.words)) else None;
  }

  lemma NumWidths(name: string)
    ensures NumOf(name).Some? ==> 0 < NumOf(name).value.words <= 4
  {
  }

  method DecodeInstructionPrimitive(ids: Ids, name: string, words: seq<Word32>, offset: nat) returns (r: Option<(string, nat)>)
    requires offset <= |words|
    ensures r == DecodePrimitive(ids, name, words[offset..])
  {
    NumWidths(name);
    hide NumOf, DecodeText, DecodeNum, HexBytes, BytesOf;
    if NumOf(name).Some? {
      r := DecodeNumber(NumOf(name).value, words, offset);
    } else if name == "bool" {
      if offset == |words| {
        return None;
      }
      r := Some((if words[offset] != 0 then "true" else "false", 1));
    } else if name == "account_id" {
      var d := DecodeText(words[offset..]);
      if d.None? {
        return None;
      }
      var a := ids.readWire(d.value.0);
      r := if a.None? then None else Some((ids.showAccount(a.value), d.value.1));
    } else if name == "program_id" {
      if offset + 8 > |words| {
        return None;
      }
      Rest(words, offset, 8);
      r := Some((HexBytes(BytesOf(words[offset..offset + 8])), 8));
    } else if name == "string" || name == "String" {
      r := DecodeText(words[offset..]);
    } else {
      r := None;
    }
  }

  function Prefixed(values: seq<string>, used: nat, rest: Option<(seq<string>, nat)>): Option<(seq<string>, nat)> {
    match rest case None => None case Some(d) => Some((values + d.0, used + d.1))
  }

  lemma PrefixNone(rest: Option<(seq<string>, nat)>)
    ensures Prefixed([], 0, rest) == rest
  {
    if rest.Some? {
      assert [] + rest.value.0 == rest.value.0;
    }
  }

  lemma PrefixMore(values: seq<string>, used: nat, t: string, n: nat, rest: Option<(seq<string>, nat)>)
    ensures Prefixed(values, used, match rest case None => None case Some(d) => Some(([t] + d.0, n + d.1)))
         == Prefixed(values + [t], used + n, rest)
  {
    if rest.Some? {
      assert values + ([t] + rest.value.0) == (values + [t]) + rest.value.0;
    }
  }

  lemma ManyStep(ids: Ids, ty: Type, w: seq<Word32>, depth: nat, n: nat)
    requires depth <= MAX_DEPTH && n > 0
    ensures DecodeMany(ids, ty, w, depth, n) == (
              match DecodeType(ids, ty, w, depth + 1)
              case None => None
              case Some(d) => (match DecodeMany(ids, ty, w[d.1..], depth, n - 1)
                               case None => None
                               case Some(rest) => Some(([d.0] + rest.0, d.1 + rest.1))))
  {
  }

  lemma ManyEmpty(ids: Ids, ty: Type, w: seq<Word32>, depth: nat)
    requires depth <= MAX_DEPTH
    ensures DecodeMany(ids, ty, w, depth, 0) == Some(([], 0))
  {
  }

  /** The element loop of a fixed array. */
  method DecodeElements(ids: Ids, ty: Type, words: seq<Word32>, offset: nat, depth: nat, n: nat) returns (r: Option<(seq<string>, nat)>)
    requires offset <= |words| && depth <= MAX_DEPTH
    ensures r == DecodeMany(ids, ty, words[offset..], depth, n)
    decreases Left(depth), 0
  {
    hide DecodeType, DecodeMany;
    var cursor := offset;
    var values := [];
    ghost var whole := DecodeMany(ids, ty, words[offset..], depth, n);
    PrefixNone(whole);
    var i := 0;
    while i < n
      invariant i <= n && offset <= cursor <= |words|
      invariant whole == Prefixed(values, cursor - offset, DecodeMany(ids, ty, words[cursor..], depth, n - i))
    {
      ManyStep(ids, ty, words[cursor..], depth, n - i);
      var d := DecodeInstructionType(ids, ty, words, cursor, depth + 1);
      if d.None? {
        return None;
      }
      Rest(words, cursor, d.value.1);
      PrefixMore(values, cursor - offset, d.value.0, d.value.1, DecodeMany(ids, ty, words[cursor + d.value.1..], depth, n - i - 1));
      cursor := cursor + d.value.1;
      values := values + [d.value.0];
      i := i + 1;
    }
    ManyEmpty(ids, ty, words[cursor..], depth);
    assert values + [] == values;
    r := Some((values, cursor - offset));
  }

  method DecodeInstructionType(ids: Ids, ty: Type, words: seq<Word32>, offset: nat, depth: nat) returns (r: Option<(string, nat)>)
    requires offset <= |words|
    ensures r == DecodeType(ids, ty, words[offset..], depth)
    decreases Left(depth), 1
  {
    hide DecodePrimitive, DecodeMany, JoinTexts;
    if depth > MAX_DEPTH {
      return None;
    }
    match ty {
      case Named(name) => r := DecodeInstructionPrimitive(ids, name, words, offset);
      case Opt(inner) =>
        if offset == |words| {
          return None;
        }
        Rest(words, offset, 1);
        var tag := words[offset];
        if tag == 0 {
          return Some(("None", 1));
        }
        if tag != 1 {
          return None;
        }
        var d := DecodeInstructionType(ids, inner, words, offset + 1, depth + 1);
        r := if d.None? then None else Some(("Some(" + d.value.0 + ")", d.value.1 + 1));
      case Arr(elem, len) =>
        if len > MAX_LENGTH {
          return None;
        }
        var d := DecodeElements(ids, elem, words, offset, depth, len);
        r := if d.None? then None else Some(("[" + JoinTexts(d.value.0) + "]", d.value.1));
      case _ => r := None;
    }
  }

  // ------------------------------------------------------------- the argument loop

  function Ahead(values: seq<string>, d: Decoded): Decoded {
    d.(values := values + d.values)
  }

  lemma ArgsStep(ids: Ids, args: seq<Arg>, i: nat, w: seq<Word32>)
    requires i < |args|
    ensures var more := args[i + 1..];
            DecodeArgs(ids, args[i..], w) == (
              if args[i].ty.None? then Ahead(["missing type"], DecodeArgs(ids, more, w))
              else
                match DecodeType(ids, args[i].ty.value, w, 0)
                case None => Decoded(["unsupported"], true, w)
                case Some(v) => Ahead([v.0], DecodeArgs(ids, more, w[v.1..])))
  {
    assert args[i..][1..] == args[i + 1..] && args[i..][0] == args[i];
  }

  lemma AheadMore(values: seq<string>, t: string, d: Decoded)
    ensures Ahead(values, Ahead([t], d)) == Ahead(values + [t], d)
  {
    assert values + ([t] + d.values) == (values + [t]) + d.values;
  }

  /** The argument loop of `decode_instruction_words_with_idl`, with its running offset. */
  method DecodeArguments(ids: Ids, args: seq<Arg>, words: seq<Word32>) returns (r: Decoded)
    requires words != []
    ensures r == DecodeArgs(ids, args, words[1..])
  {
    hide DecodeType, DecodeArgs;
    var offset := 1;
    var values := [];
    var i := 0;
    ghost var whole := DecodeArgs(ids, args, words[1..]);
    assert args[0..] == args && [] + whole.values == whole.values;
    while i < |args|
      invariant i <= |args| && 1 <= offset <= |words|
      invariant whole == Ahead(values, DecodeArgs(ids, args[i..], words[offset..]))
    {
      ArgsStep(ids, args, i, words[offset..]);
      if args[i].ty.None? {
        AheadMore(values, "missing type", DecodeArgs(ids, args[i + 1..], words[offset..]));
        values := values + ["missing type"];
      } else {
        var d := DecodeInstructionType(ids, args[i].ty.value, words, offset, 0);
        if d.None? {
          return Decoded(values + ["unsupported"], true, words[offset..]);
        }
        Rest(words, offset, d.value.1);
        AheadMore(values, d.value.0, DecodeArgs(ids, args[i + 1..], words[offset + d.value.1..]));
        values := values + [d.value.0];
        offset := offset + d.value.1;
      }
      i := i + 1;
    }
    NoArgs(ids, words[offset..]);
    assert args[i..] == [] && values + [] == values;
    r := Decoded(values, false, words[offset..]);
  }

  lemma NoArgs(ids: Ids, w: seq<Word32>)
    ensures DecodeArgs(ids, [], w) == Decoded([], false, w)
  {
  }

  /** `decode_instruction_words_with_idl`. */
  method DecodeInstructionWords(ids: Ids, rows: seq<Row>, external: ExternalType, words: seq<Word32>)
    returns (r: Option<(nat, Decoded)>)
    ensures r == DecodeInstruction(ids, rows, external, words)
  {
    hide DecodeArgs, VariantIndices, RowOf;
    if words == [] {
      return None;
    }
    var variants := VariantIndices(Declarations(rows), external);
    if variants.None? {
      return None;
    }
    var row := RowOf(variants.value, words[0]);
    if row.None? || row.value >= |rows| {
      return None;
    }
    var d := DecodeArguments(ids, rows[row.value].args, words);
    r := Some((row.value, d));
  }
}
