/** The bounded text of a block stream: chunks of bytes, decoded lossily one by one. */
module StreamText {
  import opened Totals
  import opened Utf8

  /** The longest prefix of whole characters whose encoding takes at most `room` bytes. */
  function Fit(s: string, room: nat): string {
    if s == "" || |Encoded(s[0])| > room then "" else [s[0]] + Fit(s[1..], room - |Encoded(s[0])|)
  }

  /** The concatenation of the lossy decodings of the chunks. */
  function LossyAll(chunks: seq<seq<Byte>>): string {
    if chunks == [] then "" else Lossy(chunks[0]) + LossyAll(chunks[1..])
  }

  /** The leading well-formed characters and the bytes from the first ill-formed piece. */
  function Run(b: seq<Byte>): (r: (string, seq<Byte>))
    ensures |r.1| <= |b|
    ensures r.1 != [] ==> First(r.1).Invalid?
  {
    if b == [] || First(b).Invalid? then ("", b)
    else
      var f := First(b);
      var (s, rest) := Run(b[f.width..]);
      ([f.c] + s, rest)
  }

  lemma {:induction false} RunSplits(b: seq<Byte>)
    ensures b == Encode(Run(b).0) + Run(b).1
    ensures Lossy(b) == Run(b).0 + Lossy(Run(b).1)
    decreases |b|
  {
    hide First, Encoded;
    if b == [] || First(b).Invalid? {
      assert "" + Lossy(b) == Lossy(b);
      assert Encode("") + b == b;
    } else {
      var f := First(b);
      var tail := b[f.width..];
      FirstIsEncoded(b);
      RunSplits(tail);
      var (s, rest) := Run(tail);
      EncodeCons(f.c, s);
      hide Encode, Lossy;
      Assoc(Encoded(f.c), Encode(s), rest);
      assert b == b[..f.width] + tail;
      LossyStep(b);
      Assoc([f.c], s, Lossy(rest));
    }
  }

  lemma LossyStep(b: seq<Byte>)
    requires b != [] && First(b).Valid?
    ensures Lossy(b) == [First(b).c] + Lossy(b[First(b).width..])
  {
  }

  lemma Assoc<T>(a: seq<T>, b: seq<T>, c: seq<T>)
    ensures a + b + c == a + (b + c)
  {
  }

  // ------------------------------------------------------------ what fits, exactly

  lemma {:induction false} FitExact(s: string, room: nat)
    ensures Fit(s, room) <= s && |Encode(Fit(s, room))| <= room
    ensures Fit(s, room) == s <==> |Encode(s)| <= room
  {
    hide Encoded;
    if s != "" {
      var n := |Encoded(s[0])|;
      if n <= room {
        FitExact(s[1..], room - n);
        assert ([s[0]] + Fit(s[1..], room - n))[1..] == Fit(s[1..], room - n);
        assert s == [s[0]] + s[1..];
      }
    }
  }

  /** No longer prefix fits. */
  lemma {:induction false} FitLongest(s: string, room: nat, j: nat)
    requires j <= |s| && |Encode(s[..j])| <= room
    ensures j <= |Fit(s, room)|
  {
    hide Encoded;
    if j > 0 {
      assert s[..j][1..] == s[1..][..j - 1] && s[..j][0] == s[0];
      FitLongest(s[1..], room - |Encoded(s[0])|, j - 1);
    }
  }

  lemma FitCons(c: char, s: string, room: nat)
    ensures Fit([c] + s, room) == if |Encoded(c)| <= room then [c] + Fit(s, room - |Encoded(c)|) else ""
  {
    assert ([c] + s)[1..] == s;
  }

  lemma {:induction false} FitAppend(s: string, t: string, room: nat)
    ensures Fit(s + t, room) == if |Encode(s)| <= room then s + Fit(t, room - |Encode(s)|) else Fit(s, room)
  {
    if s == "" {
      assert s + t == t && "" + Fit(t, room) == Fit(t, room);
    } else {
      hide Encoded, Encode, Fit;
      var c, r := s[0], s[1..];
      assert s == [c] + r;
      Assoc([c], r, t);
      EncodeCons(c, r);
      FitCons(c, r + t, room);
      FitCons(c, r, room);
      if |Encoded(c)| <= room {
        FitAppend(r, t, room - |Encoded(c)|);
        if |Encode(s)| <= room {
          Assoc([c], r, Fit(t, room - |Encode(s)|));
        }
      }
    }
  }

  lemma {:induction false} PrefixLength(s: string, i: nat, j: nat)
    requires i <= j <= |s|
    ensures |Encode(s[..i])| <= |Encode(s[..j])| <= |Encode(s)|
  {
    hide Encoded;
    assert s[..j] == s[..i] + s[i..j] && s == s[..j] + s[j..];
    EncodeAppend(s[..i], s[i..j]);
    EncodeAppend(s[..j], s[j..]);
  }

  // -------------------------------------------------------------- character boundaries

  /** `is_char_boundary` for an index within the text. */
  predicate Boundary(b: seq<Byte>, k: nat) {
    k == 0 || k >= |b| || !Continuation(b[k])
  }

  predicate EndsAt(s: string, k: nat, j: nat) {
    j <= |s| && k == |Encode(s[..j])|
  }

  /** A boundary inside encoded text ends a whole number of characters. */
  lemma {:induction false} BoundaryEnds(s: string, k: nat) returns (j: nat)
    requires k <= |Encode(s)| && Boundary(Encode(s), k)
    ensures EndsAt(s, k, j)
  {
    hide Continuation;
    if k == 0 {
      j := 0;
    } else {
      var n := |Encoded(s[0])|;
      var rest := Encode(s[1..]);
      assert forall i :: 1 <= i < n ==> Encode(s)[i] == Encoded(s[0])[i];
      BoundaryInside(s[0], rest, k);
      var i := BoundaryEnds(s[1..], k - n);
      j := i + 1;
      assert s[..j][1..] == s[1..][..i] && s[..j][0] == s[0];
    }
  }

  lemma BoundaryInside(c: char, rest: seq<Byte>, k: nat)
    requires |Encoded(c)| <= k <= |Encoded(c) + rest| && Boundary(Encoded(c) + rest, k)
    ensures Boundary(rest, k - |Encoded(c)|)
  {
    var b := Encoded(c) + rest;
    if |Encoded(c)| < k < |b| {
      assert b[k] == rest[k - |Encoded(c)|];
    }
  }

  lemma {:induction false} FitEndsAtBoundary(s: string, room: nat)
    ensures Boundary(Encode(s), |Encode(Fit(s, room))|)
  {
    FitExact(s, room);
    var f := Fit(s, room);
    var t := s[|f|..];
    assert s == f + t;
    EncodeAppend(f, t);
    if t != "" {
      assert Encode(s)[|Encode(f)|] == Encode(t)[0] == Encoded(t[0])[0];
    }
  }

  /** The back-up loop: from the byte limit down to a boundary. */
  method TruncatedLength(valid: seq<Byte>, ghost s: string, room: nat) returns (end: nat)
    requires valid == Encode(s)
    ensures end == |Encode(Fit(s, room))| <= |valid|
    ensures valid[..end] == Encode(Fit(s, room))
  {
    hide Encode, Fit, Encoded;
    FitExact(s, room);
    FitEndsAtBoundary(s, room);
    FitPrefix(s, room);
    end := if |valid| < room then |valid| else room;
    while end < |valid| && end > 0 && Continuation(valid[end])
      invariant |Encode(Fit(s, room))| <= end <= |valid| && end <= room
      decreases end
    {
      end := end - 1;
    }
    var j := BoundaryEnds(s, end);
    FitLongest(s, room, j);
    FitLength(s, room, j);
  }

  lemma FitPrefix(s: string, room: nat)
    ensures |Encode(Fit(s, room))| <= |Encode(s)| && Encode(s)[..|Encode(Fit(s, room))|] == Encode(Fit(s, room))
  {
    FitExact(s, room);
    var f := Fit(s, room);
    assert s == f + s[|f|..];
    EncodeAppend(f, s[|f|..]);
  }

  lemma FitLength(s: string, room: nat, j: nat)
    requires j <= |Fit(s, room)|
    ensures j <= |s| && |Encode(s[..j])| <= |Encode(Fit(s, room))|
  {
    FitExact(s, room);
    var f := Fit(s, room);
    assert s[..|f|] == f;
    PrefixLength(s, j, |f|);
  }

  // ------------------------------------------------------------------ one more piece

  /** A piece that does not fit entirely ends the text. */
  lemma PieceRefused(whole: string, done: string, piece: string, tail: string, room: nat, remaining: nat)
    requires whole == done + (piece + tail)
    requires |Encode(done)| + remaining == room && |Encode(piece)| > remaining
    ensures Encode(Fit(whole, room)) == Encode(done) + Encode(Fit(piece, remaining))
    ensures |Encode(whole)| > room
  {
    hide Encode, Fit;
    FitAppend(done, piece + tail, room);
    FitAppend(piece, tail, remaining);
    EncodeAppend(done, Fit(piece, remaining));
    EncodeAppend(done, piece + tail);
    EncodeAppend(piece, tail);
  }

  lemma PieceTaken(whole: string, done: string, piece: string, tail: string)
    requires whole == done + (piece + tail)
    ensures whole == (done + piece) + tail
    ensures Encode(done + piece) == Encode(done) + Encode(piece)
  {
    Assoc(done, piece, tail);
    EncodeAppend(done, piece);
  }

  lemma InvalidStep(b: seq<Byte>)
    requires b != [] && First(b).Invalid?
    ensures Lossy(b) == [REPLACEMENT] + Lossy(b[First(b).width..])
    ensures Encode([REPLACEMENT]) == [0xEF, 0xBF, 0xBD]
    ensures forall room: nat :: room < 3 ==> Fit([REPLACEMENT], room) == ""
  {
    EncodeCons(REPLACEMENT, "");
    assert [REPLACEMENT] + "" == [REPLACEMENT];
    assert Encoded(REPLACEMENT) == [0xEF, 0xBF, 0xBD];
  }

  lemma EmptyText()
    ensures Lossy([]) == "" && Encode("") == []
    ensures forall room: nat :: Fit("", room) == ""
  {
  }

  /** A nonempty chunk decodes to something, so that nothing of it fits into no room. */
  lemma NothingFits(chunk: seq<Byte>)
    requires chunk != []
    ensures Fit(Lossy(chunk), 0) == "" && |Encode(Lossy(chunk))| > 0
  {
    hide First;
    assert Lossy(chunk) != "";
  }

  // ----------------------------------------------------------------------- the buffer

  /** The text that a snapshot read accumulates. */
  class Buffer {
    var text: seq<Byte>

    constructor ()
      ensures text == []
    {
      text := [];
    }

    /** `append_stream_chunk_bounded`: exactly the longest prefix of whole characters of
        the chunk's lossy decoding that fits is appended, and the answer says whether that
        is all of it. */
    method AppendChunk(chunk: seq<Byte>, maxBytes: nat) returns (ok: bool)
      modifies this
      ensures |old(text)| > maxBytes ==> !ok && text == old(text)
      ensures |old(text)| <= maxBytes ==> text == old(text) + Encode(Fit(Lossy(chunk), maxBytes - |old(text)|))
      ensures |old(text)| <= maxBytes ==> (ok <==> |Encode(Lossy(chunk))| <= maxBytes - |old(text)|)
    {
      hide Encode, Fit, Lossy, First, Encoded, Run;
      if |text| > maxBytes {
        return false;
      }
      EmptyText();
      var remaining: nat := maxBytes - |text|;
      ghost var room: nat, whole, done := remaining, Lossy(chunk), "";
      if chunk == [] {
        return true;
      }
      if remaining == 0 {
        NothingFits(chunk);
        return false;
      }
      var rest := chunk;
      while rest != []
        invariant whole == done + Lossy(rest)
        invariant text == old(text) + Encode(done) && |Encode(done)| + remaining == room
        decreases |rest|
      {
        RunSplits(rest);
        ghost var run := Run(rest).0;
        var after := Run(rest).1;
        var valid := rest[..|rest| - |after|];
        var validEnd := TruncatedLength(valid, run, remaining);
        FitExact(run, remaining);
        text := text + valid[..validEnd];
        if validEnd != |valid| {
          PieceRefused(whole, done, run, Lossy(after), room, remaining);
          return false;
        }
        PieceTaken(whole, done, run, Lossy(after));
        done := done + run;
        remaining := remaining - validEnd;
        if after != [] {
          var w := First(after).width;
          InvalidStep(after);
          if remaining < 3 {
            PieceRefused(whole, done, [REPLACEMENT], Lossy(after[w..]), room, remaining);
            return false;
          }
          PieceTaken(whole, done, [REPLACEMENT], Lossy(after[w..]));
          done := done + [REPLACEMENT];
          text := text + [0xEF, 0xBF, 0xBD];
          remaining := remaining - 3;
          after := after[w..];
        }
        rest := after;
      }
      assert whole == done by {
        assert done + "" == done;
      }
      FitExact(whole, room);
      return true;
    }

    /** The snapshot loop, over the chunks that arrive: the text is exactly the longest
        prefix of whole characters of all lossy decodings together within the limit. */
    method ReadChunks(chunks: seq<seq<Byte>>, maxBytes: nat)
      modifies this
      requires text == []
      ensures text == Encode(Fit(LossyAll(chunks), maxBytes))
    {
      hide Encode, Fit, Lossy, Encoded;
      EmptyText();
      ghost var done := "";
      var i := 0;
      while i < |chunks|
        invariant i <= |chunks|
        invariant text == Encode(done) && |text| <= maxBytes
        invariant LossyAll(chunks) == done + LossyAll(chunks[i..])
      {
        if |text| >= maxBytes {
          break;
        }
        ghost var piece, room := Lossy(chunks[i]), maxBytes - |text|;
        assert chunks[i..][1..] == chunks[i + 1..];
        var ok := AppendChunk(chunks[i], maxBytes);
        FitExact(piece, room);
        if !ok {
          PieceRefused(LossyAll(chunks), done, piece, LossyAll(chunks[i + 1..]), maxBytes, room);
          return;
        }
        PieceTaken(LossyAll(chunks), done, piece, LossyAll(chunks[i + 1..]));
        done := done + piece;
        i := i + 1;
      }
      FitAppend(done, LossyAll(chunks[i..]), maxBytes);
      if i < |chunks| {
        NoRoom(LossyAll(chunks[i..]));
      } else {
        assert chunks[i..] == [];
      }
      assert done + "" == done;
    }
  }

  lemma NoRoom(s: string)
    ensures Fit(s, 0) == ""
  {
  }

  /** The accumulated text is within the limit, well-formed, a prefix of the concatenated
      lossy decodings, and all of them exactly when they fit. */
  lemma StreamTextExact(chunks: seq<seq<Byte>>, maxBytes: nat)
    ensures var text := Encode(Fit(LossyAll(chunks), maxBytes));
            && |text| <= maxBytes
            && Decode(text) == Some(Fit(LossyAll(chunks), maxBytes))
            && text <= Encode(LossyAll(chunks))
            && (text == Encode(LossyAll(chunks)) <==> |Encode(LossyAll(chunks))| <= maxBytes)
  {
    hide Encode, Fit, Decode;
    var s := LossyAll(chunks);
    FitExact(s, maxBytes);
    FitPrefix(s, maxBytes);
    DecodeEncode(Fit(s, maxBytes));
    DecodeEncode(s);
  }
}
