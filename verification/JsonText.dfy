/** The JSON text that the bridge writes, against the string and object grammar of
    RFC 8259. A byte string is a `string` whose characters are its bytes. */
module JsonText {
  import opened Totals
  import opened BridgeTokens

  const QUOTE := '"'
  const BACKSLASH := '\\'

  /** Bytes that stand for themselves inside a JSON string. */
  predicate Plain(c: char) {
    c >= ' ' && c != QUOTE && c != BACKSLASH
  }

  // ---------------------------------------------------------------- escaping

  function EscapeByte(c: char): (r: string)
    ensures 1 <= |r|
  {
    if c == BACKSLASH then [BACKSLASH, BACKSLASH]
    else if c == QUOTE then [BACKSLASH, QUOTE]
    else if c as int == 8 then [BACKSLASH, 'b']
    else if c as int == 12 then [BACKSLASH, 'f']
    else if c == '\n' then [BACKSLASH, 'n']
    else if c == '\r' then [BACKSLASH, 'r']
    else if c == '\t' then [BACKSLASH, 't']
    else if c < ' ' then [BACKSLASH, 'u', '0', '0', HEX_DIGITS[c as int / 16 % 16], HEX_DIGITS[c as int % 16]]
    else [c]
  }

  function Escaped(s: string): string {
    if s == "" then "" else EscapeByte(s[0]) + Escaped(s[1..])
  }

  lemma {:induction false} EscapedAppend(s: string, t: string)
    ensures Escaped(s + t) == Escaped(s) + Escaped(t)
  {
    if s == "" {
      assert s + t == t;
    } else {
      assert (s + t)[1..] == s[1..] + t;
      EscapedAppend(s[1..], t);
    }
  }

  lemma EscapedSnoc(s: string, c: char)
    ensures Escaped(s + [c]) == Escaped(s) + EscapeByte(c)
  {
    EscapedAppend(s, [c]);
    assert Escaped([c]) == EscapeByte(c);
  }

  /** `jsonEscape`: a loop that appends to the result. */
  method JsonEscape(value: string) returns (escaped: string)
    ensures escaped == Escaped(value)
  {
    hide Escaped, EscapeByte;
    escaped := "";
    assert Escaped("") == "" by {
      EmptyEscaped();
    }
    for i := 0 to |value|
      invariant escaped == Escaped(value[..i])
    {
      assert value[..i + 1] == value[..i] + [value[i]];
      EscapedSnoc(value[..i], value[i]);
      var piece := EscapePiece(value[i]);
      escaped := escaped + piece;
    }
    assert value[..|value|] == value;
  }

  lemma EmptyEscaped()
    ensures Escaped("") == ""
  {
  }

  /** The `switch` of the loop. */
  method EscapePiece(c: char) returns (piece: string)
    ensures piece == EscapeByte(c)
  {
    if c == BACKSLASH {
      piece := [BACKSLASH, BACKSLASH];
    } else if c == QUOTE {
      piece := [BACKSLASH, QUOTE];
    } else if c as int == 8 {
      piece := [BACKSLASH, 'b'];
    } else if c as int == 12 {
      piece := [BACKSLASH, 'f'];
    } else if c == '\n' {
      piece := [BACKSLASH, 'n'];
    } else if c == '\r' {
      piece := [BACKSLASH, 'r'];
    } else if c == '\t' {
      piece := [BACKSLASH, 't'];
    } else if c < ' ' {
      piece := [BACKSLASH, 'u', '0', '0'];
      piece := piece + [HEX_DIGITS[c as int / 16 % 16]];
      piece := piece + [HEX_DIGITS[c as int % 16]];
    } else {
      piece := [c];
    }
  }

  /** No quote that would end the string and no control byte: every backslash takes the
      byte after it along, and every other byte stands for itself. */
  predicate NothingBare(s: string) {
    if s == "" then true
    else if s[0] == BACKSLASH then |s| >= 2 && s[1] >= ' ' && NothingBare(s[2..])
    else Plain(s[0]) && NothingBare(s[1..])
  }

  lemma {:induction false} EscapedHasNothingBare(s: string)
    ensures NothingBare(Escaped(s))
    ensures forall i :: 0 <= i < |Escaped(s)| ==> Escaped(s)[i] >= ' '
  {
    hide EscapeByte, NothingBare;
    if s == "" {
      NothingInEmpty();
    } else {
      EscapedHasNothingBare(s[1..]);
      PieceNotBare(s[0], Escaped(s[1..]));
    }
  }

  lemma NothingInEmpty()
    ensures NothingBare("")
  {
  }

  lemma PieceNotBare(c: char, rest: string)
    requires NothingBare(rest)
    ensures NothingBare(EscapeByte(c) + rest)
    ensures forall i :: 0 <= i < |EscapeByte(c)| ==> EscapeByte(c)[i] >= ' '
  {
    var head := EscapeByte(c);
    if |head| == 6 {
      assert (head + rest)[2..] == head[2..] + rest;
      PlainPrefix(head[2..], rest);
    } else if |head| == 2 {
      assert (head + rest)[2..] == rest;
    } else {
      PlainPrefix(head, rest);
    }
  }

  lemma {:induction false} PlainPrefix(p: string, s: string)
    requires (forall i :: 0 <= i < |p| ==> Plain(p[i])) && NothingBare(s)
    ensures NothingBare(p + s)
  {
    if p == "" {
      assert p + s == s;
    } else {
      PlainPrefix(p[1..], s);
      assert (p + s)[1..] == p[1..] + s;
    }
  }

  // ---------------------------------------------------------------- decoding

  /** The code unit of four hexadecimal digits. */
  function CodeUnit(s: string): Option<nat> {
    if |s| >= 4 && IsHex(s[0]) && IsHex(s[1]) && IsHex(s[2]) && IsHex(s[3])
    then Some(DigitValue(s[0]) * 4096 + DigitValue(s[1]) * 256 + DigitValue(s[2]) * 16 + DigitValue(s[3]))
    else None
  }

  /** UTF-8 as a byte string. */
  function Utf8(p: nat): string
    requires p < 0x11_0000
  {
    if p < 0x80 then [p as char]
    else if p < 0x800 then [(0xC0 + p / 64) as char, (0x80 + p % 64) as char]
    else if p < 0x1_0000 then [(0xE0 + p / 4096) as char, (0x80 + p / 64 % 64) as char, (0x80 + p % 64) as char]
    else [(0xF0 + p / 262144) as char, (0x80 + p / 4096 % 64) as char, (0x80 + p / 64 % 64) as char, (0x80 + p % 64) as char]
  }

  function Escape1(c: char): Option<string> {
    if c == QUOTE || c == BACKSLASH || c == '/' then Some([c])
    else if c == 'b' then Some([8 as char])
    else if c == 'f' then Some([12 as char])
    else if c == 'n' then Some("\n")
    else if c == 'r' then Some("\r")
    else if c == 't' then Some("\t")
    else None
  }

  /** One escape sequence, after its backslash: the text it stands for and its length. */
  function Escape(s: string): (r: Option<(string, nat)>)
    ensures r.Some? ==> 1 <= r.value.1 <= |s|
  {
    if s == "" then None
    else if s[0] != 'u' then
      match Escape1(s[0]) case None => None case Some(t) => Some((t, 1))
    else
      match CodeUnit(s[1..])
      case None => None
      case Some(u) =>
        if u < 0xD800 || 0xE000 <= u then Some((Utf8(u), 5))
        else if u < 0xDC00 && |s| >= 11 && s[5] == BACKSLASH && s[6] == 'u' then
          match CodeUnit(s[7..])
          case Some(w) =>
            if 0xDC00 <= w < 0xE000 then Some((Utf8(0x1_0000 + (u - 0xD800) * 1024 + (w - 0xDC00)), 11)) else None
          case None => None
        else None
  }

  /** A JSON string from after its opening quote: the decoded text and the rest after
      the closing quote (section 7 of RFC 8259). */
  function DecodeString(s: string): (r: Option<(string, string)>)
    ensures r.Some? ==> |r.value.1| < |s|
    decreases |s|
  {
    if s == "" then None
    else if s[0] == QUOTE then Some(("", s[1..]))
    else if s[0] == BACKSLASH then
      match Escape(s[1..])
      case None => None
      case Some(e) => Prepend(e.0, DecodeString(s[1 + e.1..]))
    else if s[0] < ' ' then None
    else Prepend([s[0]], DecodeString(s[1..]))
  }

  function Prepend(t: string, r: Option<(string, string)>): Option<(string, string)> {
    match r case None => None case Some(p) => Some((t + p.0, p.1))
  }

  lemma EscapeByteDecodes(c: char, s: string)
    ensures DecodeString(EscapeByte(c) + s) == Prepend([c], DecodeString(s))
  {
    var head := EscapeByte(c);
    var t := head + s;
    if |head| == 1 {
      assert t[1..] == s;
    } else if |head| == 2 {
      assert t[2..] == s;
      assert t[1..][0] == head[1];
      assert Escape(t[1..]) == Some(([c], 1));
    } else {
      UnicodeDecodes(c, s);
    }
  }

  lemma UnicodeDecodes(c: char, s: string)
    requires c < ' '
    ensures var t := [BACKSLASH, 'u', '0', '0', HEX_DIGITS[c as int / 16 % 16], HEX_DIGITS[c as int % 16]] + s;
            DecodeString(t) == Prepend([c], DecodeString(s))
  {
    var digits := ['0', '0', HEX_DIGITS[c as int / 16 % 16], HEX_DIGITS[c as int % 16]];
    var t := [BACKSLASH, 'u'] + digits + s;
    assert t == [BACKSLASH, 'u', '0', '0', HEX_DIGITS[c as int / 16 % 16], HEX_DIGITS[c as int % 16]] + s;
    assert t[1..][1..] == digits + s && t[6..] == s;
    ControlUnit(c, s);
    assert Escape(t[1..]) == Some(([c], 5));
  }

  lemma ControlUnit(c: char, s: string)
    requires c < ' '
    ensures CodeUnit(['0', '0', HEX_DIGITS[c as int / 16 % 16], HEX_DIGITS[c as int % 16]] + s) == Some(c as nat)
  {
  }

  /** The decoder inverts the escaping on every byte string, whatever follows. */
  lemma {:induction false} DecodeInvertsEscape(s: string, rest: string)
    ensures DecodeString(Escaped(s) + [QUOTE] + rest) == Some((s, rest))
  {
    hide EscapeByte, DecodeString;
    if s == "" {
      DecodeEmpty(rest);
      assert Escaped(s) + [QUOTE] + rest == [QUOTE] + rest;
    } else {
      DecodeInvertsEscape(s[1..], rest);
      var tail := Escaped(s[1..]) + [QUOTE] + rest;
      assert Escaped(s) + [QUOTE] + rest == EscapeByte(s[0]) + tail;
      EscapeByteDecodes(s[0], tail);
      assert s == [s[0]] + s[1..];
    }
  }

  lemma DecodeEmpty(rest: string)
    ensures DecodeString([QUOTE] + rest) == Some(("", rest))
  {
    assert ([QUOTE] + rest)[1..] == rest;
  }

  // ------------------------------------------------- the values the bridge writes

  datatype Json = Null | Bool(value: bool) | Text(text: string) | Object(members: Members)

  datatype Members = End | Member(key: string, value: Json, rest: Members)

  function Quoted(s: string, k: string): string {
    [QUOTE] + (Escaped(s) + ([QUOTE] + k))
  }

  /** The compact JSON text of a value, followed by `k`. */
  function Print(v: Json, k: string): string
    decreases v, 0
  {
    match v
    case Null => "null" + k
    case Bool(b) => (if b then "true" else "false") + k
    case Text(t) => Quoted(t, k)
    case Object(m) => "{" + PrintMembers(m, "}" + k)
  }

  function PrintMembers(m: Members, k: string): string
    decreases m, 0
  {
    match m
    case End => k
    case Member(key, v, rest) => Quoted(key, ":" + Print(v, Next(rest, k)))
  }

  function Next(m: Members, k: string): string
    decreases m, 1
  {
    if m.End? then k else "," + PrintMembers(m, k)
  }

  /** A reader for this compact form: a value and the text after it. */
  function Read(s: string): (r: Option<(Json, string)>)
    ensures r.Some? ==> |r.value.1| < |s|
    decreases |s|, 1
  {
    if s == "" then None
    else if s[0] == QUOTE then
      match DecodeString(s[1..]) case None => None case Some(p) => Some((Text(p.0), p.1))
    else if s[0] == '{' then
      if |s| >= 2 && s[1] == '}' then Some((Object(End), s[2..]))
      else match ReadMembers(s[1..]) case None => None case Some(p) => Some((Object(p.0), p.1))
    else if |s| >= 4 && s[..4] == "null" then Some((Null, s[4..]))
    else if |s| >= 4 && s[..4] == "true" then Some((Bool(true), s[4..]))
    else if |s| >= 5 && s[..5] == "false" then Some((Bool(false), s[5..]))
    else None
  }

  /** One or more members and the closing brace. */
  function ReadMembers(s: string): (r: Option<(Members, string)>)
    ensures r.Some? ==> |r.value.1| < |s|
    decreases |s|, 0
  {
    if s == "" || s[0] != QUOTE then None
    else
      match DecodeString(s[1..])
      case None => None
      case Some(k) =>
        if k.1 == "" || k.1[0] != ':' then None
        else
          match Read(k.1[1..])
          case None => None
          case Some(v) =>
            if v.1 == "" then None
            else if v.1[0] == '}' then Some((Member(k.0, v.0, End), v.1[1..]))
            else if v.1[0] != ',' then None
            else
              match ReadMembers(v.1[1..])
              case None => None
              case Some(m) => Some((Member(k.0, v.0, m.0), m.1))
  }

  lemma ReadQuoted(t: string, k: string)
    ensures |Quoted(t, k)| > 0 && Quoted(t, k)[0] == QUOTE && DecodeString(Quoted(t, k)[1..]) == Some((t, k))
  {
    hide DecodeString;
    DecodeInvertsEscape(t, k);
    assert Quoted(t, k)[1..] == Escaped(t) + [QUOTE] + k;
  }

  lemma Tail(c: char, s: string)
    ensures ([c] + s)[0] == c && ([c] + s)[1..] == s
  {
  }

  lemma ReadConstant(v: Json, k: string)
    requires v.Null? || v.Bool?
    ensures Read(Print(v, k)) == Some((v, k))
  {
    hide DecodeString, ReadMembers;
    var word := if v.Null? then "null" else if v.value then "true" else "false";
    var s := word + k;
    assert s[..|word|] == word && s[|word|..] == k;
    assert s[0] == word[0] && s[1] == word[1];
  }

  /** Reading undoes printing, whatever follows. */
  lemma {:induction false} ReadPrint(v: Json, k: string)
    ensures Read(Print(v, k)) == Some((v, k))
    decreases v
  {
    hide DecodeString, Quoted, ReadMembers, PrintMembers;
    match v
    case Null => ReadConstant(v, k);
    case Bool(_) => ReadConstant(v, k);
    case Text(t) => ReadQuoted(t, k);
    case Object(m) =>
      var s := PrintMembers(m, "}" + k);
      Tail('{', s);
      Tail('}', k);
      if m.End? {
        PrintNone("}" + k);
        assert ("{" + s)[2..] == k;
      } else {
        ReadPrintMembers(m, k);
        assert ("{" + s)[1] == s[0];
      }
  }

  lemma PrintNone(k: string)
    ensures PrintMembers(End, k) == k
  {
  }

  lemma {:induction false} ReadPrintMembers(m: Members, k: string)
    requires m.Member?
    ensures var s := PrintMembers(m, "}" + k); |s| > 0 && s[0] == QUOTE && ReadMembers(s) == Some((m, k))
    decreases m
  {
    hide DecodeString, Quoted, Read, Print;
    var more := Next(m.rest, "}" + k);
    ReadQuoted(m.key, ":" + Print(m.value, more));
    Tail(':', Print(m.value, more));
    ReadPrint(m.value, more);
    if m.rest.End? {
      Tail('}', k);
    } else {
      ReadPrintMembers(m.rest, k);
      Tail(',', PrintMembers(m.rest, "}" + k));
    }
  }

  // ---------------------------------------------------------------- responses

  const SCHEMA := "logos-inspector-async-bridge/v1"

  function JsonError(error: string): string {
    "{\"ok\":false,\"value\":null" + (",\"text\":\"\",\"error\":" + ("\"" + (Escaped(error) + "\"}")))
  }

  function JsonSuccess(valueJson: string): string {
    "{\"ok\":true,\"value\":" + (valueJson + ",\"text\":\"\",\"error\":\"\"}")
  }

  function PollValue(token: string, status: string, response: Option<string>): string {
    "{\"schema\":\"" + (SCHEMA + ("\",\"token\":\"" + (Escaped(token) + ("\",\"status\":\"" + (status + ("\""
    + (PollTail(response) + "}")))))))
  }

  function PollResponse(token: string, status: string, response: Option<string>): string {
    JsonSuccess(PollValue(token, status, response))
  }

  /** Text without anything to escape is its own escape. */
  lemma {:induction false} PlainEscaped(s: string)
    requires forall i :: 0 <= i < |s| ==> Plain(s[i])
    ensures Escaped(s) == s
  {
    if s != "" {
      PlainEscaped(s[1..]);
    }
  }

  /** Two pieces of fixed text in a row are one piece. */
  lemma Join(a: string, b: string, ab: string, k: string)
    requires a + b == ab
    ensures a + (b + k) == ab + k
  {
  }

  /** A member with a plain key, as one piece of fixed text before its value. */
  lemma Key(key: string, open: string, k: string)
    requires forall i :: 0 <= i < |key| ==> Plain(key[i])
    requires open == [QUOTE] + key + [QUOTE] + ":"
    ensures Quoted(key, ":" + k) == open + k
  {
    PlainEscaped(key);
  }

  function PollMembers(token: string, status: string, response: Option<string>): Members {
    Member("schema", Text(SCHEMA), Member("token", Text(token), Member("status", Text(status), PollEnd(response))))
  }

  function Envelope(value: Json): Json {
    Object(Member("ok", Bool(true), Member("value", value, Member("text", Text(""), Member("error", Text(""), End)))))
  }

  lemma {:induction false} PrintAppend(v: Json, k: string, more: string)
    ensures Print(v, k + more) == Print(v, k) + more
    decreases v
  {
    hide Escaped;
    match v
    case Null =>
    case Bool(_) =>
    case Text(t) => QuotedAppend(t, k, more);
    case Object(m) =>
      assert "}" + (k + more) == ("}" + k) + more;
      PrintMembersAppend(m, "}" + k, more);
  }

  lemma QuotedAppend(t: string, k: string, more: string)
    ensures Quoted(t, k + more) == Quoted(t, k) + more
  {
    hide Escaped;
  }

  lemma {:induction false} PrintMembersAppend(m: Members, k: string, more: string)
    ensures PrintMembers(m, k + more) == PrintMembers(m, k) + more
    decreases m
  {
    hide Quoted, Print;
    if m.Member? {
      var after := Next(m.rest, k);
      if !m.rest.End? {
        PrintMembersAppend(m.rest, k, more);
        assert "," + (PrintMembers(m.rest, k) + more) == after + more;
      }
      PrintAppend(m.value, after, more);
      assert ":" + (Print(m.value, after) + more) == (":" + Print(m.value, after)) + more;
      QuotedAppend(m.key, ":" + Print(m.value, after), more);
    }
  }

  lemma EnvelopeHead(k: string)
    ensures "{" + Quoted("ok", ":" + ("true" + ("," + Quoted("value", ":" + k)))) == "{\"ok\":true,\"value\":" + k
  {
    hide Quoted;
    Key("value", "\"value\":", k);
    Join(",", "\"value\":", ",\"value\":", k);
    Join("true", ",\"value\":", "true,\"value\":", k);
    Key("ok", "\"ok\":", "true,\"value\":" + k);
    Join("\"ok\":", "true,\"value\":", "\"ok\":true,\"value\":", k);
    Join("{", "\"ok\":true,\"value\":", "{\"ok\":true,\"value\":", k);
  }

  lemma EmptyText(k: string)
    ensures Quoted("", k) == "\"\"" + k
  {
  }

  lemma EnvelopeTail(text: string)
    ensures "," + Quoted("text", ":" + Quoted("", "," + Quoted("error", ":" + text))) == ",\"text\":\"\",\"error\":" + text
  {
    hide Quoted;
    Key("error", "\"error\":", text);
    Join(",", "\"error\":", ",\"error\":", text);
    EmptyText(",\"error\":" + text);
    Join("\"\"", ",\"error\":", "\"\",\"error\":", text);
    Key("text", "\"text\":", "\"\",\"error\":" + text);
    Join("\"text\":", "\"\",\"error\":", "\"text\":\"\",\"error\":", text);
    Join(",", "\"text\":\"\",\"error\":", ",\"text\":\"\",\"error\":", text);
  }

  lemma OneMember(key: string, v: Json, rest: Members, k: string)
    ensures PrintMembers(Member(key, v, rest), k) == Quoted(key, ":" + Print(v, Next(rest, k)))
  {
  }

  lemma ObjectText(m: Members)
    ensures Print(Object(m), "") == "{" + PrintMembers(m, "}")
  {
    assert "}" + "" == "}";
  }

  lemma SuccessPrints(value: Json)
    ensures JsonSuccess(Print(value, "")) == Print(Envelope(value), "")
  {
    hide Quoted, Escaped, PrintMembers;
    var m3 := Member("error", Text(""), End);
    var m2 := Member("text", Text(""), m3);
    var m1 := Member("value", value, m2);
    OneMember("error", Text(""), End, "}");
    OneMember("text", Text(""), m3, "}");
    OneMember("value", value, m2, "}");
    OneMember("ok", Bool(true), m1, "}");
    ObjectText(Member("ok", Bool(true), m1));
    var tail := ",\"text\":\"\",\"error\":\"\"}";
    EmptyText("}");
    EnvelopeTail("\"\"}");
    Join(",\"text\":\"\",\"error\":", "\"\"}", tail, "");
    assert "\"\"" + "}" == "\"\"}" == "\"\"}" + "" && tail + "" == tail;
    assert Next(m2, "}") == tail;
    PrintAppend(value, "", tail);
    assert "" + tail == tail;
    EnvelopeHead(Print(value, tail));
  }

  /** The text after the status of a poll response. */
  function PollTail(response: Option<string>): string {
    match response case None => "" case Some(r) => ",\"responseJson\":\"" + (Escaped(r) + "\"")
  }

  function PollEnd(response: Option<string>): Members {
    match response case None => End case Some(r) => Member("responseJson", Text(r), End)
  }

  /** A plain key after a string member, as fixed text. */
  lemma NextKey(key: string, open: string, whole: string, k: string)
    requires forall i :: 0 <= i < |key| ==> Plain(key[i])
    requires open == [QUOTE] + key + [QUOTE] + ":" && whole == "," + open + "\""
    ensures "," + Quoted(key, ":" + ([QUOTE] + k)) == whole + k
  {
    hide Quoted, Plain;
    Key(key, open, [QUOTE] + k);
    Join(open, "\"", open + "\"", k);
    Join(",", open + "\"", whole, k);
  }

  lemma ResponseKey(k: string)
    ensures "," + Quoted("responseJson", ":" + ([QUOTE] + k)) == ",\"responseJson\":\"" + k
  {
    hide Quoted;
    NextKey("responseJson", "\"responseJson\":", ",\"responseJson\":\"", k);
  }

  lemma PollTailPrints(response: Option<string>)
    ensures Next(PollEnd(response), "}") == PollTail(response) + "}"
  {
    if response.Some? {
      var r := response.value;
      ResponseTail(r);
      hide Escaped, PrintMembers, Quoted;
      TwoEnds(",\"responseJson\":\"", Escaped(r), "\"", "}");
    }
  }

  lemma ResponseTail(r: string)
    ensures "," + PrintMembers(Member("responseJson", Text(r), End), "}")
         == ",\"responseJson\":\"" + (Escaped(r) + ("\"" + "}"))
  {
    ResponseKey(Escaped(r) + ([QUOTE] + "}"));
    OneMember("responseJson", Text(r), End, "}");
    ShownText(r);
    hide Escaped, PrintMembers, Quoted, Print;
  }

  lemma ShownText(r: string)
    ensures Print(Text(r), Next(End, "}")) == [QUOTE] + (Escaped(r) + ([QUOTE] + "}"))
  {
  }

  lemma TwoEnds(a: string, b: string, c: string, d: string)
    ensures a + (b + (c + d)) == (a + (b + c)) + d
  {
  }

  lemma StatusKey(k: string)
    ensures [QUOTE] + ("," + Quoted("status", ":" + ([QUOTE] + k))) == "\",\"status\":\"" + k
  {
    hide Quoted;
    NextKey("status", "\"status\":", ",\"status\":\"", k);
    Join("\"", ",\"status\":\"", "\",\"status\":\"", k);
  }

  lemma TokenKey(k: string)
    ensures [QUOTE] + ("," + Quoted("token", ":" + ([QUOTE] + k))) == "\",\"token\":\"" + k
  {
    hide Quoted;
    NextKey("token", "\"token\":", ",\"token\":\"", k);
    Join("\"", ",\"token\":\"", "\",\"token\":\"", k);
  }

  lemma SchemaKey(k: string)
    ensures "{" + Quoted("schema", ":" + ([QUOTE] + k)) == "{\"schema\":\"" + k
  {
    hide Quoted;
    Key("schema", "\"schema\":", [QUOTE] + k);
    Join("\"schema\":", "\"", "\"schema\":\"", k);
    Join("{", "\"schema\":\"", "{\"schema\":\"", k);
  }

  /** A string member, spelled out. */
  lemma TextMember(key: string, text: string, rest: Members, k: string)
    ensures PrintMembers(Member(key, Text(text), rest), k)
         == Quoted(key, ":" + ([QUOTE] + (Escaped(text) + ([QUOTE] + Next(rest, k)))))
  {
  }

  function StatusPart(status: string, response: Option<string>): string {
    "\",\"status\":\"" + (status + ("\"" + (PollTail(response) + "}")))
  }

  function TokenPart(token: string, status: string, response: Option<string>): string {
    "\",\"token\":\"" + (Escaped(token) + StatusPart(status, response))
  }

  lemma StatusText(status: string, response: Option<string>)
    requires Escaped(status) == status
    ensures [QUOTE] + Next(Member("status", Text(status), PollEnd(response)), "}") == StatusPart(status, response)
  {
    PollTailPrints(response);
    hide Escaped, PrintMembers, Quoted, Print, PollTail, PollEnd;
    TextMember("status", status, PollEnd(response), "}");
    StatusKey(status + ("\"" + (PollTail(response) + "}")));
  }

  lemma TokenText(token: string, status: string, response: Option<string>)
    requires Escaped(status) == status
    ensures [QUOTE] + Next(Member("token", Text(token), Member("status", Text(status), PollEnd(response))), "}")
         == TokenPart(token, status, response)
  {
    hide Escaped, PrintMembers, Quoted, Print, PollTail, PollEnd, StatusPart;
    StatusText(status, response);
    TextMember("token", token, Member("status", Text(status), PollEnd(response)), "}");
    TokenKey(Escaped(token) + StatusPart(status, response));
  }

  lemma SchemaPlain()
    ensures Escaped(SCHEMA) == SCHEMA
  {
    PlainEscaped(SCHEMA);
  }

  lemma SchemaText(schema: string, rest: Members, k: string)
    requires Escaped(schema) == schema && [QUOTE] + Next(rest, "}") == k
    ensures Print(Object(Member("schema", Text(schema), rest)), "") == "{\"schema\":\"" + (schema + k)
  {
    hide Escaped, PrintMembers, Quoted, Print, Next;
    TextMember("schema", schema, rest, "}");
    ObjectText(Member("schema", Text(schema), rest));
    SchemaKey(schema + k);
  }

  lemma PollValuePrints(token: string, status: string, response: Option<string>)
    requires forall i :: 0 <= i < |status| ==> Plain(status[i])
    ensures Print(Object(PollMembers(token, status, response)), "") == PollValue(token, status, response)
  {
    hide Escaped, PrintMembers, Quoted, Print, PollTail, PollEnd, Plain, StatusPart, TokenPart, Next, PollValue;
    SchemaPlain();
    PlainEscaped(status);
    var mid := Member("token", Text(token), Member("status", Text(status), PollEnd(response)));
    TokenText(token, status, response);
    SchemaText(SCHEMA, mid, TokenPart(token, status, response));
    PollParts(token, status, response);
  }

  lemma PollParts(token: string, status: string, response: Option<string>)
    ensures PollValue(token, status, response) == "{\"schema\":\"" + (SCHEMA + TokenPart(token, status, response))
  {
    hide Escaped, PollTail;
  }

  /** A reader of the polled text recovers the token, the status and the retained response
      exactly, for every response byte string. */
  lemma PollRecovered(token: string, status: string, response: Option<string>)
    requires forall i :: 0 <= i < |status| ==> Plain(status[i])
    ensures Read(PollResponse(token, status, response))
         == Some((Envelope(Object(PollMembers(token, status, response))), ""))
  {
    hide Read, Print, Plain;
    var value := Object(PollMembers(token, status, response));
    PollValuePrints(token, status, response);
    SuccessPrints(value);
    ReadPrint(Envelope(value), "");
  }

  function ErrorValue(error: string): Json {
    Object(Member("ok", Bool(false), Member("value", Null, Member("text", Text(""), Member("error", Text(error), End)))))
  }

  lemma NullValue(k: string)
    ensures "," + Quoted("value", ":" + ("null" + k)) == ",\"value\":null" + k
  {
    hide Quoted;
    Key("value", "\"value\":", "null" + k);
    Join("\"value\":", "null", "\"value\":null", k);
    Join(",", "\"value\":null", ",\"value\":null", k);
  }

  lemma ErrorHead(k: string)
    ensures "{" + Quoted("ok", ":" + ("false" + ("," + Quoted("value", ":" + ("null" + k))))) == "{\"ok\":false,\"value\":null" + k
  {
    hide Quoted;
    NullValue(k);
    Key("ok", "\"ok\":", "false" + (",\"value\":null" + k));
    Join("\"ok\":", "false", "\"ok\":false", ",\"value\":null" + k);
    Join("{", "\"ok\":false", "{\"ok\":false", ",\"value\":null" + k);
    Join("{\"ok\":false", ",\"value\":null", "{\"ok\":false,\"value\":null", k);
  }

  lemma ErrorPrints(error: string)
    ensures JsonError(error) == Print(ErrorValue(error), "")
  {
    hide Quoted, Escaped, PrintMembers;
    var m3 := Member("error", Text(error), End);
    var m2 := Member("text", Text(""), m3);
    var m1 := Member("value", Null, m2);
    OneMember("error", Text(error), End, "}");
    OneMember("text", Text(""), m3, "}");
    OneMember("value", Null, m2, "}");
    OneMember("ok", Bool(false), m1, "}");
    ObjectText(Member("ok", Bool(false), m1));
    QuotedIs(error);
    EnvelopeTail(Quoted(error, "}"));
    ErrorHead(Next(m2, "}"));
  }

  lemma QuotedIs(s: string)
    ensures Quoted(s, "}") == "\"" + (Escaped(s) + "\"}")
  {
    assert [QUOTE] + "}" == "\"}";
  }

  /** An error response reads as a failure with exactly the given message. */
  lemma ErrorRecovered(error: string)
    ensures Read(JsonError(error)) == Some((ErrorValue(error), ""))
  {
    hide Read, Print;
    ErrorPrints(error);
    ReadPrint(ErrorValue(error), "");
  }
}
