/** Events as they go over the status socket (event.h): JSON string escaping, the event object, and newline framing. A char
    stands for one byte. */
module JsonEvent {
  import opened Wrappers
  import opened Decimal

  const BACKSPACE: char := 8 as char
  const FORM_FEED: char := 12 as char

  function HexDigit(d: nat): (c: char)
    requires d < 16
  {
    if d < 10 then DigitChar(d) else (d - 10 + 'a' as int) as char
  }

  /** std::hex with width 4 and fill '0'. */
  function Hex4(n: nat): (h: string)
    requires n < 0x10000
    ensures |h| == 4
  {
    [HexDigit(n / 4096), HexDigit(n / 256 % 16), HexDigit(n / 16 % 16), HexDigit(n % 16)]
  }

  function EscapeChar(c: char): string {
    if c == '"' then "\\\""
    else if c == '\\' then "\\\\"
    else if c == BACKSPACE then "\\b"
    else if c == FORM_FEED then "\\f"
    else if c == '\n' then "\\n"
    else if c == '\r' then "\\r"
    else if c == '\t' then "\\t"
    else if c < ' ' then "\\u" + Hex4(c as int)
    else [c]
  }

  function EscapeBody(s: string): string {
    if s == [] then [] else EscapeBody(s[..|s| - 1]) + EscapeChar(s[|s| - 1])
  }

  function Escape(s: string): string {
    "\"" + EscapeBody(s) + "\""
  }

  method JsonEscape(s: string) returns (r: string)
    ensures r == Escape(s)
  {
    hide EscapeChar;
    r := "\"";
    for i := 0 to |s|
      invariant r == "\"" + EscapeBody(s[..i])
    {
      assert s[..i + 1][..i] == s[..i];
      r := r + EscapeChar(s[i]);
    }
    assert s[..|s|] == s;
    r := r + "\"";
  }

  // ----- decoding, section 7 of RFC 8259 -----

  function HexValue(c: char): Option<nat> {
    if '0' <= c <= '9' then Some(c as int - '0' as int)
    else if 'a' <= c <= 'f' then Some(c as int - 'a' as int + 10)
    else if 'A' <= c <= 'F' then Some(c as int - 'A' as int + 10)
    else None
  }

  function HexValues(s: string): Option<nat>
    requires |s| == 4
  {
    match (HexValue(s[0]), HexValue(s[1]), HexValue(s[2]), HexValue(s[3]))
    case (Some(a), Some(b), Some(c), Some(d)) => Some(((a * 16 + b) * 16 + c) * 16 + d)
    case _ => None
  }

  /** The UTF-8 bytes of a code unit that is not half of a surrogate pair. */
  function Utf8(n: nat): Option<string> {
    if n < 0x80 then Some([n as char])
    else if n < 0x800 then Some([(0xC0 + n / 64) as char, (0x80 + n % 64) as char])
    else if 0xD800 <= n < 0xE000 || n >= 0x10000 then None
    else Some([(0xE0 + n / 4096) as char, (0x80 + n / 64 % 64) as char, (0x80 + n % 64) as char])
  }

  /** One character or escape: the bytes it stands for and how many characters it takes. */
  function DecodeOne(s: string): Option<(string, nat)>
    requires s != [] && s[0] != '"'
  {
    if s[0] < ' ' then None
    else if s[0] != '\\' then Some(([s[0]], 1))
    else if |s| < 2 then None
    else
      match s[1]
      case '"' => Some(("\"", 2))
      case '\\' => Some(("\\", 2))
      case '/' => Some(("/", 2))
      case 'b' => Some(([BACKSPACE], 2))
      case 'f' => Some(([FORM_FEED], 2))
      case 'n' => Some(("\n", 2))
      case 'r' => Some(("\r", 2))
      case 't' => Some(("\t", 2))
      case 'u' =>
        if |s| < 6 then None
        else (match HexValues(s[2..6])
              case None => None
              case Some(n) => match Utf8(n) case None => None case Some(bytes) => Some((bytes, 6)))
      case _ => None
  }

  /** The text up to the closing quote, and what follows it. */
  function DecodeBody(s: string): Option<(string, string)>
    decreases |s|
  {
    if s == [] then None
    else if s[0] == '"' then Some(([], s[1..]))
    else
      match DecodeOne(s)
      case None => None
      case Some((bytes, taken)) =>
        match DecodeBody(s[taken..])
        case None => None
        case Some((text, rest)) => Some((bytes + text, rest))
  }

  function DecodeString(s: string): Option<(string, string)> {
    if s == [] || s[0] != '"' then None else DecodeBody(s[1..])
  }

  lemma DecodeEscapedChar(c: char, rest: string)
    ensures var e := EscapeChar(c);
            e != [] && e[0] != '"' && DecodeOne(e + rest) == Some(([c], |e|))
  {
    hide HexValues, Hex4;
    var e := EscapeChar(c);
    if |e| == 6 {
      EscapeSlice(c, rest);
      HexBack(c as int);
    }
  }

  lemma EscapeSlice(c: char, rest: string)
    requires |EscapeChar(c)| == 6
    ensures (EscapeChar(c) + rest)[2..6] == Hex4(c as int)
  {
    hide Hex4;
    assert EscapeChar(c)[2..6] == Hex4(c as int);
  }

  lemma HexBack(n: nat)
    requires n < 32
    ensures HexValues(Hex4(n)) == Some(n)
  {
  }

  lemma {:induction false} EscapeCons(c: char, s: string)
    ensures EscapeBody([c] + s) == EscapeChar(c) + EscapeBody(s)
  {
    hide EscapeChar;
    if s == [] {
      assert [c] + s == [c];
      assert [c][..0] == [];
    } else {
      var n := |s| - 1;
      EscapeCons(c, s[..n]);
      assert ([c] + s)[..n + 1] == [c] + s[..n];
    }
  }

  lemma {:induction false} DecodeEscapedBody(s: string, rest: string)
    ensures DecodeBody(EscapeBody(s) + "\"" + rest) == Some((s, rest))
    decreases |s|
  {
    hide EscapeChar, DecodeOne;
    if s == [] {
      assert EscapeBody(s) + "\"" + rest == "\"" + rest;
    } else {
      var e := EscapeChar(s[0]);
      var tail := EscapeBody(s[1..]) + "\"" + rest;
      EscapeCons(s[0], s[1..]);
      assert s == [s[0]] + s[1..];
      DecodeEscapedBody(s[1..], rest);
      DecodeEscapedChar(s[0], tail);
      assert EscapeBody(s) + "\"" + rest == e + tail;
      assert (e + tail)[|e|..] == tail;
    }
  }

  /** Decoding an escaped string, whatever follows it, gives the string back: in particular its closing quote is the first
      unescaped one. */
  lemma EscapeRoundTrip(s: string, rest: string)
    ensures DecodeString(Escape(s) + rest) == Some((s, rest))
  {
    DecodeEscapedBody(s, rest);
    assert (Escape(s) + rest)[1..] == EscapeBody(s) + "\"" + rest;
  }

  /** How each character is written: seven of them with a short escape, the other control characters with four lower-case
      hexadecimal digits, and every other as it is. */
  lemma EscapeForm(c: char)
    ensures var e := EscapeChar(c);
            if c == '"' || c == '\\' || 8 <= c as int <= 10 || 12 <= c as int <= 13 then |e| == 2 && e[0] == '\\'
            else if c < ' ' then e == "\\u00" + [if c as int < 16 then '0' else '1'] + ["0123456789abcdef"[c as int % 16]]
            else e == [c]
  {
    if c < ' ' {
      HexLow(c as int);
    }
    hide Hex4;
  }

  lemma HexLow(n: nat)
    requires n < 32
    ensures Hex4(n) == "00" + [if n < 16 then '0' else '1'] + ["0123456789abcdef"[n % 16]]
  {
    LowDigit(n % 16);
    hide HexDigit;
    assert HexDigit(0) == '0' && HexDigit(1) == '1' by {
      LowDigit(0);
      LowDigit(1);
    }
  }

  lemma LowDigit(d: nat)
    requires d < 16
    ensures HexDigit(d) == "0123456789abcdef"[d]
  {
  }

  lemma EscapeCharIsClean(c: char)
    ensures forall i :: 0 <= i < |EscapeChar(c)| ==> EscapeChar(c)[i] >= ' '
  {
  }

  lemma {:induction false} EscapeBodyIsClean(s: string)
    ensures forall i :: 0 <= i < |EscapeBody(s)| ==> EscapeBody(s)[i] >= ' '
  {
    hide EscapeChar;
    if s != [] {
      EscapeBodyIsClean(s[..|s| - 1]);
      EscapeCharIsClean(s[|s| - 1]);
    }
  }

  /** An escaped string holds no raw control character. */
  lemma EscapeIsClean(s: string)
    ensures forall i :: 0 <= i < |Escape(s)| ==> Escape(s)[i] >= ' '
  {
    EscapeBodyIsClean(s);
  }

  // ----- events -----

  /** `timestampMs` is milliseconds since the epoch; the payload is already JSON. */
  datatype Event = Event(id: string, timestampMs: int, kind: string, payload: string)

  function ToJson(e: Event): string {
    "{\"id\":" + (Escape(e.id) + (",\"timestamp\":" + (Signed(e.timestampMs) +
    (",\"type\":" + (Escape(e.kind) + (",\"payload\":" + (e.payload + "}")))))))
  }

  function Expect(s: string, prefix: string): Option<string> {
    if prefix <= s then Some(s[|prefix|..]) else None
  }

  function ParseSigned(s: string): Option<(int, string)> {
    var negative := s != [] && s[0] == '-';
    var t := if negative then s[1..] else s;
    var k := LeadingDigits(t);
    var n: int := Value(t[..k]);
    if k == 0 then None else Some((if negative then -n else n, t[k..]))
  }

  /** The inverse of ToJson: the payload is everything up to the last character, a closing brace. */
  function ParseEvent(s: string): Option<Event> {
    match Expect(s, "{\"id\":") case None => None case Some(s1) =>
    match DecodeString(s1) case None => None case Some((id, s2)) =>
    match Expect(s2, ",\"timestamp\":") case None => None case Some(s3) =>
    match ParseSigned(s3) case None => None case Some((t, s4)) =>
    match Expect(s4, ",\"type\":") case None => None case Some(s5) =>
    match DecodeString(s5) case None => None case Some((kind, s6)) =>
    match Expect(s6, ",\"payload\":") case None => None case Some(s7) =>
    if s7 == [] || s7[|s7| - 1] != '}' then None else Some(Event(id, t, kind, s7[..|s7| - 1]))
  }

  lemma ExpectPrefix(prefix: string, rest: string)
    ensures Expect(prefix + rest, prefix) == Some(rest)
  {
  }

  lemma ParseSignedOf(i: int, rest: string)
    requires EndsNumber(rest)
    ensures ParseSigned(Signed(i) + rest) == Some((i, rest))
  {
    hide Digits, Value, LeadingDigits, EndsNumber;
    var n := if i < 0 then -i else i;
    DigitsThen(n, rest);
    if i < 0 {
      DropMinus(Digits(n) + rest);
      assert Signed(i) + rest == "-" + (Digits(n) + rest);
    }
  }

  /** Every event can be read back from its JSON, whatever bytes its strings hold. */
  lemma EventRoundTrip(e: Event)
    ensures ParseEvent(ToJson(e)) == Some(e)
  {
    hide Escape, DecodeString, Signed, ParseSigned, Expect;
    var s7 := e.payload + "}";
    var s6 := ",\"payload\":" + s7;
    var s5 := Escape(e.kind) + s6;
    var s4 := ",\"type\":" + s5;
    var s3 := Signed(e.timestampMs) + s4;
    var s2 := ",\"timestamp\":" + s3;
    var s1 := Escape(e.id) + s2;
    ExpectPrefix("{\"id\":", s1);
    EscapeRoundTrip(e.id, s2);
    ExpectPrefix(",\"timestamp\":", s3);
    ParseSignedOf(e.timestampMs, s4);
    ExpectPrefix(",\"type\":", s5);
    EscapeRoundTrip(e.kind, s6);
    ExpectPrefix(",\"payload\":", s7);
    assert s7[..|s7| - 1] == e.payload;
  }

  // ----- framing -----

  /** What publishing a sequence of events sends to one subscriber. */
  function Stream(es: seq<Event>): string {
    if es == [] then [] else ToJson(es[0]) + ("\n" + Stream(es[1..]))
  }

  function LineLength(s: string): (k: nat)
    ensures k <= |s| && '\n' !in s[..k] && (k < |s| ==> s[k] == '\n')
  {
    if s == [] || s[0] == '\n' then 0
    else
      assert s[..1 + LineLength(s[1..])] == [s[0]] + s[1..][..LineLength(s[1..])];
      1 + LineLength(s[1..])
  }

  /** The complete lines of s. */
  function SplitLines(s: string): seq<string>
    decreases |s|
  {
    var k := LineLength(s);
    if k == |s| then [] else [s[..k]] + SplitLines(s[k + 1..])
  }

  function Jsons(es: seq<Event>): seq<string> {
    if es == [] then [] else [ToJson(es[0])] + Jsons(es[1..])
  }

  lemma {:induction false} LineLengthOf(line: string, rest: string)
    requires '\n' !in line
    ensures LineLength(line + ("\n" + rest)) == |line|
  {
    if line == [] {
      assert line + ("\n" + rest) == "\n" + rest;
    } else {
      assert (line + ("\n" + rest))[1..] == line[1..] + ("\n" + rest);
      LineLengthOf(line[1..], rest);
    }
  }

  lemma {:induction false} LineLengthAtMost(s: string, i: nat)
    requires i < |s| && s[i] == '\n'
    ensures LineLength(s) <= i
  {
    if i > 0 && s[0] != '\n' {
      LineLengthAtMost(s[1..], i - 1);
    }
  }

  lemma NewlineIff(e: Event)
    ensures '\n' in ToJson(e) <==> '\n' in e.payload
  {
    hide Escape;
    EscapeIsClean(e.id);
    EscapeIsClean(e.kind);
    SignedIsClean(e.timestampMs);
    hide Signed;
    var s7 := e.payload + "}";
    var s6 := ",\"payload\":" + s7;
    assert '\n' in s6 <==> '\n' in e.payload;
    var s5 := Escape(e.kind) + s6;
    var s4 := ",\"type\":" + s5;
    assert '\n' in s4 <==> '\n' in e.payload;
    var s3 := Signed(e.timestampMs) + s4;
    var s2 := ",\"timestamp\":" + s3;
    assert '\n' in s2 <==> '\n' in e.payload;
    assert ToJson(e) == "{\"id\":" + (Escape(e.id) + s2);
  }

  lemma SignedIsClean(i: int)
    ensures '\n' !in Signed(i)
  {
    DigitsValue(if i < 0 then -i else i);
  }

  /** A stream of events whose payloads hold no newline splits back into exactly their JSON objects. */
  lemma {:induction false} FramesSplit(es: seq<Event>)
    requires forall e :: e in es ==> '\n' !in e.payload
    ensures SplitLines(Stream(es)) == Jsons(es)
  {
    hide ToJson;
    if es != [] {
      var line := ToJson(es[0]);
      NewlineIff(es[0]);
      LineLengthOf(line, Stream(es[1..]));
      FramesSplit(es[1..]);
      var s := Stream(es);
      assert s[..|line|] == line && s[|line| + 1..] == Stream(es[1..]);
    }
  }

  /** The condition is exact: an event arrives as one frame if and only if its payload holds no newline. */
  lemma FramedIff(e: Event)
    ensures SplitLines(ToJson(e) + "\n") == [ToJson(e)] <==> '\n' !in e.payload
  {
    hide ToJson;
    NewlineIff(e);
    var line := ToJson(e);
    var s := line + ("\n" + []);
    assert s == line + "\n";
    if '\n' in line {
      var i :| 0 <= i < |line| && line[i] == '\n';
      assert s[i] == '\n';
      LineLengthAtMost(s, i);
      assert |SplitLines(s)[0]| < |line|;
    } else {
      LineLengthOf(line, []);
      assert s[..|line|] == line && s[|line| + 1..] == [];
    }
  }

  function ParseAll(lines: seq<string>): Option<seq<Event>> {
    if lines == [] then Some([])
    else match (ParseEvent(lines[0]), ParseAll(lines[1..]))
      case (Some(e), Some(es)) => Some([e] + es)
      case _ => None
  }

  /** So a subscriber can recover every event it was sent. */
  lemma {:induction false} StreamRoundTrip(es: seq<Event>)
    requires forall e :: e in es ==> '\n' !in e.payload
    ensures ParseAll(SplitLines(Stream(es))) == Some(es)
  {
    FramesSplit(es);
    ParseJsons(es);
  }

  lemma {:induction false} ParseJsons(es: seq<Event>)
    ensures ParseAll(Jsons(es)) == Some(es)
  {
    hide ToJson, ParseEvent;
    if es != [] {
      EventRoundTrip(es[0]);
      ParseJsons(es[1..]);
      assert [es[0]] + es[1..] == es;
    }
  }
}
