/** A reference printer for GOV_APPLY messages and the proof that the parser inverts it. */
module GovRulePrinter {
  import opened Wrappers
  import opened Decimal
  import opened GovRule

  /** One member of a nested object. */
  datatype Member =
    | Affinity(text: string)
    | Nice(n: int)
    | MaxPct(n: int)
    | MaxBytes(n: int)
    | MaxPids(n: int)
    | NofileSoft(n: int)
    | NofileHard(n: int)
    | CoreSoft(n: int)
    | CoreHard(n: int)

  /** One field of the message. */
  datatype Field =
    | Pid(n: int)
    | Object(section: Section, members: seq<Member>)
    | OomScoreAdj(n: int)

  function MemberKey(x: Member): string {
    match x
    case Affinity(_) => "affinity"
    case Nice(_) => "nice"
    case MaxPct(_) => "max_pct"
    case MaxBytes(_) => "max_bytes"
    case MaxPids(_) => "max"
    case NofileSoft(_) => "nofile_soft"
    case NofileHard(_) => "nofile_hard"
    case CoreSoft(_) => "core_soft"
    case CoreHard(_) => "core_hard"
  }

  function SectionKey(section: Section): string {
    match section
    case CpuSection => "cpu"
    case MemSection => "mem"
    case PidsSection => "pids"
    case RlimSection => "rlim"
  }

  function FieldKey(f: Field): string {
    match f
    case Pid(_) => "pid"
    case Object(section, _) => SectionKey(section)
    case OomScoreAdj(_) => "oom_score_adj"
  }

  function Quoted(text: string): string {
    "\"" + (text + "\"")
  }

  function MemberValue(x: Member): string {
    if x.Affinity? then Quoted(x.text) else Signed(x.n)
  }

  function PrintMember(x: Member): string {
    Quoted(MemberKey(x)) + (":" + MemberValue(x))
  }

  function PrintMembers(xs: seq<Member>): string {
    if xs == [] then []
    else if |xs| == 1 then PrintMember(xs[0])
    else PrintMember(xs[0]) + ("," + PrintMembers(xs[1..]))
  }

  function FieldValue(f: Field): string {
    match f
    case Pid(n) => Signed(n)
    case Object(_, members) => "{" + (PrintMembers(members) + "}")
    case OomScoreAdj(n) => Signed(n)
  }

  function PrintField(f: Field): string {
    Quoted(FieldKey(f)) + (":" + FieldValue(f))
  }

  function PrintFields(fs: seq<Field>): string {
    if fs == [] then []
    else if |fs| == 1 then PrintField(fs[0])
    else PrintField(fs[0]) + ("," + PrintFields(fs[1..]))
  }

  function Print(fs: seq<Field>): string {
    "{" + (PrintFields(fs) + "}")
  }

  // ----- what is printable -----

  /** Text without quotes and backslashes. */
  ghost predicate NoQuotes(s: string) {
    forall i :: 0 <= i < |s| ==> s[i] != '"' && s[i] != '\\'
  }

  /** Every quote in the text comes after a backslash that escapes it, and no backslash is left without a character to
      escape. */
  predicate EscapesClosed(text: string) {
    text == [] ||
    (if text[0] == '\\' then |text| > 1 && EscapesClosed(text[2..]) else text[0] != '"' && EscapesClosed(text[1..]))
  }

  /** The brace depth after a text; once all braces are closed it stays zero. */
  function DepthAfter(s: string, depth: nat): nat {
    if s == [] || depth == 0 then depth
    else DepthAfter(s[1..], if s[0] == '{' then depth + 1 else if s[0] == '}' then depth - 1 else depth)
  }

  /** Every brace in the text that closes one closes one of the text's own, and all of its own are closed. */
  predicate BracesBalanced(text: string) {
    DepthAfter(text, 1) == 1
  }

  /** Braces in a member's text do not disturb brace matching. */
  predicate TextBalanced(x: Member) {
    x.Affinity? ==> BracesBalanced(x.text)
  }

  /** A member the schema allows in an object of p's kind. */
  ghost predicate MemberFits(p: Policy, x: Member) {
    match x
    case Affinity(text) => p.Cpu? && EscapesClosed(text)
    case Nice(n) => p.Cpu? && -128 <= n <= 127
    case MaxPct(n) => p.Cpu? && 0 <= n <= 255
    case MaxBytes(n) => p.Mem? && 0 <= n < TWO_TO_THE_64
    case MaxPids(n) => p.Pids? && 0 <= n <= UINT32_MAX
    case NofileSoft(n) => p.Rlim? && 0 <= n < TWO_TO_THE_64
    case NofileHard(n) => p.Rlim? && 0 <= n < TWO_TO_THE_64
    case CoreSoft(n) => p.Rlim? && 0 <= n < TWO_TO_THE_64
    case CoreHard(n) => p.Rlim? && 0 <= n < TWO_TO_THE_64
  }

  ghost predicate AllFit(p: Policy, xs: seq<Member>) {
    forall i :: 0 <= i < |xs| ==> MemberFits(p, xs[i])
  }

  ghost predicate AllBalanced(xs: seq<Member>) {
    forall i :: 0 <= i < |xs| ==> TextBalanced(xs[i])
  }

  ghost predicate FieldFits(f: Field) {
    match f
    case Pid(n) => 0 < n <= INT64_MAX
    case Object(section, members) => AllFit(NoPolicy(section), members) && AllBalanced(members)
    case OomScoreAdj(n) => -1000 <= n <= 1000
  }

  // ----- what a list of fields means: the last one with each key wins -----

  function SetMember(p: Policy, x: Member): Policy {
    match x
    case Affinity(text) => if p.Cpu? then p.(affinity := Some(text)) else p
    case Nice(n) => if p.Cpu? then p.(nice := Some(n)) else p
    case MaxPct(n) => if p.Cpu? then p.(maxPct := Some(n)) else p
    case MaxBytes(n) => if p.Mem? then p.(maxBytes := Some(n)) else p
    case MaxPids(n) => if p.Pids? then p.(max := Some(n)) else p
    case NofileSoft(n) => if p.Rlim? then p.(nofileSoft := Some(n)) else p
    case NofileHard(n) => if p.Rlim? then p.(nofileHard := Some(n)) else p
    case CoreSoft(n) => if p.Rlim? then p.(coreSoft := Some(n)) else p
    case CoreHard(n) => if p.Rlim? then p.(coreHard := Some(n)) else p
  }

  function SetMembers(p: Policy, xs: seq<Member>): Policy
    decreases |xs|
  {
    if xs == [] then p else SetMembers(SetMember(p, xs[0]), xs[1..])
  }

  /** The pid is narrowed to 32 bits; an object replaces the whole section. */
  function SetField(m: Message, f: Field): Message {
    match f
    case Pid(n) => m.(pid := Int32(n))
    case Object(section, members) => Store(m, section, SetMembers(NoPolicy(section), members))
    case OomScoreAdj(n) => m.(oomScoreAdj := Some(n))
  }

  function SetFields(m: Message, fs: seq<Field>): Message
    decreases |fs|
  {
    if fs == [] then m else SetFields(SetField(m, fs[0]), fs[1..])
  }

  // ----- white space and edges -----

  /** Nothing for trim to remove. */
  ghost predicate Trimmed(s: string) {
    s != [] ==> !IsWhitespace(s[0]) && !IsWhitespace(s[|s| - 1])
  }

  lemma TrimTrimmed(s: string)
    requires Trimmed(s)
    ensures Trim(s) == s && SkipWhitespace(s) == s
  {
  }

  lemma TrimmedConcat(a: string, b: string)
    requires Trimmed(a) && Trimmed(b)
    ensures Trimmed(a + b)
  {
  }

  lemma SignedEdges(i: int)
    ensures Signed(i) != [] && Trimmed(Signed(i))
    ensures forall k :: 0 <= k < |Signed(i)| ==> Signed(i)[k] == '-' || IsDigit(Signed(i)[k])
  {
    DigitsValue(if i < 0 then -i else i);
  }

  lemma MemberEdges(x: Member)
    ensures PrintMember(x) != [] && Trimmed(PrintMember(x))
  {
    hide Signed;
    if !x.Affinity? {
      SignedEdges(x.n);
    }
  }

  lemma {:induction false} MembersEdges(xs: seq<Member>)
    ensures Trimmed(PrintMembers(xs)) && (xs != [] ==> PrintMembers(xs) != [])
  {
    hide PrintMember;
    if xs != [] {
      MemberEdges(xs[0]);
      MembersEdges(xs[1..]);
      TrimmedConcat(",", PrintMembers(xs[1..]));
    }
  }

  lemma FieldEdges(f: Field)
    ensures PrintField(f) != [] && Trimmed(PrintField(f))
  {
    hide Signed, PrintMembers;
    match f
    case Pid(n) => SignedEdges(n);
    case Object(_, _) =>
    case OomScoreAdj(n) => SignedEdges(n);
  }

  lemma {:induction false} FieldsEdges(fs: seq<Field>)
    ensures Trimmed(PrintFields(fs)) && (fs != [] ==> PrintFields(fs) != [])
  {
    hide PrintField;
    if fs != [] {
      FieldEdges(fs[0]);
      FieldsEdges(fs[1..]);
      TrimmedConcat(",", PrintFields(fs[1..]));
    }
  }

  // ----- reading back one piece at a time -----

  lemma {:induction false} QuoteEndOf(text: string, i: nat)
    requires i <= |text| && NoQuotes(text)
    ensures QuoteEnd(text + "\"", i) == |text|
    decreases |text| - i
  {
    var s := text + "\"";
    if i < |text| {
      assert s[i] == text[i];
      QuoteEndOf(text, i + 1);
    }
  }

  /** Where a quoted text ends does not depend on what comes after its end. */
  lemma {:induction false} QuoteEndLocal(a: string, b: string, i: nat)
    requires i <= |a|
    ensures QuoteEnd(a, i) < |a| ==> QuoteEnd(a + b, i) == QuoteEnd(a, i)
    ensures QuoteEnd(a + b, i) < |a| ==> QuoteEnd(a + b, i) == QuoteEnd(a, i)
    decreases |a| - i
  {
    if i < |a| {
      assert (a + b)[i] == a[i];
      if a[i] == '\\' && i + 1 < |a| {
        QuoteEndLocal(a, b, i + 2);
      } else if a[i] != '"' {
        QuoteEndLocal(a, b, i + 1);
      }
    }
  }

  lemma {:induction false} ClosedFrom(text: string, i: nat)
    requires i <= |text|
    ensures QuoteEnd(text + "\"", i) == |text| <==> EscapesClosed(text[i..])
    decreases |text| - i
  {
    var s := text + "\"";
    var t := text[i..];
    if i < |text| {
      assert s[i] == text[i] == t[0];
      if text[i] == '\\' {
        if i + 1 < |text| {
          assert t[2..] == text[i + 2..];
          ClosedFrom(text, i + 2);
        } else {
          assert QuoteEnd(s, i) == QuoteEnd(s, i + 2);
        }
      } else if text[i] != '"' {
        assert t[1..] == text[i + 1..];
        ClosedFrom(text, i + 1);
      }
    }
  }

  /** The search for the closing quote ends behind a text exactly if the escapes of the text are closed. */
  lemma EscapesClosedIff(text: string)
    ensures QuoteEnd(text + "\"", 0) == |text| <==> EscapesClosed(text)
  {
    ClosedFrom(text, 0);
    assert text[0..] == text;
  }

  /** A quoted text is read back, whatever follows it, if and only if its escapes are closed. */
  lemma QuotedBackIff(text: string, rest: string)
    ensures ParseQuoted(Quoted(text) + rest) == Some((text, rest)) <==> EscapesClosed(text)
  {
    var s := Quoted(text) + rest;
    var u := text + ("\"" + rest);
    var closed := text + "\"";
    assert s == "\"" + u && s[1..] == u;
    assert u == closed + rest;
    QuoteEndLocal(closed, rest, 0);
    EscapesClosedIff(text);
    hide EscapesClosed;
    assert u[..|text|] == text && u[|text| + 1..] == rest;
  }

  lemma KeyBack(key: string, value: string)
    requires NoQuotes(key)
    ensures ParseKey(Quoted(key) + (":" + value)) == Some((key, value))
  {
    hide ParseQuoted, Quoted;
    QuoteEndOf(key, 0);
    EscapesClosedIff(key);
    QuotedBackIff(key, ":" + value);
    assert (":" + value)[0] == ':' && (":" + value)[1..] == value;
  }

  lemma IntBack(i: int, rest: string)
    requires EndsNumber(rest) && -INT64_MAX - 1 <= i <= INT64_MAX
    ensures ParseInt(Signed(i) + rest) == Number(i, rest)
  {
    hide ParseInt, Digits;
    if i < 0 {
      MinusBack(i, rest);
    } else {
      PlusBack(i, rest);
    }
  }

  lemma PlusBack(n: nat, rest: string)
    requires EndsNumber(rest) && n <= INT64_MAX
    ensures ParseInt(Digits(n) + rest) == Number(n, rest)
  {
    hide Digits, Value, LeadingDigits, EndsNumber, SkipWhitespace, IsDigit;
    DigitsThen(n, rest);
    NoSpaceFirst(Digits(n) + rest);
  }

  lemma MinusBack(i: int, rest: string)
    requires EndsNumber(rest) && -INT64_MAX - 1 <= i < 0
    ensures ParseInt("-" + Digits(-i) + rest) == Number(i, rest)
  {
    hide Digits, Value, LeadingDigits, EndsNumber, SkipWhitespace, IsDigit;
    var t := Digits(-i) + rest;
    DigitsThen(-i, rest);
    DropMinus(t);
    NoSpaceFirst("-" + t);
    assert "-" + Digits(-i) + rest == "-" + t;
  }

  lemma NoSpaceFirst(s: string)
    requires s != [] && (IsDigit(s[0]) || s[0] == '-')
    ensures SkipWhitespace(s) == s && (IsDigit(s[0]) ==> s[0] != '-')
  {
  }

  lemma UintBack(n: nat, rest: string)
    requires EndsNumber(rest) && n < TWO_TO_THE_64
    ensures ParseUint(Signed(n) + rest) == Number(n, rest)
  {
    hide Digits, Value, LeadingDigits, EndsNumber, SkipWhitespace;
    DigitsThen(n, rest);
    NoSpaceFirst(Digits(n) + rest);
  }

  /** What may follow a member or field: nothing, a comma, or a closing brace. */
  ghost predicate Separated(rest: string) {
    rest == [] || rest[0] == ',' || rest[0] == '}'
  }

  lemma MemberBack(p: Policy, x: Member, rest: string)
    requires MemberFits(p, x) && Separated(rest)
    ensures ParseMember(p, MemberKey(x), MemberValue(x) + rest) == Next(SetMember(p, x), rest)
  {
    hide ParseQuoted, ParseInt, ParseUint, Quoted, Signed;
    match x
    case Affinity(text) => QuotedBackIff(text, rest);
    case Nice(n) => IntBack(n, rest);
    case MaxPct(n) => UintBack(n, rest);
    case MaxBytes(n) => UintBack(n, rest);
    case MaxPids(n) => UintBack(n, rest);
    case NofileSoft(n) => UintBack(n, rest);
    case NofileHard(n) => UintBack(n, rest);
    case CoreSoft(n) => UintBack(n, rest);
    case CoreHard(n) => UintBack(n, rest);
  }

  ghost predicate Letters(s: string) {
    forall i :: 0 <= i < |s| ==> 'a' <= s[i] <= 'z' || s[i] == '_'
  }

  lemma MemberKeyLetters(x: Member)
    ensures Letters(MemberKey(x))
  {
  }

  lemma FieldKeyLetters(f: Field)
    ensures Letters(FieldKey(f)) && (FieldKey(f) == "pid" <==> f.Pid?)
  {
  }

  lemma LettersPlain(s: string)
    requires Letters(s)
    ensures NoQuotes(s) && NoBraces(s)
  {
  }

  lemma MemberKeyPlain(x: Member)
    ensures NoQuotes(MemberKey(x)) && NoBraces(MemberKey(x))
  {
    hide MemberKey;
    MemberKeyLetters(x);
    LettersPlain(MemberKey(x));
  }

  lemma FieldKeyPlain(f: Field)
    ensures NoQuotes(FieldKey(f)) && NoBraces(FieldKey(f)) && (FieldKey(f) == "pid" <==> f.Pid?)
  {
    hide FieldKey;
    FieldKeyLetters(f);
    LettersPlain(FieldKey(f));
  }

  lemma MembersStep(p: Policy, x: Member, rest: string)
    requires MemberFits(p, x) && Separated(rest)
    ensures ParseMembers(PrintMember(x) + rest, p) == ParseMembers(NextMember(rest), SetMember(p, x))
  {
    hide ParseMember, MemberKey, MemberValue, NextMember, Quoted, SetMember;
    MemberKeyPlain(x);
    KeyBack(MemberKey(x), MemberValue(x) + rest);
    MemberBack(p, x, rest);
    assert PrintMember(x) + rest == Quoted(MemberKey(x)) + (":" + (MemberValue(x) + rest));
    MemberEdges(x);
  }

  lemma FitsAfterSet(p: Policy, x: Member, y: Member)
    requires MemberFits(p, x)
    ensures MemberFits(p, y) ==> MemberFits(SetMember(p, x), y)
  {
  }

  lemma {:induction false} MembersBack(p: Policy, xs: seq<Member>)
    requires AllFit(p, xs)
    ensures ParseMembers(PrintMembers(xs), p) == Parsed(SetMembers(p, xs))
    decreases |xs|
  {
    hide MemberFits, PrintMember, SetMember, ParseKey, ParseMember;
    if xs != [] {
      var q := SetMember(p, xs[0]);
      forall i | 0 <= i < |xs[1..]|
        ensures MemberFits(q, xs[1..][i])
      {
        FitsAfterSet(p, xs[0], xs[1..][i]);
      }
      MembersBack(q, xs[1..]);
      if |xs| == 1 {
        MembersStep(p, xs[0], []);
        assert PrintMember(xs[0]) + [] == PrintMember(xs[0]);
      } else {
        var tail := PrintMembers(xs[1..]);
        MembersStep(p, xs[0], "," + tail);
        MembersEdges(xs[1..]);
        AfterComma(tail);
      }
    }
  }

  lemma AfterComma(tail: string)
    requires Trimmed(tail)
    ensures NextMember("," + tail) == tail
  {
    TrimTrimmed(tail);
    assert ("," + tail)[1..] == tail;
  }

  // ----- braces -----

  ghost predicate NoBraces(s: string) {
    forall i :: 0 <= i < |s| ==> s[i] != '{' && s[i] != '}'
  }

  lemma {:induction false} DepthConcat(a: string, b: string, depth: nat)
    ensures DepthAfter(a + b, depth) == DepthAfter(b, DepthAfter(a, depth))
    decreases |a|
  {
    if a == [] {
      assert a + b == b;
    } else if depth > 0 {
      assert (a + b)[0] == a[0] && (a + b)[1..] == a[1..] + b;
      DepthConcat(a[1..], b, if a[0] == '{' then depth + 1 else if a[0] == '}' then depth - 1 else depth);
    }
  }

  lemma {:induction false} NoBracesDepth(s: string, depth: nat)
    requires NoBraces(s)
    ensures DepthAfter(s, depth) == depth
  {
    if s != [] && depth > 0 {
      assert NoBraces(s[1..]);
      NoBracesDepth(s[1..], depth);
    }
  }

  /** The first brace that closes the one before position i is just after a text that keeps its own braces balanced. */
  lemma {:induction false} BraceEndOf(s: string, i: nat, body: string, depth: nat)
    requires i + |body| < |s| && s[i..i + |body|] == body && s[i + |body|] == '}'
    requires depth > 0 && DepthAfter(body, depth) == 1
    ensures BraceEnd(s, i, depth) == i + |body| + 1
    decreases |body|
  {
    if body != [] {
      assert s[i] == body[0];
      assert s[i + 1..i + 1 + |body[1..]|] == body[1..];
      BraceEndOf(s, i + 1, body[1..], if s[i] == '{' then depth + 1 else if s[i] == '}' then depth - 1 else depth);
    }
  }

  lemma BalancedConcat(a: string, b: string)
    requires BracesBalanced(a) && BracesBalanced(b)
    ensures BracesBalanced(a + b)
  {
    DepthConcat(a, b, 1);
  }

  lemma MemberBalanced(p: Policy, x: Member)
    requires MemberFits(p, x) && TextBalanced(x)
    ensures BracesBalanced(PrintMember(x))
  {
    hide Signed, DepthAfter, EscapesClosed;
    MemberKeyPlain(x);
    NoBracesDepth(Quoted(MemberKey(x)) + ":", 1);
    if x.Affinity? {
      NoBracesDepth("\"", 1);
      BalancedConcat(x.text, "\"");
      BalancedConcat("\"", x.text + "\"");
    } else {
      SignedEdges(x.n);
      NoBracesDepth(Signed(x.n), 1);
    }
    BalancedConcat(Quoted(MemberKey(x)) + ":", MemberValue(x));
    assert Quoted(MemberKey(x)) + ":" + MemberValue(x) == PrintMember(x);
  }

  lemma {:induction false} MembersBalanced(p: Policy, xs: seq<Member>)
    requires AllFit(p, xs) && AllBalanced(xs)
    ensures BracesBalanced(PrintMembers(xs))
  {
    hide MemberFits, TextBalanced, PrintMember, DepthAfter;
    NoBracesDepth([], 1);
    NoBracesDepth(",", 1);
    if xs != [] {
      MemberBalanced(p, xs[0]);
      MembersBalanced(p, xs[1..]);
      BalancedConcat(",", PrintMembers(xs[1..]));
      BalancedConcat(PrintMember(xs[0]), "," + PrintMembers(xs[1..]));
    }
  }

  lemma ObjectText(body: string, rest: string)
    requires BracesBalanced(body)
    ensures var braced := "{" + (body + "}");
            var s := braced + rest;
            && |braced| == |body| + 2 && braced[1..|braced| - 1] == body && Trim(braced) == braced
            && s != [] && s[0] == '{'
            && BraceEnd(s, 1, 1) == |braced| && s[..|braced|] == braced && s[|braced|..] == rest
  {
    var braced := "{" + (body + "}");
    var s := braced + rest;
    TrimTrimmed(braced);
    hide Trim, DepthAfter;
    assert s[1..1 + |body|] == body && s[1 + |body|] == '}';
    BraceEndOf(s, 1, body, 1);
  }

  lemma ObjectBack(m: Message, section: Section, xs: seq<Member>, rest: string)
    requires AllFit(NoPolicy(section), xs) && AllBalanced(xs)
    ensures ParseObject(m, section, "{" + (PrintMembers(xs) + "}") + rest) ==
            Stored(Store(m, section, SetMembers(NoPolicy(section), xs)), rest)
  {
    hide MemberFits, AllFit, AllBalanced, PrintMembers, ParseMembers, SetMembers, NoPolicy, Store, BracesBalanced, Trim,
      Trimmed, BraceEnd;
    MembersBalanced(NoPolicy(section), xs);
    ObjectText(PrintMembers(xs), rest);
    MembersEdges(xs);
    TrimTrimmed(PrintMembers(xs));
    MembersBack(NoPolicy(section), xs);
  }

  lemma FieldBack(m: Message, f: Field, rest: string)
    requires FieldFits(f) && Separated(rest)
    ensures ParseField(m, FieldKey(f), FieldValue(f) + rest) == Stored(SetField(m, f), rest)
  {
    hide ParseInt, Signed, AllFit, AllBalanced, ParseObject, SetMembers, PrintMembers;
    match f
    case Pid(n) => IntBack(n, rest);
    case Object(section, members) => ObjectBack(m, section, members, rest);
    case OomScoreAdj(n) => IntBack(n, rest);
  }

  lemma FieldsStep(m: Message, f: Field, rest: string, hasPid: bool)
    requires FieldFits(f) && Separated(rest)
    ensures ParseFields(PrintField(f) + rest, m, hasPid) ==
            ParseFields(NextMember(rest), SetField(m, f), hasPid || f.Pid?)
  {
    hide PrintField, ParseField, ParseKey, FieldValue, FieldKey, NextMember, Quoted, SetField, FieldFits, Separated, NoQuotes;
    FieldKeyPlain(f);
    KeyBack(FieldKey(f), FieldValue(f) + rest);
    FieldBack(m, f, rest);
    FieldThen(f, rest);
    FieldEdges(f);
  }

  lemma FieldThen(f: Field, rest: string)
    ensures PrintField(f) + rest == Quoted(FieldKey(f)) + (":" + (FieldValue(f) + rest))
  {
    hide FieldValue, FieldKey, Quoted;
  }

  ghost predicate HasPid(fs: seq<Field>) {
    exists i :: 0 <= i < |fs| && fs[i].Pid?
  }

  lemma {:induction false} FieldsBack(m: Message, fs: seq<Field>, hasPid: bool)
    requires forall i :: 0 <= i < |fs| ==> FieldFits(fs[i])
    ensures ParseFields(PrintFields(fs), m, hasPid) ==
            Done(if hasPid || HasPid(fs) then ACK else NACK_INVALID_PAYLOAD, SetFields(m, fs))
    decreases |fs|
  {
    hide FieldFits, PrintField, SetField, ParseKey, ParseField;
    if fs != [] {
      FieldsBack(SetField(m, fs[0]), fs[1..], hasPid || fs[0].Pid?);
      assert HasPid(fs) <==> fs[0].Pid? || HasPid(fs[1..]) by { HasPidStep(fs); }
      if |fs| == 1 {
        FieldsStep(m, fs[0], [], hasPid);
        assert PrintField(fs[0]) + [] == PrintField(fs[0]);
      } else {
        var tail := PrintFields(fs[1..]);
        FieldsStep(m, fs[0], "," + tail, hasPid);
        FieldsEdges(fs[1..]);
        AfterComma(tail);
      }
    }
  }

  lemma HasPidStep(fs: seq<Field>)
    requires fs != []
    ensures HasPid(fs) <==> fs[0].Pid? || HasPid(fs[1..])
  {
    if HasPid(fs[1..]) {
      var i :| 0 <= i < |fs[1..]| && fs[1..][i].Pid?;
      assert fs[i + 1].Pid?;
    }
    if HasPid(fs) && !fs[0].Pid? {
      var i :| 0 <= i < |fs| && fs[i].Pid?;
      assert fs[1..][i - 1].Pid?;
    }
  }

  lemma PrintedText(fs: seq<Field>)
    requires |Print(fs)| <= MAX_PAYLOAD_SIZE
    ensures ParseGovApply(Print(fs)) == ParseFields(PrintFields(fs), EMPTY, false)
  {
    hide PrintFields, ParseFields;
    var s := Print(fs);
    TrimTrimmed(s);
    assert s[1..|s| - 1] == PrintFields(fs);
    FieldsEdges(fs);
    TrimTrimmed(PrintFields(fs));
  }

  /** Parsing the printed form of any list of schema fields, in any order and with repeats, of at most 512 bytes: accepted
      if and only if a pid is among them, and what comes back is exactly the last-wins fold of the fields. */
  lemma ParsePrinted(fs: seq<Field>)
    requires forall i :: 0 <= i < |fs| ==> FieldFits(fs[i])
    requires |Print(fs)| <= MAX_PAYLOAD_SIZE
    ensures ParseGovApply(Print(fs)) == Done(if HasPid(fs) then ACK else NACK_INVALID_PAYLOAD, SetFields(EMPTY, fs))
  {
    hide FieldFits, Print, ParseGovApply, SetFields;
    PrintedText(fs);
    FieldsBack(EMPTY, fs, false);
  }

  function Pow10(k: nat): nat {
    if k == 0 then 1 else 10 * Pow10(k - 1)
  }

  lemma {:induction false} DigitsLength(n: nat, k: nat)
    requires 0 < k && n < Pow10(k)
    ensures |Digits(n)| <= k
  {
    if n >= 10 {
      assert k > 1;
      DigitsLength(n / 10, k - 1);
    }
  }

  /** The parser accepts any positive 64-bit pid and narrows it to 32 bits, so the pid that comes back is the pid that was
      sent if and only if it is below 2^31. */
  lemma PidNarrowing(n: int)
    requires 0 < n <= INT64_MAX
    ensures ParseGovApply(Print([Pid(n)])) == Done(ACK, EMPTY.(pid := Int32(n)))
    ensures Int32(n) == n <==> n < 0x8000_0000
  {
    var fs := [Pid(n)];
    assert Pow10(19) == 10_000_000_000_000_000_000 by { PowersOfTen(); }
    DigitsLength(n, 19);
    ParsePrinted(fs);
    assert fs[0].Pid?;
    assert SetFields(EMPTY, fs) == SetFields(SetField(EMPTY, Pid(n)), []) by { assert fs[1..] == []; }
  }

  lemma PowersOfTen()
    ensures Pow10(19) == 10_000_000_000_000_000_000
  {
    assert Pow10(4) == 10_000;
    assert Pow10(8) == 100_000_000;
    assert Pow10(12) == 1_000_000_000_000;
    assert Pow10(16) == 10_000_000_000_000_000;
  }
}
