/** Exactly which messages survive being printed and parsed. Only the affinity text can get in the way: the parser looks for
    its closing quote, and looks for the object's closing brace without regard to quotes. */
module GovRuleRoundTrip {
  import opened Wrappers
  import opened Sequences
  import opened Decimal
  import opened GovRule
  import opened GovRulePrinter
  import opened GovRuleOrder
  import opened GovRuleFaults

  // ----- what the parser can store at all -----

  predicate TextClosed(p: Policy) {
    p.Cpu? && p.affinity.Some? ==> EscapesClosed(p.affinity.value)
  }

  predicate MessageClosed(m: Message) {
    m.cpu.Some? ==> TextClosed(m.cpu.value)
  }

  lemma ReadIsClosed(s: string)
    ensures ParseQuoted(s).Some? ==> EscapesClosed(ParseQuoted(s).value.0)
  {
    if ParseQuoted(s).Some? {
      var u := SkipWhitespace(s)[1..];
      var end := QuoteEnd(u, 0);
      assert u == u[..end + 1] + u[end + 1..] && u[..end + 1] == u[..end] + "\"";
      QuoteEndLocal(u[..end + 1], u[end + 1..], 0);
      EscapesClosedIff(u[..end]);
    }
  }

  lemma MemberKeepsClosed(p: Policy, key: string, s: string)
    requires TextClosed(p)
    ensures var r := ParseMember(p, key, s); r.Next? ==> TextClosed(r.acc)
  {
    hide ParseQuoted, ParseInt, ParseUint, EscapesClosed;
    ReadIsClosed(s);
  }

  lemma {:induction false} MembersKeepClosed(s: string, p: Policy)
    requires TextClosed(p)
    ensures var r := ParseMembers(s, p); r.Parsed? ==> TextClosed(r.policy)
    decreases |s|
  {
    hide TextClosed, ParseMember, NextMember;
    if s != [] && ParseKey(s).Some? {
      var (key, t) := ParseKey(s).value;
      MemberKeepsClosed(p, key, t);
      var step := ParseMember(p, key, t);
      if step.Next? {
        MembersKeepClosed(NextMember(step.rest), step.acc);
      }
    }
  }

  lemma FieldKeepsClosed(m: Message, key: string, s: string)
    requires MessageClosed(m)
    ensures var r := ParseField(m, key, s); r.Stored? ==> MessageClosed(r.msg)
  {
    hide ParseInt, ParseMembers, BraceEnd, Trim, EscapesClosed;
    if SectionOf(key).Some? && s != [] && s[0] == '{' {
      var braced := Trim(s[..BraceEnd(s, 1, 1)]);
      if |braced| >= 2 {
        MembersKeepClosed(Trim(braced[1..|braced| - 1]), NoPolicy(SectionOf(key).value));
      }
    }
  }

  lemma {:induction false} FieldsKeepClosed(s: string, m: Message, hasPid: bool)
    requires MessageClosed(m)
    ensures var r := ParseFields(s, m, hasPid); r.Done? ==> MessageClosed(r.msg)
    decreases |s|
  {
    hide MessageClosed, ParseField, NextMember;
    if s != [] && ParseKey(s).Some? {
      var (key, t) := ParseKey(s).value;
      FieldKeepsClosed(m, key, t);
      var r := ParseField(m, key, t);
      if r.Stored? {
        FieldsKeepClosed(NextMember(r.rest), r.msg, hasPid || key == "pid");
      }
    }
  }

  /** Whatever the payload, an affinity text that comes out of the parser has all its escapes closed. */
  lemma ParsedTextIsClosed(payload: string)
    ensures ParseGovApply(payload).Done? ==> MessageClosed(ParseGovApply(payload).msg)
  {
    hide ParseFields, Trim;
    var s := Trim(payload);
    if |s| >= 2 {
      FieldsKeepClosed(Trim(s[1..|s| - 1]), EMPTY, false);
    }
  }

  // ----- a text that closes too many braces -----

  lemma {:induction false} CutAt(text: string, depth: nat) returns (i: nat)
    requires depth > 0 && DepthAfter(text, depth) == 0
    ensures i < |text| && text[i] == '}' && DepthAfter(text[..i], depth) == 1
  {
    var next := if text[0] == '{' then depth + 1 else if text[0] == '}' then depth - 1 else depth;
    if next == 0 {
      i := 0;
      assert text[..0] == [];
    } else {
      var k := CutAt(text[1..], next);
      i := k + 1;
      assert text[..i][1..] == text[1..][..k];
    }
  }

  const OPENING := Quoted("affinity") + ":\""

  lemma OpeningIs()
    ensures OPENING == "\"affinity\":\"" && NoBraces(OPENING)
  {
  }

  /** A closed text without its closing quote is not read. */
  lemma UnclosedPrefix(text: string, n: nat)
    requires EscapesClosed(text) && n <= |text|
    ensures ParseMembers(OPENING + text[..n], NoPolicy(CpuSection)) == Failed(NACK_PARSE_ERROR)
  {
    hide EscapesClosed, QuoteEnd, ParseKey, ParseQuoted, Quoted, NextMember;
    var w := text[..n];
    KeyBack("affinity", "\"" + w);
    OpeningThen(w);
    NoEndInPrefix(text, n);
    NotQuoted(w);
  }

  lemma OpeningThen(w: string)
    ensures OPENING + w == Quoted("affinity") + (":" + ("\"" + w))
  {
  }

  lemma NotQuoted(w: string)
    requires QuoteEnd(w, 0) == |w|
    ensures ParseQuoted("\"" + w) == None
  {
    hide QuoteEnd;
    assert ("\"" + w)[1..] == w;
  }

  lemma NoEndInPrefix(text: string, n: nat)
    requires EscapesClosed(text) && n <= |text|
    ensures QuoteEnd(text[..n], 0) == n
  {
    EscapesClosedIff(text);
    hide EscapesClosed;
    var w := text[..n];
    assert text + "\"" == w + (text[n..] + "\"");
    QuoteEndLocal(w, text[n..] + "\"", 0);
  }

  lemma TrimOpening(w: string) returns (n: nat)
    ensures n <= |w| && Trim(OPENING + w) == OPENING + w[..n]
  {
    OpeningIs();
    var s := OPENING + w;
    var k := TrimEndIs(s);
    var d := |OPENING|;
    assert s[d - 1] == '"';
    n := k - d;
    assert s[..k] == OPENING + w[..n];
  }

  /** An object cut short inside its affinity text is refused. */
  lemma CutObject(m: Message, text: string, after: string)
    requires EscapesClosed(text) && DepthAfter(text, 1) == 0
    ensures ParseObject(m, CpuSection, "{" + (OPENING + text) + after) == Refused(NACK_PARSE_ERROR)
  {
    hide Trim, ParseMembers, BraceEnd, DepthAfter, EscapesClosed, NoPolicy;
    var i := CutAt(text, 1);
    var body := OPENING + text[..i];
    OpeningBalanced(text[..i]);
    CutText(text, i, after);
    ObjectText(body, text[i + 1..] + after);
    var n := TrimOpening(text[..i]);
    TakeTake(text, i, n);
    UnclosedPrefix(text, n);
  }

  lemma OpeningBalanced(text: string)
    requires DepthAfter(text, 1) == 1
    ensures BracesBalanced(OPENING + text)
  {
    hide DepthAfter;
    OpeningIs();
    NoBracesDepth(OPENING, 1);
    DepthConcat(OPENING, text, 1);
  }

  lemma TakeTake(text: string, i: nat, n: nat)
    requires n <= i <= |text|
    ensures text[..i][..n] == text[..n]
  {
  }

  lemma CutText(text: string, i: nat, after: string)
    requires i < |text| && text[i] == '}'
    ensures "{" + (OPENING + text) + after == "{" + (OPENING + text[..i] + "}") + (text[i + 1..] + after)
  {
    var a, b := text[..i], text[i + 1..];
    assert text == a + "}" + b;
    JoinCut(OPENING, a, b, after);
  }

  lemma JoinCut(o: string, a: string, b: string, after: string)
    ensures "{" + (o + (a + "}" + b)) + after == "{" + (o + a + "}") + (b + after)
  {
  }

  // ----- a text that opens more braces than it closes -----

  lemma {:induction false} DeeperStaysOpen(s: string, depth: nat, more: nat)
    requires DepthAfter(s, depth) >= 1
    ensures DepthAfter(s, depth + more) == DepthAfter(s, depth) + more
    decreases |s|
  {
    if s != [] {
      DeeperStaysOpen(s[1..], if s[0] == '{' then depth + 1 else if s[0] == '}' then depth - 1 else depth, more);
    }
  }

  lemma {:induction false} BraceEndNever(s: string, i: nat, depth: nat)
    requires i <= |s| && DepthAfter(s[i..], depth) >= 1
    ensures BraceEnd(s, i, depth) == |s|
    decreases |s| - i
  {
    if i < |s| {
      assert s[i..][0] == s[i] && s[i..][1..] == s[i + 1..];
      BraceEndNever(s, i + 1, if s[i] == '{' then depth + 1 else if s[i] == '}' then depth - 1 else depth);
    }
  }

  /** The printed fields after the object: none, or a comma and the fields. */
  function Following(fs: seq<Field>): string {
    if fs == [] then [] else "," + PrintFields(fs)
  }

  lemma FieldBalanced(f: Field)
    requires FieldFits(f)
    ensures BracesBalanced(PrintField(f))
  {
    hide DepthAfter, FieldKey, FieldValue;
    FieldKeyPlain(f);
    KeyBalanced(FieldKey(f));
    ValueBalanced(f);
    hide BracesBalanced;
    BalancedConcat(Quoted(FieldKey(f)) + ":", FieldValue(f));
    ConcatAssoc(Quoted(FieldKey(f)), ":", FieldValue(f));
  }

  lemma KeyBalanced(key: string)
    requires NoBraces(key)
    ensures BracesBalanced(Quoted(key) + ":")
  {
    hide DepthAfter;
    NoBracesDepth(Quoted(key) + ":", 1);
  }

  lemma ValueBalanced(f: Field)
    requires FieldFits(f)
    ensures BracesBalanced(FieldValue(f))
  {
    hide Signed, PrintMembers, MemberFits, TextBalanced, DepthAfter;
    if f.Object? {
      MembersBalanced(NoPolicy(f.section), f.members);
      BracesBalance(PrintMembers(f.members));
    } else {
      SignedEdges(f.n);
      NoBracesDepth(Signed(f.n), 1);
    }
  }

  lemma BracesBalance(body: string)
    requires BracesBalanced(body)
    ensures BracesBalanced("{" + (body + "}"))
  {
    DeeperStaysOpen(body, 1, 1);
    DepthConcat(body, "}", 2);
    DepthConcat("{", body + "}", 1);
    assert DepthAfter("{", 1) == 2 && DepthAfter("}", 2) == 1;
  }

  lemma {:induction false} FollowingBalanced(fs: seq<Field>)
    requires forall i :: 0 <= i < |fs| ==> FieldFits(fs[i])
    ensures BracesBalanced(PrintFields(fs)) && BracesBalanced(Following(fs))
  {
    hide FieldFits, PrintField, DepthAfter;
    NoBracesDepth([], 1);
    NoBracesDepth(",", 1);
    if fs != [] {
      FieldBalanced(fs[0]);
      FollowingBalanced(fs[1..]);
      BalancedConcat(",", PrintFields(fs[1..]));
      BalancedConcat(PrintField(fs[0]), "," + PrintFields(fs[1..]));
      BalancedConcat(",", PrintFields(fs));
    }
  }

  lemma PrintedMembers(xs: seq<Member>, r: string)
    requires xs != []
    ensures PrintMembers(xs) + r ==
            PrintMember(xs[0]) + if |xs| == 1 then r else "," + (PrintMembers(xs[1..]) + r)
  {
    var more := xs[1..];
    assert PrintMembers(xs) == PrintMember(xs[0]) + if |xs| == 1 then [] else "," + PrintMembers(more);
    hide PrintMember, PrintMembers;
    RegroupThree(PrintMember(xs[0]), ",", PrintMembers(more), r);
  }

  lemma RegroupThree(a: string, b: string, c: string, r: string)
    ensures a + (b + c) + r == a + (b + (c + r)) && a + [] + r == a + r
  {
  }

  /** Members followed by a stray closing brace are refused. */
  lemma {:induction false} MembersThenBrace(p: Policy, xs: seq<Member>, z: string)
    requires xs != [] && AllFit(p, xs) && Trimmed("}" + z)
    ensures ParseMembers(PrintMembers(xs) + ("}" + z), p) == Failed(NACK_PARSE_ERROR)
    decreases |xs|
  {
    hide MemberFits, PrintMember, PrintMembers, SetMember, ParseMembers, NextMember, Trimmed;
    var r := "}" + z;
    var q := SetMember(p, xs[0]);
    PrintedMembers(xs, r);
    if |xs| == 1 {
      MembersStep(p, xs[0], r);
      BraceIsNoMember(z, q);
    } else {
      forall i | 0 <= i < |xs[1..]|
        ensures MemberFits(q, xs[1..][i])
      {
        FitsAfterSet(p, xs[0], xs[1..][i]);
      }
      var tail := PrintMembers(xs[1..]);
      MembersStep(p, xs[0], "," + (tail + r));
      MembersEdges(xs[1..]);
      TrimmedConcat(tail, r);
      AfterComma(tail + r);
      MembersThenBrace(q, xs[1..], z);
    }
  }

  lemma BraceIsNoMember(z: string, p: Policy)
    ensures ParseMembers(NextMember("}" + z), p) == Failed(NACK_PARSE_ERROR)
  {
    assert NextMember("}" + z) == "}" + z;
  }

  /** Trimming a text that goes on past its braces keeps at least the first of them. */
  lemma TrimPastBrace(body: string, z: string) returns (n: nat)
    requires body != [] && Trimmed(body)
    ensures n <= |z| && Trim(body + ("}" + z)) == body + ("}" + z[..n]) && Trimmed("}" + z[..n])
  {
    var s := body + ("}" + z);
    var k := TrimEndIs(s);
    var d := |body| + 1;
    assert s[d - 1] == '}' && s[0] == body[0];
    n := k - d;
    assert s[..k] == body + ("}" + z[..n]);
    assert s[k - 1] == ("}" + z[..n])[n];
  }

  /** Brace matching runs to the end of the payload when the text has opened more braces than it closed. */
  lemma OpenedText(body: string, fs: seq<Field>)
    requires Trimmed(body) && body != [] && DepthAfter(body, 1) >= 2
    requires forall i :: 0 <= i < |fs| ==> FieldFits(fs[i])
    ensures var s := "{" + (body + "}") + Following(fs);
            BraceEnd(s, 1, 1) == |s| && Trim(s) == s
  {
    hide FieldFits, PrintFields, DepthAfter, Trim, BraceEnd;
    var f := Following(fs);
    FollowingBalanced(fs);
    FieldsEdges(fs);
    OpenedDepth(body, f);
    OpenedTrimmed(body, f);
    BraceEndNever("{" + (body + "}") + f, 1, 1);
    TrimTrimmed("{" + (body + "}") + f);
  }

  lemma OpenedDepth(body: string, f: string)
    requires DepthAfter(body, 1) >= 2 && BracesBalanced(f)
    ensures DepthAfter(("{" + (body + "}") + f)[1..], 1) >= 1
  {
    var d := DepthAfter(body, 1);
    OneBrace(d);
    hide DepthAfter;
    DeeperStaysOpen(f, 1, d - 2);
    DepthConcat("}", f, d);
    DepthConcat(body, "}" + f, 1);
    DropBrace(body, f);
  }

  lemma OneBrace(d: nat)
    requires d >= 1
    ensures DepthAfter("}", d) == d - 1
  {
    assert "}"[1..] == [];
  }

  lemma DropBrace(body: string, f: string)
    ensures ("{" + (body + "}") + f)[1..] == body + ("}" + f)
  {
  }

  lemma OpenedTrimmed(body: string, f: string)
    requires f == [] || !IsWhitespace(f[|f| - 1])
    ensures Trimmed("{" + (body + "}") + f)
  {
  }

  lemma OpenedSlices(body: string, f: string)
    ensures var s := "{" + (body + "}") + f;
            && s != [] && s[0] == '{' && |s| >= 2 && s[..|s|] == s && s[|s|..] == []
            && s[1..|s| - 1] == if f == [] then body else body + ("}" + f[..|f| - 1])
  {
  }

  /** Then the object is read as meant exactly if no field follows it. */
  lemma OpenedObject(m: Message, xs: seq<Member>, fs: seq<Field>)
    requires xs != [] && AllFit(NoPolicy(CpuSection), xs) && DepthAfter(PrintMembers(xs), 1) >= 2
    requires forall i :: 0 <= i < |fs| ==> FieldFits(fs[i])
    ensures ParseObject(m, CpuSection, "{" + (PrintMembers(xs) + "}") + Following(fs)) ==
            if fs == [] then Stored(Store(m, CpuSection, SetMembers(NoPolicy(CpuSection), xs)), [])
            else Refused(NACK_PARSE_ERROR)
  {
    hide PrintMembers, PrintFields, ParseMembers, SetMembers, NoPolicy, Store, Trim, Trimmed, BraceEnd, DepthAfter, AllFit,
      FieldFits;
    var body := PrintMembers(xs);
    var f := Following(fs);
    MembersEdges(xs);
    OpenedText(body, fs);
    OpenedSlices(body, f);
    if fs == [] {
      TrimTrimmed(body);
      MembersBack(NoPolicy(CpuSection), xs);
    } else {
      var n := TrimPastBrace(body, f[..|f| - 1]);
      MembersThenBrace(NoPolicy(CpuSection), xs, f[..|f| - 1][..n]);
    }
  }

  // ----- messages -----

  lemma PrintedFields(fs: seq<Field>)
    requires fs != []
    ensures PrintFields(fs) == PrintField(fs[0]) + Following(fs[1..])
  {
    hide PrintField;
    if |fs| == 1 {
      assert PrintField(fs[0]) + [] == PrintField(fs[0]);
    }
  }

  /** What becomes of a message when its cpu object is next to be read. */
  function AfterCpu(m: Message, r: FieldResult): Outcome {
    match r
    case Stored(q, rest) => ParseFields(NextMember(rest), q, true)
    case Refused(ack) => Done(ack, m)
    case FieldThrew => Throws
    case FieldUndefined => Undefined
  }

  lemma CpuField(m: Message, xs: seq<Member>, after: string)
    ensures ParseFields(PrintField(Object(CpuSection, xs)) + after, m, true) ==
            AfterCpu(m, ParseObject(m, CpuSection, "{" + (PrintMembers(xs) + "}") + after))
  {
    hide ParseObject, PrintMembers, NextMember, ParseKey;
    var value := "{" + (PrintMembers(xs) + "}");
    assert NoQuotes("cpu");
    KeyBack("cpu", value + after);
    assert PrintField(Object(CpuSection, xs)) + after == Quoted("cpu") + (":" + (value + after));
  }

  /** Reading a printed message with a pid and a cpu object comes down to reading that object. */
  lemma CpuDecides(pid: int, xs: seq<Member>, fs: seq<Field>)
    requires 0 < pid <= INT64_MAX && |Print([Pid(pid), Object(CpuSection, xs)] + fs)| <= MAX_PAYLOAD_SIZE
    ensures var m := EMPTY.(pid := Int32(pid));
            ParseGovApply(Print([Pid(pid), Object(CpuSection, xs)] + fs)) ==
            AfterCpu(m, ParseObject(m, CpuSection, "{" + (PrintMembers(xs) + "}") + Following(fs)))
  {
    hide AfterCpu, ParseObject, PrintMembers, PrintField, PrintFields, ParseFields, Print, ParseGovApply, Int32;
    var f, c := Pid(pid), Object(CpuSection, xs);
    var all := [f, c] + fs;
    assert all[1..] == [c] + fs && ([c] + fs)[1..] == fs;
    PrintedText(all);
    PrintedFields(all);
    PrintedFields([c] + fs);
    FieldsEdges([c] + fs);
    FieldsStep(EMPTY, f, "," + PrintFields([c] + fs), false);
    AfterComma(PrintFields([c] + fs));
    CpuField(EMPTY.(pid := Int32(pid)), xs, Following(fs));
  }

  /** The fields that the documentation lists after cpu. */
  function OtherFields(m: Message): seq<Field> {
    Objects(MemSection, m.mem) + (Objects(PidsSection, m.pids) + (Objects(RlimSection, m.rlim) +
    (if m.oomScoreAdj.Some? then [OomScoreAdj(m.oomScoreAdj.value)] else [])))
  }

  /** Nothing of the message is printed after the cpu object. */
  predicate CpuIsLast(m: Message) {
    m.mem.None? && m.pids.None? && m.rlim.None? && m.oomScoreAdj.None?
  }

  /** The affinity text has all its escapes closed, closes no brace but its own, and closes all of its own unless the cpu
      object comes last. */
  predicate TextSurvives(m: Message) {
    m.cpu.Some? && m.cpu.value.Cpu? && m.cpu.value.affinity.Some? ==>
      var text := m.cpu.value.affinity.value;
      EscapesClosed(text) && (BracesBalanced(text) || (DepthAfter(text, 1) > 1 && CpuIsLast(m)))
  }

  lemma OtherFieldsFit(m: Message)
    requires MessageOk(m) && m.pid > 0
    ensures forall i :: 0 <= i < |OtherFields(m)| ==> FieldFits(OtherFields(m)[i])
    ensures OtherFields(m) == [] <==> CpuIsLast(m)
  {
    hide FieldFits, PolicyOk, MembersOf;
    var others := m.(cpu := None);
    FieldsFit(others);
    assert FieldsOf(others) == [Pid(m.pid)] + OtherFields(m);
    assert forall i :: 0 <= i < |OtherFields(m)| ==> FieldsOf(others)[i + 1] == OtherFields(m)[i];
  }

  lemma FieldsWithCpu(m: Message)
    requires m.cpu.Some?
    ensures FieldsOf(m) == [Pid(m.pid), Object(CpuSection, MembersOf(m.cpu.value))] + OtherFields(m)
  {
    hide MembersOf;
  }

  /** The members of a cpu object after its affinity text. */
  function MoreMembers(p: Policy): seq<Member>
    requires p.Cpu?
  {
    Opt(p.nice, n => Nice(n)) + Opt(p.maxPct, n => MaxPct(n))
  }

  lemma AffinityFirst(p: Policy)
    requires p.Cpu? && p.affinity.Some?
    ensures MembersOf(p) == [Affinity(p.affinity.value)] + MoreMembers(p)
  {
    hide Opt;
  }

  lemma AffinityText(text: string)
    ensures PrintMember(Affinity(text)) == OPENING + text + "\""
  {
  }

  lemma PrintedCons(x: Member, more: seq<Member>)
    ensures PrintMembers([x] + more) == PrintMember(x) + if more == [] then [] else "," + PrintMembers(more)
  {
    hide PrintMember;
    assert ([x] + more)[1..] == more;
    assert more == [] ==> PrintMember(x) + [] == PrintMember(x);
  }

  /** The printed form of a cpu object's members, up to and after the affinity text. */
  lemma MembersText(p: Policy)
    requires p.Cpu? && p.affinity.Some?
    ensures var more := MoreMembers(p);
            && MembersOf(p) == [Affinity(p.affinity.value)] + more
            && PrintMembers(MembersOf(p)) ==
               OPENING + p.affinity.value + ("\"" + if more == [] then [] else "," + PrintMembers(more))
  {
    AffinityFirst(p);
    AffinityText(p.affinity.value);
    PrintedCons(Affinity(p.affinity.value), MoreMembers(p));
    hide MembersOf, MoreMembers, PrintMembers, PrintMember;
  }

  lemma MembersDepth(p: Policy)
    requires p.Cpu? && p.affinity.Some? && PolicyOk(p) && DepthAfter(p.affinity.value, 1) >= 1
    ensures DepthAfter(PrintMembers(MembersOf(p)), 1) == DepthAfter(p.affinity.value, 1)
  {
    hide DepthAfter, PolicyOk, MembersOf, PrintMembers, MoreMembers;
    var more := MoreMembers(p);
    MembersText(p);
    RestBalanced(p);
    TextDepth(p.affinity.value, "\"" + if more == [] then [] else "," + PrintMembers(more));
  }

  lemma RestBalanced(p: Policy)
    requires p.Cpu? && PolicyOk(p)
    ensures var more := MoreMembers(p); BracesBalanced("\"" + if more == [] then [] else "," + PrintMembers(more))
  {
    hide DepthAfter, PrintMembers, MoreMembers, AllFit, AllBalanced, PolicyOk, MemberFits;
    var more := MoreMembers(p);
    MoreFit(p);
    MembersBalanced(NoPolicy(CpuSection), more);
    QuoteBalanced(PrintMembers(more));
  }

  lemma QuoteBalanced(more: string)
    requires BracesBalanced(more)
    ensures BracesBalanced("\"" + ("," + more)) && BracesBalanced("\"" + [])
  {
    hide DepthAfter;
    NoBracesDepth("\"" + [], 1);
    NoBracesDepth("\",", 1);
    BalancedConcat("\",", more);
    ConcatAssoc("\"", ",", more);
    assert "\"" + "," == "\",";
  }

  lemma TextDepth(text: string, rest: string)
    requires DepthAfter(text, 1) >= 1 && BracesBalanced(rest)
    ensures DepthAfter(OPENING + text + rest, 1) == DepthAfter(text, 1)
  {
    OpeningIs();
    NoBracesDepth(OPENING, 1);
    hide DepthAfter;
    DeeperStaysOpen(rest, 1, DepthAfter(text, 1) - 1);
    DepthConcat(OPENING, text, 1);
    DepthConcat(OPENING + text, rest, 1);
  }

  lemma MoreFit(p: Policy)
    requires p.Cpu? && PolicyOk(p)
    ensures AllFit(NoPolicy(CpuSection), MoreMembers(p)) && AllBalanced(MoreMembers(p))
  {
    var others := p.(affinity := None);
    CpuFits(others);
    assert MembersOf(others) == MoreMembers(p) by { hide Opt; }
  }

  /** A closed text that closes a brace too many: the message is refused. */
  lemma CutMessage(m: Message)
    requires MessageOk(m) && m.pid > 0 && |Print(FieldsOf(m))| <= MAX_PAYLOAD_SIZE
    requires m.cpu.Some? && m.cpu.value.affinity.Some?
    requires EscapesClosed(m.cpu.value.affinity.value) && DepthAfter(m.cpu.value.affinity.value, 1) == 0
    ensures ParseGovApply(Print(FieldsOf(m))) == Done(NACK_PARSE_ERROR, EMPTY.(pid := m.pid))
  {
    var p := m.cpu.value;
    var more := MoreMembers(p);
    var rest := "\"" + if more == [] then [] else "," + PrintMembers(more);
    MembersText(p);
    FieldsWithCpu(m);
    hide EscapesClosed, DepthAfter, PolicyOk, Print, FieldsOf, MembersOf, MoreMembers, PrintMembers, ParseObject, OtherFields,
      ParseGovApply;
    CpuDecides(m.pid, MembersOf(p), OtherFields(m));
    CutObject(EMPTY.(pid := Int32(m.pid)), p.affinity.value, rest + ("}" + Following(OtherFields(m))));
    Regroup(OPENING + p.affinity.value, rest, Following(OtherFields(m)));
  }

  lemma Regroup(a: string, b: string, c: string)
    ensures "{" + a + (b + ("}" + c)) == "{" + (a + b + "}") + c
  {
  }

  /** A closed text that leaves a brace open: the message comes back if nothing follows, and is refused otherwise. */
  lemma OpenedMessage(m: Message)
    requires MessageOk(m) && m.pid > 0 && |Print(FieldsOf(m))| <= MAX_PAYLOAD_SIZE
    requires m.cpu.Some? && m.cpu.value.affinity.Some?
    requires EscapesClosed(m.cpu.value.affinity.value) && DepthAfter(m.cpu.value.affinity.value, 1) > 1
    ensures ParseGovApply(Print(FieldsOf(m))) ==
            if CpuIsLast(m) then Done(ACK, m) else Done(NACK_PARSE_ERROR, EMPTY.(pid := m.pid))
  {
    var p := m.cpu.value;
    assert SameKind(NoPolicy(CpuSection), p) && PolicyOk(p);
    hide EscapesClosed, DepthAfter, PolicyOk, Print, FieldsOf, MembersOf, MoreMembers, PrintMembers, ParseObject, OtherFields,
      SetMembers, AllFit, FieldFits, ParseGovApply, NoPolicy;
    MembersText(p);
    MembersDepth(p);
    FieldsWithCpu(m);
    CpuFits(p);
    OtherFieldsFit(m);
    MembersRestore(CpuSection, p);
    CpuDecides(m.pid, MembersOf(p), OtherFields(m));
    OpenedObject(EMPTY.(pid := Int32(m.pid)), MembersOf(p), OtherFields(m));
  }

  /** Which messages come back as they were sent: those whose affinity text survives, and no others. */
  lemma RoundTripIff(m: Message)
    requires MessageOk(m) && m.pid > 0 && |Print(FieldsOf(m))| <= MAX_PAYLOAD_SIZE
    ensures ParseGovApply(Print(FieldsOf(m))) == Done(ACK, m) <==> TextSurvives(m)
  {
    hide EscapesClosed, DepthAfter, PolicyOk, Print, FieldsOf, ParseGovApply;
    if m.cpu.Some? && m.cpu.value.affinity.Some? {
      var text := m.cpu.value.affinity.value;
      if !EscapesClosed(text) {
        ParsedTextIsClosed(Print(FieldsOf(m)));
      } else if DepthAfter(text, 1) == 0 {
        CutMessage(m);
      } else if DepthAfter(text, 1) > 1 {
        OpenedMessage(m);
      } else {
        MessageRoundTrip(m);
      }
    } else {
      MessageRoundTrip(m);
    }
  }

  /** Texts without quotes, backslashes and braces survive in every message. */
  lemma PlainTextSurvives(text: string)
    requires NoQuotes(text) && NoBraces(text)
    ensures EscapesClosed(text) && BracesBalanced(text)
  {
    QuoteEndOf(text, 0);
    EscapesClosedIff(text);
    NoBracesDepth(text, 1);
  }
}
