/** Which payloads the parser accepts, which make it throw, and which take it into an operation that C++ leaves undefined:
    exactly, by what stands at the place where reading stops, and by what any caller can look for beforehand. */
module GovRuleFaults {
  import opened Wrappers
  import opened Sequences
  import opened Decimal
  import opened GovRule
  import opened GovRulePrinter

  predicate Blank(s: string) {
    forall i :: 0 <= i < |s| ==> s[i] == ' ' || s[i] == '\t' || s[i] == '\n' || s[i] == '\r'
  }

  lemma {:induction false} SkipBlank(s: string)
    ensures SkipWhitespace(s) == [] <==> Blank(s)
    ensures IsSuffix(SkipWhitespace(s), s)
  {
    if s != [] && IsWhitespace(s[0]) {
      SkipBlank(s[1..]);
      assert Blank(s) <==> Blank(s[1..]) by { assert forall i :: 0 < i < |s| ==> s[i] == s[1..][i - 1]; }
    }
  }

  lemma {:induction false} TrimEndIs(s: string) returns (k: nat)
    ensures k <= |s| && TrimEnd(s) == s[..k] && Blank(s[k..])
    ensures k > 0 ==> !IsWhitespace(s[k - 1])
    ensures forall i :: k <= i < |s| ==> IsWhitespace(s[i])
  {
    if s != [] && IsWhitespace(s[|s| - 1]) {
      k := TrimEndIs(s[..|s| - 1]);
      assert s[..|s| - 1][..k] == s[..k];
      assert s[k..] == s[..|s| - 1][k..] + [s[|s| - 1]];
    } else {
      k := |s|;
    }
  }

  lemma TrimBlank(s: string)
    ensures Trim(s) == [] <==> Blank(s)
  {
    var k := TrimEndIs(s);
    SkipBlank(s[..k]);
    if k > 0 {
      assert s[..k][k - 1] == s[k - 1];
    } else {
      assert s[0..] == s && s[..0] == [];
    }
  }

  /** An opening brace followed by nothing but white space is all that trimming leaves of it. */
  lemma TrimOpen(s: string)
    requires s != [] && s[0] == '{'
    ensures |Trim(s)| < 2 <==> Blank(s[1..])
  {
    var k := TrimEndIs(s);
    assert Trim(s) == s[..k];
    if k > 1 {
      assert s[1..][k - 2] == s[k - 1];
    } else {
      assert s[k..] == s[1..];
    }
  }

  lemma {:induction false} BraceEndOpen(s: string, i: nat, depth: nat)
    requires i <= |s| && depth > 0 && Blank(s[i..])
    ensures BraceEnd(s, i, depth) == |s|
    decreases |s| - i
  {
    if i < |s| {
      assert s[i..][0] == s[i];
      assert s[i..][1..] == s[i + 1..];
      BraceEndOpen(s, i + 1, depth);
    }
  }

  lemma {:induction false} BraceEndShort(s: string, i: nat, depth: nat)
    requires i <= |s| && depth > 0
    ensures var end := BraceEnd(s, i, depth); end == |s| || (end > i && s[end - 1] == '}')
    ensures i < |s| ==> BraceEnd(s, i, depth) > i
    decreases |s| - i
  {
    if i < |s| {
      var next := if s[i] == '{' then depth + 1 else if s[i] == '}' then depth - 1 else depth;
      if next > 0 && i + 1 < |s| {
        BraceEndShort(s, i + 1, next);
      }
    }
  }

  /** An object is too short to have its braces taken off exactly if nothing but white space follows its opening brace. */
  lemma OpenObject(s: string)
    requires s != [] && s[0] == '{'
    ensures |Trim(s[..BraceEnd(s, 1, 1)])| < 2 <==> Blank(s[1..])
  {
    var end := BraceEnd(s, 1, 1);
    if Blank(s[1..]) {
      BraceEndOpen(s, 1, 1);
      assert s[..|s|] == s;
      TrimOpen(s);
    } else {
      BraceEndShort(s, 1, 1);
      TrimOpen(s[..end]);
      if end == |s| {
        assert s[..|s|] == s;
      } else {
        assert s[..end][1..][end - 2] == '}';
      }
    }
  }

  // ----- where reading stops -----

  /** Where the next member starts, if the first one is read. */
  function MemberRead(s: string, section: Section): (r: Option<string>)
    ensures r.Some? ==> |r.value| < |s|
  {
    match ParseKey(s)
    case None => None
    case Some((key, t)) =>
      match ParseMember(NoPolicy(section), key, t)
      case Next(_, rest) => Some(NextMember(rest))
      case _ => None
  }

  /** What is left of an object's text at the first member that is not read, or nothing. */
  function StopMember(s: string, section: Section): string
    decreases |s|
  {
    match MemberRead(s, section)
    case None => s
    case Some(next) => StopMember(next, section)
  }

  /** The key of the first field and where the next one starts, if the first one is read. */
  function FieldRead(s: string): (r: Option<(string, string)>)
    ensures r.Some? ==> |r.value.1| < |s|
  {
    match ParseKey(s)
    case None => None
    case Some((key, t)) =>
      match ParseField(EMPTY, key, t)
      case Stored(_, rest) => Some((key, NextMember(rest)))
      case _ => None
  }

  /** What is left of the message at the first field that is not read, or nothing. */
  function StopField(s: string): string
    decreases |s|
  {
    match FieldRead(s)
    case None => s
    case Some((_, next)) => StopField(next)
  }

  /** The keys of the fields read before that. */
  function KeysRead(s: string): seq<string>
    decreases |s|
  {
    match FieldRead(s)
    case None => []
    case Some((key, next)) => [key] + KeysRead(next)
  }

  /** The value of this member is a number that does not fit in 64 bits. */
  predicate HugeMember(s: string, section: Section) {
    match ParseKey(s)
    case None => false
    case Some((key, t)) =>
      if section.CpuSection? && key == "nice" then ParseInt(t).TooBig?
      else key in NumericKeys(section) && ParseUint(t).TooBig?
  }

  function NumericKeys(section: Section): set<string> {
    match section
    case CpuSection => {"max_pct"}
    case MemSection => {"max_bytes"}
    case PidsSection => {"max"}
    case RlimSection => {"nofile_soft", "nofile_hard", "core_soft", "core_hard"}
  }

  /** The text between the braces of the object that s begins with. */
  function ObjectBody(s: string): string
    requires s != [] && s[0] == '{' && !Blank(s[1..])
  {
    OpenObject(s);
    var braced := Trim(s[..BraceEnd(s, 1, 1)]);
    Trim(braced[1..|braced| - 1])
  }

  /** The value of this field is such a number, or an object whose members can be read up to one. */
  predicate HugeField(s: string) {
    match ParseKey(s)
    case None => false
    case Some((key, t)) =>
      if key == "pid" || key == "oom_score_adj" then ParseInt(t).TooBig?
      else
        && SectionOf(key).Some? && t != [] && t[0] == '{' && !Blank(t[1..])
        && HugeMember(StopMember(ObjectBody(t), SectionOf(key).value), SectionOf(key).value)
  }

  /** This field is an object of which nothing follows the opening brace. */
  predicate OpenField(s: string) {
    match ParseKey(s)
    case None => false
    case Some((key, t)) => SectionOf(key).Some? && t != [] && t[0] == '{' && Blank(t[1..])
  }

  /** Trimmed, the payload is a pair of braces around something. */
  predicate Enclosed(payload: string) {
    var s := Trim(payload);
    |s| >= 2 && s[0] == '{' && s[|s| - 1] == '}'
  }

  function Inner(payload: string): string
    requires Enclosed(payload)
  {
    var s := Trim(payload);
    Trim(s[1..|s| - 1])
  }

  // ----- the outcomes -----

  /** Whether and how far a member is read depends only on the kind of object it is in. */
  lemma MemberKind(p: Policy, section: Section, key: string, s: string)
    requires SameKind(NoPolicy(section), p)
    ensures var r := ParseMember(p, key, s);
            var q := ParseMember(NoPolicy(section), key, s);
            && r.Next? == q.Next? && r.Threw? == q.Threw?
            && (r.Next? ==> r.rest == q.rest && SameKind(NoPolicy(section), r.acc))
            && (r.Threw? <==> if section.CpuSection? && key == "nice" then ParseInt(s).TooBig?
                              else key in NumericKeys(section) && ParseUint(s).TooBig?)
  {
    hide ParseQuoted, ParseInt, ParseUint;
  }

  lemma {:induction false} MembersThrow(s: string, p: Policy, section: Section)
    requires SameKind(NoPolicy(section), p)
    ensures ParseMembers(s, p).PolicyThrew? <==> HugeMember(StopMember(s, section), section)
    ensures ParseMembers(s, p).Parsed? <==> StopMember(s, section) == []
    decreases |s|
  {
    hide SameKind, ParseMember, NextMember, NumericKeys, ParseInt, ParseUint;
    if ParseKey(s).Some? {
      var (key, t) := ParseKey(s).value;
      MemberKind(p, section, key, t);
      var step := ParseMember(p, key, t);
      if step.Next? {
        MembersThrow(NextMember(step.rest), step.acc, section);
      }
    }
  }

  lemma FieldOutcome(m: Message, s: string, key: string, t: string)
    requires ParseKey(s) == Some((key, t))
    ensures var r := ParseField(m, key, t);
            var q := ParseField(EMPTY, key, t);
            && r.Stored? == q.Stored? && (r.Stored? ==> r.rest == q.rest)
            && (r.FieldThrew? <==> HugeField(s)) && (r.FieldUndefined? <==> OpenField(s))
  {
    hide ParseInt, ParseKey, ParseMembers, StopMember, HugeMember, BraceEnd, Trim, Blank;
    if key != "pid" && key != "oom_score_adj" && SectionOf(key).Some? && t != [] && t[0] == '{' {
      OpenObject(t);
      if !Blank(t[1..]) {
        MembersThrow(ObjectBody(t), NoPolicy(SectionOf(key).value), SectionOf(key).value);
      }
    }
  }

  lemma {:induction false} FieldsOutcome(s: string, m: Message, hasPid: bool)
    ensures var r := ParseFields(s, m, hasPid);
            var stop := StopField(s);
            && (r == Throws <==> HugeField(stop)) && (r == Undefined <==> OpenField(stop))
            && (r.Done? && r.ack == ACK <==> stop == [] && (hasPid || "pid" in KeysRead(s)))
    decreases |s|
  {
    hide ParseField, NextMember, HugeField, OpenField;
    NothingThere();
    if ParseKey(s).Some? {
      var (key, t) := ParseKey(s).value;
      FieldOutcome(m, s, key, t);
      var r := ParseField(m, key, t);
      if r.Stored? {
        FieldsOutcome(NextMember(r.rest), r.msg, hasPid || key == "pid");
      } else {
        RefusalIsNoAck(m, key, t);
      }
    } else {
      NoFieldThere(s);
    }
  }

  lemma NothingThere()
    ensures ParseKey([]).None? && !HugeField([]) && !OpenField([])
  {
  }

  lemma NoFieldThere(s: string)
    requires ParseKey(s).None?
    ensures !HugeField(s) && !OpenField(s)
  {
  }

  lemma RefusalIsNoAck(m: Message, key: string, s: string)
    ensures ParseField(m, key, s).Refused? ==> ParseField(m, key, s).ack != ACK
  {
    hide ParseInt, ParseMembers, BraceEnd, Trim;
    if SectionOf(key).Some? && s != [] && s[0] == '{' {
      var braced := Trim(s[..BraceEnd(s, 1, 1)]);
      if |braced| >= 2 {
        FailureIsNoAck(Trim(braced[1..|braced| - 1]), NoPolicy(SectionOf(key).value));
      }
    }
  }

  lemma {:induction false} FailureIsNoAck(s: string, p: Policy)
    ensures ParseMembers(s, p).Failed? ==> ParseMembers(s, p).ack != ACK
    decreases |s|
  {
    hide ParseInt, ParseUint, ParseQuoted, NextMember;
    if s != [] && ParseKey(s).Some? {
      var (key, t) := ParseKey(s).value;
      var step := ParseMember(p, key, t);
      if step.Next? {
        FailureIsNoAck(NextMember(step.rest), step.acc);
      }
    }
  }

  /** Every payload: it is accepted exactly if all its fields are read and a pid is among them; the parser throws exactly if
      the first field it does not read has, or contains as its first unread member, a number of more than 64 bits; and it
      goes wrong exactly on a blank payload and on one whose first unread field is an object that is only opened. */
  lemma OutcomeIff(payload: string)
    ensures var r := ParseGovApply(payload);
            var sized := 0 < |payload| <= MAX_PAYLOAD_SIZE;
            && (r.Done? && r.ack == ACK <==>
                  sized && Enclosed(payload) && StopField(Inner(payload)) == [] && "pid" in KeysRead(Inner(payload)))
            && (r == Throws <==> sized && Enclosed(payload) && HugeField(StopField(Inner(payload))))
            && (r == Undefined <==>
                  sized && (Blank(payload) || (Enclosed(payload) && OpenField(StopField(Inner(payload))))))
  {
    hide ParseFields, StopField, HugeField, OpenField, KeysRead, Trim;
    TrimBlank(payload);
    if Enclosed(payload) {
      FieldsOutcome(Inner(payload), EMPTY, false);
    }
  }

  // ----- what a caller can look for beforehand -----

  /** Nothing for trim to remove at the end. */
  ghost predicate EndTrimmed(s: string) {
    s != [] ==> !IsWhitespace(s[|s| - 1])
  }

  lemma TrimIsEndTrimmed(s: string)
    ensures EndTrimmed(Trim(s))
  {
    var k := TrimEndIs(s);
    SkipBlank(s[..k]);
  }

  lemma QuotedRest(s: string)
    ensures ParseQuoted(s).Some? ==> IsSuffix(ParseQuoted(s).value.1, s)
  {
    SkipBlank(s);
  }

  lemma KeyRest(s: string)
    ensures ParseKey(s).Some? ==> IsSuffix(ParseKey(s).value.1, s)
  {
    if ParseKey(s).Some? {
      var t := ParseQuoted(s).value.1;
      QuotedRest(s);
      SkipBlank(t);
      SuffixTrans(SkipWhitespace(t)[1..], t, s);
    }
  }

  lemma IntRest(s: string)
    ensures ParseInt(s).Number? ==> IsSuffix(ParseInt(s).rest, s)
  {
    hide Value;
    SkipBlank(s);
  }

  lemma NumberRest(s: string)
    ensures ParseInt(s).Number? ==> IsSuffix(ParseInt(s).rest, s)
    ensures ParseUint(s).Number? ==> IsSuffix(ParseUint(s).rest, s)
  {
    IntRest(s);
    hide Value, ParseInt;
    SkipBlank(s);
  }

  lemma NextRest(s: string)
    requires EndTrimmed(s)
    ensures IsSuffix(NextMember(s), s)
  {
    SkipBlank(s);
    var t := SkipWhitespace(s);
    if t != [] && t[0] == ',' {
      SkipBlank(t[1..]);
      assert TrimEnd(t[1..]) == t[1..];
      SuffixTrans(Trim(t[1..]), t[1..], s);
    }
  }

  lemma FieldRest(key: string, s: string)
    ensures ParseField(EMPTY, key, s).Stored? ==> IsSuffix(ParseField(EMPTY, key, s).rest, s)
  {
    hide ParseInt, ParseMembers, BraceEnd, Trim, IsSuffix;
    NumberRest(s);
    if ParseField(EMPTY, key, s).Stored? && SectionOf(key).Some? && s != [] && s[0] == '{' {
      DropIsSuffix(s, BraceEnd(s, 1, 1));
    }
  }

  lemma DropIsSuffix(s: string, i: nat)
    requires i <= |s|
    ensures IsSuffix(s[i..], s)
  {
    assert s[0..] == s;
  }

  lemma SuffixEndTrimmed(a: string, s: string)
    requires IsSuffix(a, s) && EndTrimmed(s)
    ensures EndTrimmed(a)
  {
  }

  lemma FieldReadSuffix(s: string)
    requires EndTrimmed(s) && FieldRead(s).Some?
    ensures IsSuffix(FieldRead(s).value.1, s) && EndTrimmed(FieldRead(s).value.1)
  {
    hide ParseField, NextMember, ParseKey, EndTrimmed, IsSuffix;
    var (key, t) := ParseKey(s).value;
    var rest := ParseField(EMPTY, key, t).rest;
    KeyRest(s);
    FieldRest(key, t);
    SuffixTrans(rest, t, s);
    SuffixEndTrimmed(rest, s);
    NextRest(rest);
    SuffixTrans(NextMember(rest), rest, s);
    SuffixEndTrimmed(NextMember(rest), s);
  }

  lemma {:induction false} StopIsSuffix(s: string)
    requires EndTrimmed(s)
    ensures IsSuffix(StopField(s), s)
    decreases |s|
  {
    hide FieldRead, EndTrimmed, IsSuffix;
    if FieldRead(s).Some? {
      var next := FieldRead(s).value.1;
      FieldReadSuffix(s);
      StopIsSuffix(next);
      SuffixTrans(StopField(next), next, s);
    } else {
      DropIsSuffix(s, 0);
    }
  }

  /** A payload that is not blank and does not end, inside its braces, in an opening brace is never undefined. */
  lemma UndefinedNeedsBrace(payload: string)
    requires ParseGovApply(payload) == Undefined && !Blank(payload)
    ensures Enclosed(payload) && Inner(payload) != [] && Inner(payload)[|Inner(payload)| - 1] == '{'
  {
    OutcomeIff(payload);
    var s := Inner(payload);
    TrimIsEndTrimmed(Trim(payload)[1..|Trim(payload)| - 1]);
    StopIsSuffix(s);
    var stop := StopField(s);
    var (key, t) := ParseKey(stop).value;
    KeyRest(stop);
    hide ParseKey, StopField, Trim;
    SuffixTrans(t, stop, s);
    assert t[|t| - 1] == s[|s| - 1];
  }

  ghost predicate DigitsAt(s: string, i: nat, n: nat) {
    i + n <= |s| && AllDigits(s[i..i + n])
  }

  /** Somewhere in the text there are n digits in a row. */
  ghost predicate HasDigits(s: string, n: nat) {
    exists i: nat :: DigitsAt(s, i, n)
  }

  lemma SliceOfSlice(s: string, from: nat, to: nat, i: nat, j: nat)
    requires from <= to <= |s| && i <= j <= to - from
    ensures s[from..to][i..j] == s[from + i..from + j]
  {
    assert forall k :: 0 <= k < j - i ==> s[from..to][i..j][k] == s[from + i..from + j][k];
  }

  lemma DigitsInPart(s: string, from: nat, to: nat, n: nat)
    requires from <= to <= |s| && HasDigits(s[from..to], n)
    ensures HasDigits(s, n)
  {
    var i: nat :| DigitsAt(s[from..to], i, n);
    SliceOfSlice(s, from, to, i, i + n);
    assert DigitsAt(s, from + i, n);
  }

  lemma DigitsInSuffix(a: string, s: string, n: nat)
    requires IsSuffix(a, s) && HasDigits(a, n)
    ensures HasDigits(s, n)
  {
    assert s[|s| - |a|..|s|] == a;
    DigitsInPart(s, |s| - |a|, |s|, n);
  }

  lemma DigitsInTrim(s: string, n: nat)
    requires HasDigits(Trim(s), n)
    ensures HasDigits(s, n)
  {
    var k := TrimEndIs(s);
    SkipBlank(s[..k]);
    DigitsInSuffix(Trim(s), s[..k], n);
    DigitsInPart(s, 0, k, n);
  }

  lemma {:induction false} ValueBelow(d: string)
    requires AllDigits(d)
    ensures Value(d) < Pow10(|d|)
  {
    if d != [] {
      ValueBelow(d[..|d| - 1]);
    }
  }

  lemma {:induction false} PowGrows(a: nat, b: nat)
    requires a <= b
    ensures Pow10(a) <= Pow10(b)
  {
    if a < b {
      PowGrows(a, b - 1);
    }
  }

  lemma ManyDigits(u: string, k: nat)
    requires k <= |u| && AllDigits(u[..k]) && Value(u[..k]) >= INT64_MAX
    ensures HasDigits(u, 19)
  {
    ValueBelow(u[..k]);
    if k < 19 {
      PowGrows(k, 18);
      PowerOf18();
    }
    assert u[0..0 + 19] == u[..k][..19];
    assert DigitsAt(u, 0, 19);
  }

  lemma PowerOf18()
    ensures Pow10(18) == 1_000_000_000_000_000_000
  {
    assert Pow10(6) == 1_000_000;
    assert Pow10(12) == 1_000_000_000_000;
  }

  lemma HugeIntHasDigits(s: string)
    requires ParseInt(s).TooBig?
    ensures HasDigits(s, 19)
  {
    SkipBlank(s);
    var t := SkipWhitespace(s);
    var u := if t[0] == '-' then t[1..] else t;
    var k := LeadingDigits(u);
    ManyDigits(u, k);
    DigitsInSuffix(u, s, 19);
  }

  lemma HugeUintHasDigits(s: string)
    requires ParseUint(s).TooBig?
    ensures HasDigits(s, 19)
  {
    SkipBlank(s);
    var t := SkipWhitespace(s);
    var k := LeadingDigits(t);
    ManyDigits(t, k);
    DigitsInSuffix(t, s, 19);
  }

  lemma MemberRest(section: Section, key: string, s: string)
    ensures var r := ParseMember(NoPolicy(section), key, s); r.Next? ==> IsSuffix(r.rest, s)
  {
    hide ParseQuoted, ParseInt, ParseUint, IsSuffix;
    QuotedRest(s);
    NumberRest(s);
  }

  lemma MemberReadSuffix(s: string, section: Section)
    requires EndTrimmed(s) && MemberRead(s, section).Some?
    ensures IsSuffix(MemberRead(s, section).value, s) && EndTrimmed(MemberRead(s, section).value)
  {
    hide ParseMember, NextMember, ParseKey, EndTrimmed, IsSuffix;
    var (key, t) := ParseKey(s).value;
    var rest := ParseMember(NoPolicy(section), key, t).rest;
    KeyRest(s);
    MemberRest(section, key, t);
    SuffixTrans(rest, t, s);
    SuffixEndTrimmed(rest, s);
    NextRest(rest);
    SuffixTrans(NextMember(rest), rest, s);
    SuffixEndTrimmed(NextMember(rest), s);
  }

  lemma {:induction false} StopMemberIsSuffix(s: string, section: Section)
    requires EndTrimmed(s)
    ensures IsSuffix(StopMember(s, section), s)
    decreases |s|
  {
    hide MemberRead, EndTrimmed, IsSuffix;
    if MemberRead(s, section).Some? {
      var next := MemberRead(s, section).value;
      MemberReadSuffix(s, section);
      StopMemberIsSuffix(next, section);
      SuffixTrans(StopMember(next, section), next, s);
    } else {
      DropIsSuffix(s, 0);
    }
  }

  lemma DigitsInObject(s: string, n: nat)
    requires s != [] && s[0] == '{' && !Blank(s[1..]) && HasDigits(ObjectBody(s), n)
    ensures HasDigits(s, n)
  {
    OpenObject(s);
    hide Trim, HasDigits;
    var end := BraceEnd(s, 1, 1);
    var braced := Trim(s[..end]);
    DigitsInTrim(braced[1..|braced| - 1], n);
    DigitsInPart(braced, 1, |braced| - 1, n);
    DigitsInTrim(s[..end], n);
    assert s[0..end] == s[..end];
    DigitsInPart(s, 0, end, n);
  }

  lemma HugeMemberHasDigits(s: string, section: Section)
    requires HugeMember(s, section)
    ensures HasDigits(s, 19)
  {
    var (key, t) := ParseKey(s).value;
    KeyRest(s);
    hide ParseKey, ParseInt, ParseUint, HasDigits;
    if section.CpuSection? && key == "nice" {
      HugeIntHasDigits(t);
    } else {
      HugeUintHasDigits(t);
    }
    DigitsInSuffix(t, s, 19);
  }

  lemma HugeFieldHasDigits(s: string)
    requires HugeField(s)
    ensures HasDigits(s, 19)
  {
    var (key, t) := ParseKey(s).value;
    KeyRest(s);
    hide ParseKey, ParseInt, ParseUint, HasDigits, HugeMember, StopMember;
    if key == "pid" || key == "oom_score_adj" {
      HugeIntHasDigits(t);
    } else {
      var section := SectionOf(key).value;
      var body := ObjectBody(t);
      HugeMemberHasDigits(StopMember(body, section), section);
      BodyIsEndTrimmed(t);
      StopMemberIsSuffix(body, section);
      DigitsInSuffix(StopMember(body, section), body, 19);
      DigitsInObject(t, 19);
    }
    DigitsInSuffix(t, s, 19);
  }

  lemma BodyIsEndTrimmed(s: string)
    requires s != [] && s[0] == '{' && !Blank(s[1..])
    ensures EndTrimmed(ObjectBody(s))
  {
    OpenObject(s);
    hide Trim;
    var braced := Trim(s[..BraceEnd(s, 1, 1)]);
    TrimIsEndTrimmed(braced[1..|braced| - 1]);
  }

  /** A payload without 19 digits in a row never makes the parser throw. */
  lemma ThrowNeedsDigits(payload: string)
    requires ParseGovApply(payload) == Throws
    ensures HasDigits(payload, 19)
  {
    OutcomeIff(payload);
    hide ParseGovApply, HugeField, OpenField, HasDigits, StopField, KeysRead, Trim;
    var s := Trim(payload);
    var inner := Inner(payload);
    HugeFieldHasDigits(StopField(inner));
    TrimIsEndTrimmed(s[1..|s| - 1]);
    StopIsSuffix(inner);
    DigitsInSuffix(StopField(inner), inner, 19);
    DigitsInTrim(s[1..|s| - 1], 19);
    DigitsInPart(s, 1, |s| - 1, 19);
    DigitsInTrim(payload, 19);
  }
}
