/** The language of accepted payloads, without reference to the parser: which texts stand for which fields, with white space
    and commas where they may be. */
module GovRuleGrammar {
  import opened Wrappers
  import opened Sequences
  import opened Decimal
  import opened GovRule
  import opened GovRulePrinter
  import opened GovRuleFaults
  import opened GovRuleRoundTrip

  // ----- the language -----

  /** White space, then what the text is about. */
  ghost predicate After(v: string, blank: string, core: string) {
    Blank(blank) && v == blank + core
  }

  ghost predicate SpellsUnsigned(core: string, n: int) {
    core != [] && AllDigits(core) && Value(core) == n
  }

  ghost predicate SpellsSigned(core: string, n: int) {
    SpellsUnsigned(core, n) || (core != [] && core[0] == '-' && SpellsUnsigned(core[1..], -n))
  }

  /** An integer in decimal, with white space before it and any number of leading zeros. */
  ghost predicate Integer(v: string, n: int) {
    exists blank, core :: After(v, blank, core) && SpellsSigned(core, n)
  }

  ghost predicate Unsigned(v: string, n: int) {
    exists blank, core :: After(v, blank, core) && SpellsUnsigned(core, n)
  }

  /** A quoted text with white space before it. */
  ghost predicate QuotedText(v: string, text: string) {
    EscapesClosed(text) && exists blank :: After(v, blank, Quoted(text))
  }

  /** What may stand between two members: white space, with at most one comma. */
  ghost predicate Gap(g: string) {
    Blank(g) || exists i :: CommaAt(g, i)
  }

  ghost predicate CommaAt(g: string, i: nat) {
    i < |g| && Blank(g[..i]) && g[i] == ',' && Blank(g[i + 1..])
  }

  /** s is a key, a colon with white space before it, a value, a gap and the rest. */
  ghost predicate Item(s: string, key: string, blank: string, value: string, gap: string, rest: string) {
    && Blank(blank) && Gap(gap) && (rest != [] ==> rest[0] == '"')
    && s == Quoted(key) + (blank + (":" + (value + (gap + rest))))
  }

  ghost predicate MemberText(x: Member, value: string) {
    match x
    case Affinity(text) => QuotedText(value, text)
    case Nice(n) => Integer(value, n)
    case _ => Unsigned(value, x.n)
  }

  /** The text of an object's members, in order, with repeats. */
  ghost predicate Members(s: string, section: Section, xs: seq<Member>)
    decreases |xs|
  {
    if xs == [] then s == []
    else
      && MemberFits(NoPolicy(section), xs[0])
      && exists blank, value, gap, rest ::
           && Item(s, MemberKey(xs[0]), blank, value, gap, rest) && MemberText(xs[0], value)
           && Members(rest, section, xs[1..])
  }

  /** An object, in braces that are the first to match if quotes are not respected. */
  ghost predicate ClosedObject(value: string, section: Section, xs: seq<Member>) {
    exists body :: value == "{" + (body + "}") && BracesBalanced(body) && Members(Trim(body), section, xs)
  }

  /** An object whose braces never close loses its last character, whatever that is. */
  ghost predicate OpenObjectText(value: string, section: Section, xs: seq<Member>) {
    exists body, last: char ::
      value == "{" + (body + [last]) && DepthAfter(body + [last], 1) >= 1 && Members(Trim(body), section, xs)
  }

  ghost predicate FieldText(f: Field, value: string, last: bool) {
    match f
    case Pid(n) => 0 < n <= INT64_MAX && Integer(value, n)
    case OomScoreAdj(n) => -1000 <= n <= 1000 && Integer(value, n)
    case Object(section, xs) => ClosedObject(value, section, xs) || (last && OpenObjectText(value, section, xs))
  }

  /** The text of a message's fields, in order, with repeats. */
  ghost predicate Fields(s: string, fs: seq<Field>)
    decreases |fs|
  {
    if fs == [] then s == []
    else
      exists blank, value, gap, rest ::
        && Item(s, FieldKey(fs[0]), blank, value, gap, rest) && FieldText(fs[0], value, gap + rest == [])
        && Fields(rest, fs[1..])
  }

  /** The payload is the text of these fields, with a pid among them, in braces and perhaps white space. */
  ghost predicate Stands(payload: string, fs: seq<Field>) {
    0 < |payload| <= 512 && Enclosed(payload) && Fields(Inner(payload), fs) && HasPid(fs)
  }

  // ----- white space -----

  lemma {:induction false} SkipOver(blank: string, rest: string)
    requires Blank(blank) && (rest != [] ==> !IsWhitespace(rest[0]))
    ensures SkipWhitespace(blank + rest) == rest
  {
    if blank == [] {
      assert blank + rest == rest;
    } else {
      assert (blank + rest)[0] == blank[0] && (blank + rest)[1..] == blank[1..] + rest;
      assert Blank(blank[1..]);
      SkipOver(blank[1..], rest);
    }
  }

  lemma {:induction false} SkipIs(s: string) returns (blank: string)
    ensures Blank(blank) && s == blank + SkipWhitespace(s)
  {
    if s != [] && IsWhitespace(s[0]) {
      var more := SkipIs(s[1..]);
      blank := [s[0]] + more;
    } else {
      blank := [];
    }
  }

  lemma {:induction false} TrimEndOver(core: string, blank: string)
    requires Blank(blank) && (core != [] ==> !IsWhitespace(core[|core| - 1]))
    ensures TrimEnd(core + blank) == core
  {
    var s := core + blank;
    if blank == [] {
      assert s == core;
    } else {
      var n := |blank| - 1;
      assert s[|s| - 1] == blank[n] && s[..|s| - 1] == core + blank[..n];
      TrimEndOver(core, blank[..n]);
    }
  }

  lemma TrimsTo(a: string, t: string, b: string)
    requires Blank(a) && Blank(b) && Trimmed(t)
    ensures Trim(a + (t + b)) == t
  {
    if t == [] {
      assert a + (t + b) == a + b;
      assert Blank(a + b);
      TrimBlank(a + b);
    } else {
      assert a + (t + b) == (a + t) + b;
      TrimEndOver(a + t, b);
      SkipOver(a, t);
    }
  }

  /** Trimming removes the white space at both ends, all of it and nothing else. */
  lemma TrimIff(s: string, t: string)
    ensures Trim(s) == t <==> Trimmed(t) && exists a, b :: Blank(a) && Blank(b) && s == a + (t + b)
  {
    forall a, b | Trimmed(t) && Blank(a) && Blank(b) && s == a + (t + b)
      ensures Trim(s) == t
    {
      TrimsTo(a, t, b);
    }
    if Trim(s) == t {
      var k := TrimEndIs(s);
      var a := SkipIs(s[..k]);
      SkipBlank(s[..k]);
      TakeThen(s, k, a, t);
      assert t != [] ==> t[|t| - 1] == s[..k][k - 1];
    }
  }

  lemma TakeThen(s: string, k: nat, a: string, t: string)
    requires k <= |s| && s[..k] == a + t
    ensures s == a + (t + s[k..])
  {
  }

  /** The next member begins after a gap. */
  lemma GapSkipped(gap: string, rest: string)
    requires Gap(gap) && (rest != [] ==> rest[0] == '"') && EndTrimmed(gap + rest)
    ensures NextMember(gap + rest) == rest
  {
    hide SkipWhitespace, TrimEnd, EndTrimmed, Blank;
    if Blank(gap) {
      SkipOver(gap, rest);
    } else {
      var i: nat :| CommaAt(gap, i);
      var u := gap[i + 1..] + rest;
      SplitAtGapComma(gap, i, rest);
      SkipOver(gap[..i], "," + u);
      SuffixOfTrimmed(gap[..i] + ",", u, gap + rest);
      TrimEndNone(u);
      SkipOver(gap[i + 1..], rest);
    }
  }

  lemma SplitAtGapComma(gap: string, i: nat, rest: string)
    requires i < |gap| && gap[i] == ','
    ensures var u := gap[i + 1..] + rest;
            gap + rest == gap[..i] + ("," + u) == gap[..i] + "," + u && ("," + u)[1..] == u
  {
  }

  lemma SuffixOfTrimmed(a: string, b: string, s: string)
    requires s == a + b && EndTrimmed(s)
    ensures EndTrimmed(b)
  {
  }

  lemma TrimEndNone(s: string)
    requires EndTrimmed(s)
    ensures TrimEnd(s) == s
  {
  }

  lemma GapFound(r: string) returns (gap: string)
    requires EndTrimmed(r) && (NextMember(r) != [] ==> NextMember(r)[0] == '"')
    ensures Gap(gap) && r == gap + NextMember(r)
  {
    hide SkipWhitespace, TrimEnd, EndTrimmed;
    var blank := SkipIs(r);
    var t := SkipWhitespace(r);
    if t != [] && t[0] == ',' {
      var u := t[1..];
      assert t == "," + u;
      ConcatAssoc(blank, ",", u);
      SuffixOfTrimmed(blank + ",", u, r);
      TrimEndNone(u);
      var more := SkipIs(u);
      gap := blank + "," + more;
      CommaGap(blank, more);
      ConcatAssoc(blank + ",", more, SkipWhitespace(u));
    } else {
      gap := blank;
    }
  }

  lemma CommaGap(blank: string, more: string)
    requires Blank(blank) && Blank(more)
    ensures Gap(blank + "," + more)
  {
    var gap := blank + "," + more;
    assert gap[..|blank|] == blank && gap[|blank| + 1..] == more;
    assert CommaAt(gap, |blank|);
  }

  // ----- keys and values -----

  lemma KeyAccepted(key: string, blank: string, t: string)
    requires EscapesClosed(key) && Blank(blank)
    ensures ParseKey(Quoted(key) + (blank + (":" + t))) == Some((key, t))
  {
    QuotedBackIff(key, blank + (":" + t));
    SkipOver(blank, ":" + t);
    assert (":" + t)[1..] == t;
    hide ParseQuoted, Quoted, EscapesClosed, SkipWhitespace;
  }

  lemma KeyRead(s: string) returns (blank: string)
    requires s != [] && !IsWhitespace(s[0]) && ParseKey(s).Some?
    ensures Blank(blank) && EscapesClosed(ParseKey(s).value.0)
    ensures s == Quoted(ParseKey(s).value.0) + (blank + (":" + ParseKey(s).value.1))
  {
    var r := QuotedRead(s);
    hide ParseQuoted, EscapesClosed;
    blank := SkipIs(r);
    assert SkipWhitespace(r) == ":" + ParseKey(s).value.1;
  }

  lemma QuotedRead(s: string) returns (rest: string)
    requires s != [] && !IsWhitespace(s[0]) && ParseQuoted(s).Some?
    ensures ParseQuoted(s).value.1 == rest && EscapesClosed(ParseQuoted(s).value.0)
    ensures s == Quoted(ParseQuoted(s).value.0) + rest
  {
    hide EscapesClosed;
    var u := s[1..];
    var end := QuoteEnd(u, 0);
    rest := u[end + 1..];
    ClosedPrefix(u, end);
    hide QuoteEnd;
    QuotedIs(s, u, end);
  }

  lemma QuotedIs(s: string, u: string, end: nat)
    requires s != [] && s[0] == '"' && u == s[1..] && end < |u| && u[end] == '"'
    ensures s == Quoted(u[..end]) + u[end + 1..]
  {
  }

  lemma ClosedPrefix(u: string, end: nat)
    requires end == QuoteEnd(u, 0) < |u|
    ensures EscapesClosed(u[..end])
  {
    assert u == u[..end + 1] + u[end + 1..] && u[..end + 1] == u[..end] + "\"";
    QuoteEndLocal(u[..end + 1], u[end + 1..], 0);
    EscapesClosedIff(u[..end]);
  }

  lemma TextAccepted(v: string, text: string, rest: string)
    requires QuotedText(v, text)
    ensures ParseQuoted(v + rest) == Some((text, rest))
  {
    var blank :| After(v, blank, Quoted(text));
    QuotedBackIff(text, rest);
    SkipOver(blank, Quoted(text) + rest);
    hide ParseQuoted, SkipWhitespace, Quoted, EscapesClosed;
    ConcatAssoc(blank, Quoted(text), rest);
    SkipTwice(v + rest);
  }

  lemma TextRead(t: string) returns (v: string)
    requires ParseQuoted(t).Some?
    ensures t == v + ParseQuoted(t).value.1 && QuotedText(v, ParseQuoted(t).value.0)
  {
    SkipTwice(t);
    QuoteFirst(t);
    hide ParseQuoted, SkipWhitespace, Quoted, EscapesClosed;
    var blank := SkipIs(t);
    var s := SkipWhitespace(t);
    var rest := QuotedRead(s);
    var text := ParseQuoted(s).value.0;
    v := blank + Quoted(text);
    ConcatAssoc(blank, Quoted(text), rest);
    assert After(v, blank, Quoted(text));
  }

  lemma QuoteFirst(t: string)
    ensures ParseQuoted(t).Some? ==> SkipWhitespace(t) != [] && !IsWhitespace(SkipWhitespace(t)[0])
  {
  }

  lemma SkipTwice(t: string)
    ensures SkipWhitespace(SkipWhitespace(t)) == SkipWhitespace(t)
    ensures ParseQuoted(SkipWhitespace(t)) == ParseQuoted(t)
  {
  }

  lemma UnsignedAccepted(v: string, n: int, rest: string)
    requires Unsigned(v, n) && n < TWO_TO_THE_64 && EndsNumber(rest)
    ensures ParseUint(v + rest) == Number(n, rest)
  {
    hide Value, LeadingDigits, SkipWhitespace, EndsNumber;
    var blank, core :| After(v, blank, core) && SpellsUnsigned(core, n);
    ConcatAssoc(blank, core, rest);
    DigitsAccepted(core, n, rest);
    SkipOver(blank, core + rest);
  }

  lemma DigitsAccepted(digits: string, n: int, rest: string)
    requires SpellsUnsigned(digits, n) && EndsNumber(rest)
    ensures var s := digits + rest;
            var k := LeadingDigits(s);
            && k == |digits| > 0 && IsDigit(s[0]) && s[..k] == digits && s[k..] == rest && Value(s[..k]) == n
  {
    hide Value, LeadingDigits, EndsNumber;
    LeadingDigitsOf(digits, rest);
    TakeDrop(digits, rest);
  }

  lemma IntegerAccepted(v: string, n: int, rest: string)
    requires Integer(v, n) && -INT64_MAX - 1 <= n <= INT64_MAX && EndsNumber(rest)
    ensures ParseInt(v + rest) == Number(n, rest)
  {
    hide Value, LeadingDigits, SkipWhitespace, EndsNumber, SpellsUnsigned;
    var blank, core :| After(v, blank, core) && SpellsSigned(core, n);
    ConcatAssoc(blank, core, rest);
    if SpellsUnsigned(core, n) {
      DigitsAccepted(core, n, rest);
      SkipOver(blank, core + rest);
    } else {
      var digits := core[1..];
      DigitsAccepted(digits, -n, rest);
      assert core == "-" + digits;
      ConcatAssoc("-", digits, rest);
      DropMinus(digits + rest);
      SkipOver(blank, core + rest);
    }
  }

  lemma SplitDigits(w: string, k: nat)
    requires k == LeadingDigits(w) > 0
    ensures SpellsUnsigned(w[..k], Value(w[..k])) && EndsNumber(w[k..]) && w == w[..k] + w[k..]
  {
    hide Value;
  }

  lemma UnsignedRead(t: string) returns (v: string)
    requires ParseUint(t).Number?
    ensures t == v + ParseUint(t).rest && Unsigned(v, ParseUint(t).value) && EndsNumber(ParseUint(t).rest)
  {
    hide Value, SpellsUnsigned, EndsNumber;
    var blank := SkipIs(t);
    var u := SkipWhitespace(t);
    var k := LeadingDigits(u);
    SplitDigits(u, k);
    v := blank + u[..k];
    ConcatAssoc(blank, u[..k], u[k..]);
    assert After(v, blank, u[..k]);
  }

  lemma MinusSpelled(digits: string, n: int)
    requires SpellsUnsigned(digits, n)
    ensures SpellsSigned("-" + digits, -n)
  {
    assert ("-" + digits)[1..] == digits;
  }

  lemma IntegerRead(t: string) returns (v: string)
    requires ParseInt(t).Number?
    ensures t == v + ParseInt(t).rest && Integer(v, ParseInt(t).value) && EndsNumber(ParseInt(t).rest)
  {
    hide Value, SpellsUnsigned, EndsNumber;
    var blank := SkipIs(t);
    var u := SkipWhitespace(t);
    var core, rest := SignedRead(u);
    v := blank + core;
    ConcatAssoc(blank, core, rest);
    assert ParseInt(t) == ParseInt(u) by { SkipTwice(t); }
    assert After(v, blank, core);
  }

  lemma SignedRead(u: string) returns (core: string, rest: string)
    requires ParseInt(u).Number? && SkipWhitespace(u) == u
    ensures u == core + rest && rest == ParseInt(u).rest && EndsNumber(rest) && SpellsSigned(core, ParseInt(u).value)
  {
    hide Value, SpellsUnsigned, EndsNumber;
    if u[0] == '-' {
      var w := u[1..];
      var k := LeadingDigits(w);
      SplitDigits(w, k);
      MinusSpelled(w[..k], Value(w[..k]));
      core, rest := "-" + w[..k], w[k..];
      assert u == "-" + w;
      ConcatAssoc("-", w[..k], w[k..]);
    } else {
      var k := LeadingDigits(u);
      SplitDigits(u, k);
      core, rest := u[..k], u[k..];
    }
  }

  // ----- members -----

  lemma QuoteOrComma(gap: string, rest: string)
    requires Gap(gap) && (rest != [] ==> rest[0] == '"')
    ensures EndsNumber(gap + rest)
  {
    if gap != [] && !Blank(gap) {
      var i: nat :| CommaAt(gap, i);
      assert i > 0 ==> gap[..i][0] == gap[0];
    }
  }

  lemma MemberAccepted(p: Policy, section: Section, x: Member, value: string, rest: string)
    requires SameKind(NoPolicy(section), p) && MemberFits(NoPolicy(section), x) && MemberText(x, value) && EndsNumber(rest)
    ensures ParseMember(p, MemberKey(x), value + rest) == Next(SetMember(p, x), rest)
  {
    hide ParseQuoted, ParseInt, ParseUint, Integer, Unsigned, QuotedText, EscapesClosed;
    match x
    case Affinity(text) => TextAccepted(value, text, rest);
    case Nice(n) => IntegerAccepted(value, n, rest);
    case MaxPct(n) => UnsignedAccepted(value, n, rest);
    case MaxBytes(n) => UnsignedAccepted(value, n, rest);
    case MaxPids(n) => UnsignedAccepted(value, n, rest);
    case NofileSoft(n) => UnsignedAccepted(value, n, rest);
    case NofileHard(n) => UnsignedAccepted(value, n, rest);
    case CoreSoft(n) => UnsignedAccepted(value, n, rest);
    case CoreHard(n) => UnsignedAccepted(value, n, rest);
  }

  /** The member that a key and a number, or a text, stand for. */
  function NumberMember(key: string, n: int): Member {
    if key == "nice" then Nice(n)
    else if key == "max_pct" then MaxPct(n)
    else if key == "max_bytes" then MaxBytes(n)
    else if key == "max" then MaxPids(n)
    else if key == "nofile_soft" then NofileSoft(n)
    else if key == "nofile_hard" then NofileHard(n)
    else if key == "core_soft" then CoreSoft(n)
    else CoreHard(n)
  }

  lemma MemberFound(p: Policy, section: Section, key: string, t: string) returns (x: Member, value: string)
    requires SameKind(NoPolicy(section), p) && ParseMember(p, key, t).Next?
    ensures MemberFits(NoPolicy(section), x) && MemberKey(x) == key && MemberText(x, value)
    ensures var r := ParseMember(p, key, t); t == value + r.rest && r.acc == SetMember(p, x)
  {
    hide ParseQuoted, ParseInt, ParseUint, Integer, Unsigned, QuotedText, EscapesClosed, EndsNumber;
    if section.CpuSection? && key == "affinity" {
      value := TextRead(t);
      x := Affinity(ParseQuoted(t).value.0);
      TextReadClosed(t);
    } else if section.CpuSection? && key == "nice" {
      value := IntegerRead(t);
      x := Nice(ParseInt(t).value);
    } else {
      value := UnsignedRead(t);
      x := NumberMember(key, ParseUint(t).value);
    }
  }

  lemma TextReadClosed(t: string)
    requires ParseQuoted(t).Some?
    ensures EscapesClosed(ParseQuoted(t).value.0)
  {
    var v := TextRead(t);
  }

  lemma ItemRest(s: string, key: string, blank: string, value: string, gap: string, rest: string)
    requires Item(s, key, blank, value, gap, rest) && EndTrimmed(s)
    ensures NextMember(gap + rest) == rest && EndTrimmed(rest) && EndsNumber(gap + rest) && |rest| < |s| && s != []
  {
    hide Gap;
    var before := Quoted(key) + blank + ":" + value;
    assert s == before + (gap + rest);
    SuffixOfTrimmed(before, gap + rest, s);
    SuffixOfTrimmed(before + gap, rest, s);
    GapSkipped(gap, rest);
    QuoteOrComma(gap, rest);
  }

  lemma MemberKeyClosed(x: Member)
    ensures EscapesClosed(MemberKey(x))
  {
    MemberKeyPlain(x);
    hide MemberKey;
    QuoteEndOf(MemberKey(x), 0);
    EscapesClosedIff(MemberKey(x));
  }

  lemma SameKindAfter(p: Policy, section: Section, x: Member)
    requires SameKind(NoPolicy(section), p)
    ensures SameKind(NoPolicy(section), SetMember(p, x))
  {
  }

  lemma {:induction false} MembersAccepted(s: string, p: Policy, section: Section, xs: seq<Member>)
    requires Members(s, section, xs) && SameKind(NoPolicy(section), p) && EndTrimmed(s)
    ensures ParseMembers(s, p) == Parsed(SetMembers(p, xs))
    decreases |xs|
  {
    hide SameKind, MemberFits, MemberKey, MemberText, SetMember, ParseKey, ParseMember, NextMember, EndTrimmed, EscapesClosed,
      EndsNumber, Gap, NoPolicy;
    if xs != [] {
      var blank, value, gap, rest :|
        && Item(s, MemberKey(xs[0]), blank, value, gap, rest) && MemberText(xs[0], value) && Members(rest, section, xs[1..]);
      ItemRest(s, MemberKey(xs[0]), blank, value, gap, rest);
      MemberKeyClosed(xs[0]);
      KeyAccepted(MemberKey(xs[0]), blank, value + (gap + rest));
      MemberAccepted(p, section, xs[0], value, gap + rest);
      SameKindAfter(p, section, xs[0]);
      MembersAccepted(rest, SetMember(p, xs[0]), section, xs[1..]);
    }
  }

  lemma NextStarts(r: string)
    ensures NextMember(r) != [] ==> !IsWhitespace(NextMember(r)[0])
  {
  }

  lemma KeyStarts(s: string)
    requires s != [] && !IsWhitespace(s[0]) && ParseKey(s).Some?
    ensures s[0] == '"'
  {
  }

  lemma ItemFound(s: string, value: string, r: string) returns (blank: string, gap: string)
    requires s != [] && !IsWhitespace(s[0]) && EndTrimmed(s) && ParseKey(s).Some? && ParseKey(s).value.1 == value + r
    requires NextMember(r) != [] ==> ParseKey(NextMember(r)).Some?
    ensures Item(s, ParseKey(s).value.0, blank, value, gap, NextMember(r)) && r == gap + NextMember(r)
    ensures EndTrimmed(NextMember(r)) && (NextMember(r) != [] ==> !IsWhitespace(NextMember(r)[0]))
  {
    hide ParseKey, NextMember, Gap, EscapesClosed;
    blank := KeyRead(s);
    var before := Quoted(ParseKey(s).value.0) + blank + ":" + value;
    assert s == before + r;
    SuffixOfTrimmed(before, r, s);
    NextStarts(r);
    if NextMember(r) != [] {
      KeyStarts(NextMember(r));
    }
    gap := GapFound(r);
    SuffixOfTrimmed(gap, NextMember(r), r);
  }

  lemma {:induction false} MembersFound(s: string, p: Policy, section: Section) returns (xs: seq<Member>)
    requires ParseMembers(s, p).Parsed? && SameKind(NoPolicy(section), p)
    requires EndTrimmed(s) && (s != [] ==> !IsWhitespace(s[0]))
    ensures Members(s, section, xs) && ParseMembers(s, p).policy == SetMembers(p, xs)
    decreases |s|
  {
    hide SameKind, MemberFits, MemberKey, MemberText, SetMember, ParseKey, ParseMember, NextMember, EndTrimmed, EscapesClosed,
      IsWhitespace, Item, NoPolicy;
    if s == [] {
      xs := [];
    } else {
      var (key, t) := ParseKey(s).value;
      var step := ParseMember(p, key, t);
      var x, value := MemberFound(p, section, key, t);
      var next := NextMember(step.rest);
      var blank, gap := ItemFound(s, value, step.rest);
      SameKindAfter(p, section, x);
      var more := MembersFound(next, step.acc, section);
      xs := [x] + more;
      assert xs[1..] == more;
      assert Item(s, MemberKey(x), blank, value, gap, next);
    }
  }

  // ----- objects -----

  lemma {:induction false} BraceEndIs(s: string, i: nat, depth: nat)
    requires i <= |s| && depth > 0
    ensures var end := BraceEnd(s, i, depth);
            || (end == |s| && DepthAfter(s[i..], depth) >= 1)
            || (end > i && s[end - 1] == '}' && DepthAfter(s[i..end - 1], depth) == 1)
    decreases |s| - i
  {
    if i < |s| {
      var next := if s[i] == '{' then depth + 1 else if s[i] == '}' then depth - 1 else depth;
      assert s[i..][0] == s[i] && s[i..][1..] == s[i + 1..];
      if next == 0 {
        assert s[i..i] == [];
      } else {
        BraceEndIs(s, i + 1, next);
        var end := BraceEnd(s, i, depth);
        if end > i + 1 {
          assert s[i..end - 1][0] == s[i] && s[i..end - 1][1..] == s[i + 1..end - 1];
        }
      }
    }
  }

  lemma TrimBraced(s: string)
    requires s != [] && s[0] == '{' && EndTrimmed(s)
    ensures Trim(s) == s
  {
    TrimEndNone(s);
  }

  lemma BodyTrimmed(body: string)
    ensures EndTrimmed(Trim(body)) && (Trim(body) != [] ==> !IsWhitespace(Trim(body)[0]))
  {
    TrimIsEndTrimmed(body);
  }

  lemma KindOf(section: Section)
    ensures SameKind(NoPolicy(section), NoPolicy(section))
  {
  }

  lemma ClosedAccepted(m: Message, section: Section, xs: seq<Member>, value: string, rest: string)
    requires ClosedObject(value, section, xs)
    ensures ParseObject(m, section, value + rest) == Stored(Store(m, section, SetMembers(NoPolicy(section), xs)), rest)
  {
    hide Members, ParseMembers, SetMembers, Trim, BraceEnd, BracesBalanced, NoPolicy, Store;
    var body :| value == "{" + (body + "}") && BracesBalanced(body) && Members(Trim(body), section, xs);
    ObjectText(body, rest);
    BodyTrimmed(body);
    KindOf(section);
    MembersAccepted(Trim(body), NoPolicy(section), section, xs);
  }

  lemma OpenAccepted(m: Message, section: Section, xs: seq<Member>, value: string)
    requires OpenObjectText(value, section, xs) && EndTrimmed(value)
    ensures ParseObject(m, section, value) == Stored(Store(m, section, SetMembers(NoPolicy(section), xs)), [])
  {
    hide Members, ParseMembers, SetMembers, Trim, BraceEnd, DepthAfter, NoPolicy, Store, EndTrimmed;
    var body, last: char :|
      value == "{" + (body + [last]) && DepthAfter(body + [last], 1) >= 1 && Members(Trim(body), section, xs);
    assert value[1..] == body + [last] && value[1..|value| - 1] == body && value[..|value|] == value && value[|value|..] == [];
    BraceEndNever(value, 1, 1);
    TrimBraced(value);
    BodyTrimmed(body);
    KindOf(section);
    MembersAccepted(Trim(body), NoPolicy(section), section, xs);
  }

  lemma ObjectFound(m: Message, section: Section, s: string) returns (xs: seq<Member>, value: string)
    requires ParseObject(m, section, s).Stored? && EndTrimmed(s)
    ensures var r := ParseObject(m, section, s);
            && s == value + r.rest && r.msg == Store(m, section, SetMembers(NoPolicy(section), xs))
            && (ClosedObject(value, section, xs) || (r.rest == [] && OpenObjectText(value, section, xs)))
  {
    hide Members, ParseMembers, SetMembers, Trim, BraceEnd, DepthAfter, NoPolicy, Store, EndTrimmed;
    var end := BraceEnd(s, 1, 1);
    value := s[..end];
    BraceEndIs(s, 1, 1);
    var braced := Trim(value);
    var body := braced[1..|braced| - 1];
    BodyTrimmed(body);
    KindOf(section);
    xs := MembersFound(Trim(body), NoPolicy(section), section);
    if end > 1 && s[end - 1] == '}' && DepthAfter(s[1..end - 1], 1) == 1 {
      ClosedBraces(s, end);
      assert value == "{" + (body + "}");
    } else {
      assert s[..|s|] == s;
      TrimBraced(s);
      assert value == "{" + (body + [s[|s| - 1]]) && s[1..] == body + [s[|s| - 1]];
    }
  }

  lemma ClosedBraces(s: string, end: nat)
    requires 1 < end <= |s| && s[0] == '{' && s[end - 1] == '}'
    ensures Trim(s[..end]) == s[..end] == "{" + (s[1..end - 1] + "}") && s[..end][1..end - 1] == s[1..end - 1]
  {
    TrimBraced(s[..end]);
  }

  // ----- fields -----

  lemma FieldAccepted(m: Message, f: Field, value: string, rest: string)
    requires FieldText(f, value, rest == []) && EndsNumber(rest) && EndTrimmed(value + rest)
    ensures ParseField(m, FieldKey(f), value + rest) == Stored(SetField(m, f), rest)
  {
    hide ParseInt, ParseObject, Integer, ClosedObject, OpenObjectText, SetMembers, EndTrimmed;
    match f
    case Pid(n) => IntegerAccepted(value, n, rest);
    case OomScoreAdj(n) => IntegerAccepted(value, n, rest);
    case Object(section, xs) =>
      if ClosedObject(value, section, xs) {
        ClosedAccepted(m, section, xs, value, rest);
      } else {
        assert value + rest == value;
        OpenAccepted(m, section, xs, value);
      }
  }

  lemma FieldFound(m: Message, key: string, t: string) returns (f: Field, value: string)
    requires ParseField(m, key, t).Stored? && EndTrimmed(t)
    ensures var r := ParseField(m, key, t);
            FieldKey(f) == key && t == value + r.rest && FieldText(f, value, r.rest == []) && r.msg == SetField(m, f)
  {
    hide ParseInt, ParseObject, Integer, ClosedObject, OpenObjectText, SetMembers, EndTrimmed, EndsNumber;
    if key == "pid" {
      value := IntegerRead(t);
      f := Pid(ParseInt(t).value);
      IntLimit(t);
    } else if key == "oom_score_adj" {
      value := IntegerRead(t);
      f := OomScoreAdj(ParseInt(t).value);
    } else {
      var section := SectionOf(key).value;
      var xs;
      xs, value := ObjectFound(m, section, t);
      f := Object(section, xs);
    }
  }

  lemma IntLimit(t: string)
    ensures ParseInt(t).Number? ==> ParseInt(t).value <= INT64_MAX
  {
  }

  lemma FieldKeyClosed(f: Field)
    ensures EscapesClosed(FieldKey(f)) && (FieldKey(f) == "pid" <==> f.Pid?)
  {
    FieldKeyPlain(f);
    hide FieldKey;
    QuoteEndOf(FieldKey(f), 0);
    EscapesClosedIff(FieldKey(f));
  }

  lemma {:induction false} FieldsAccepted(s: string, m: Message, hasPid: bool, fs: seq<Field>)
    requires Fields(s, fs) && EndTrimmed(s)
    ensures ParseFields(s, m, hasPid) ==
            Done(if hasPid || HasPid(fs) then ACK else NACK_INVALID_PAYLOAD, SetFields(m, fs))
    decreases |fs|
  {
    hide FieldKey, FieldText, SetField, ParseKey, ParseField, NextMember, EndTrimmed, EscapesClosed, EndsNumber, Gap;
    if fs == [] {
      NoPidInNone();
    } else {
      var blank, value, gap, rest :|
        && Item(s, FieldKey(fs[0]), blank, value, gap, rest) && FieldText(fs[0], value, gap + rest == [])
        && Fields(rest, fs[1..]);
      ItemRest(s, FieldKey(fs[0]), blank, value, gap, rest);
      FieldKeyClosed(fs[0]);
      KeyAccepted(FieldKey(fs[0]), blank, value + (gap + rest));
      assert s == Quoted(FieldKey(fs[0])) + blank + ":" + (value + (gap + rest));
      SuffixOfTrimmed(Quoted(FieldKey(fs[0])) + blank + ":", value + (gap + rest), s);
      FieldAccepted(m, fs[0], value, gap + rest);
      HasPidStep(fs);
      FieldsAccepted(rest, SetField(m, fs[0]), hasPid || fs[0].Pid?, fs[1..]);
    }
  }

  lemma NoPidInNone()
    ensures !HasPid([])
  {
  }

  lemma FieldsCons(s: string, f: Field, blank: string, value: string, gap: string, rest: string, more: seq<Field>)
    requires Item(s, FieldKey(f), blank, value, gap, rest) && FieldText(f, value, gap + rest == []) && Fields(rest, more)
    ensures Fields(s, [f] + more)
  {
    hide FieldText, Item;
    var fs := [f] + more;
    assert fs[0] == f && fs[1..] == more;
  }

  lemma {:induction false} FieldsFound(s: string, m: Message, hasPid: bool) returns (fs: seq<Field>)
    requires ParseFields(s, m, hasPid).Done? && ParseFields(s, m, hasPid).ack == ACK
    requires EndTrimmed(s) && (s != [] ==> !IsWhitespace(s[0]))
    ensures Fields(s, fs) && (hasPid || HasPid(fs)) && ParseFields(s, m, hasPid).msg == SetFields(m, fs)
    decreases |s|
  {
    hide FieldKey, FieldText, SetField, ParseKey, ParseField, NextMember, EndTrimmed, EscapesClosed, IsWhitespace, Item,
      HasPid;
    if s == [] {
      fs := [];
    } else {
      var (key, t) := ParseKey(s).value;
      ValueEndTrimmed(s);
      RefusalIsNoAck(m, key, t);
      var r := ParseField(m, key, t);
      var f, value := FieldFound(m, key, t);
      var next := NextMember(r.rest);
      NextHasKey(next, r.msg, hasPid || key == "pid");
      var blank, gap := ItemFound(s, value, r.rest);
      FieldKeyClosed(f);
      var more := FieldsFound(next, r.msg, hasPid || key == "pid");
      fs := [f] + more;
      assert fs[1..] == more;
      HasPidStep(fs);
      FieldsCons(s, f, blank, value, gap, next, more);
    }
  }

  lemma ValueEndTrimmed(s: string)
    requires EndTrimmed(s) && ParseKey(s).Some?
    ensures EndTrimmed(ParseKey(s).value.1)
  {
    KeyRest(s);
    SuffixEndTrimmed(ParseKey(s).value.1, s);
  }

  lemma NextHasKey(s: string, m: Message, hasPid: bool)
    requires ParseFields(s, m, hasPid).Done? && ParseFields(s, m, hasPid).ack == ACK
    ensures s != [] ==> ParseKey(s).Some?
  {
    hide ParseKey, ParseField;
  }

  /** The parser accepts exactly the payloads that stand for some fields with a pid among them, and the message it gives is
      the last-wins fold of those fields. */
  lemma AcceptedIff(payload: string, m: Message)
    ensures ParseGovApply(payload) == Done(ACK, m) <==> exists fs :: Stands(payload, fs) && m == SetFields(EMPTY, fs)
  {
    hide ParseFields, Fields, HasPid, SetFields, Trim, EndTrimmed;
    TrimBlank(payload);
    if Enclosed(payload) {
      BodyTrimmed(Trim(payload)[1..|Trim(payload)| - 1]);
    }
    if ParseGovApply(payload) == Done(ACK, m) {
      var fs := FieldsFound(Inner(payload), EMPTY, false);
      assert Stands(payload, fs);
    }
    if fs :| Stands(payload, fs) && m == SetFields(EMPTY, fs) {
      FieldsAccepted(Inner(payload), EMPTY, false, fs);
    }
  }
}
