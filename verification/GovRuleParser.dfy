/** The parser as the program has it: loops that consume a view from the front. Each is proved to compute its function in
    GovRule. */
module GovRuleParser {
  import opened Wrappers
  import opened Decimal
  import opened GovRule

  method SkipBlanks(s: string) returns (r: string)
    ensures r == SkipWhitespace(s)
  {
    r := s;
    while r != [] && IsWhitespace(r[0])
      invariant SkipWhitespace(r) == SkipWhitespace(s)
      decreases |r|
    {
      r := r[1..];
    }
  }

  method TrimView(s: string) returns (r: string)
    ensures r == Trim(s)
  {
    r := s;
    while r != [] && IsWhitespace(r[|r| - 1])
      invariant TrimEnd(r) == TrimEnd(s)
      decreases |r|
    {
      r := r[..|r| - 1];
    }
    while r != [] && IsWhitespace(r[0])
      invariant SkipWhitespace(r) == Trim(s)
      decreases |r|
    {
      r := r[1..];
    }
  }

  method ParseText(s: string) returns (ok: bool, text: string, rest: string)
    ensures ParseQuoted(s) == if ok then Some((text, rest)) else None
  {
    var t := SkipBlanks(s);
    if t == [] || t[0] != '"' {
      return false, "", t;
    }
    t := t[1..];
    var end := 0;
    while end < |t| && t[end] != '"'
      invariant end <= |t|
      invariant QuoteEnd(t, end) == QuoteEnd(t, 0)
      decreases |t| - end
    {
      if t[end] == '\\' && end + 1 < |t| {
        end := end + 2;
      } else {
        end := end + 1;
      }
    }
    if end >= |t| {
      return false, "", t;
    }
    return true, t[..end], t[end + 1..];
  }

  method CountDigits(s: string) returns (k: nat)
    ensures k == LeadingDigits(s)
  {
    k := 0;
    while k < |s| && IsDigit(s[k])
      invariant k <= |s|
      invariant LeadingDigits(s) == k + LeadingDigits(s[k..])
      decreases |s| - k
    {
      assert s[k..][1..] == s[k + 1..];
      k := k + 1;
    }
  }

  method ParseInteger(s: string) returns (n: Number)
    ensures n == ParseInt(s)
  {
    var t := SkipBlanks(s);
    var negative := t != [] && t[0] == '-';
    var u := if negative then t[1..] else t;
    var k := CountDigits(u);
    if k == 0 {
      return NoNumber;
    }
    var value: int := Value(u[..k]);
    if negative {
      value := -value;
    }
    if value < -INT64_MAX - 1 || value > INT64_MAX {
      return TooBig;
    }
    return Number(value, u[k..]);
  }

  method ParseUnsigned(s: string) returns (n: Number)
    ensures n == ParseUint(s)
  {
    var t := SkipBlanks(s);
    var k := CountDigits(t);
    if k == 0 {
      return NoNumber;
    }
    if Value(t[..k]) >= TWO_TO_THE_64 {
      return TooBig;
    }
    return Number(Value(t[..k]), t[k..]);
  }

  method ParseKeyAndColon(s: string) returns (ok: bool, key: string, rest: string)
    ensures ParseKey(s) == if ok then Some((key, rest)) else None
  {
    hide ParseQuoted;
    ok, key, rest := ParseText(s);
    if !ok {
      return;
    }
    rest := SkipBlanks(rest);
    if rest != [] && rest[0] == ':' {
      return true, key, rest[1..];
    }
    return false, key, rest;
  }

  method AfterValue(s: string) returns (r: string)
    ensures r == NextMember(s)
  {
    r := SkipBlanks(s);
    if r != [] && r[0] == ',' {
      r := TrimView(r[1..]);
    }
  }

  /** The value of one key of a nested object. */
  method ReadMember(p: Policy, key: string, s: string) returns (r: Step<Policy>)
    ensures r == ParseMember(p, key, s)
  {
    hide ParseQuoted, ParseInt, ParseUint;
    if p.Cpu? && key == "affinity" {
      var ok, text, rest := ParseText(s);
      return if ok then Next(p.(affinity := Some(text)), rest) else Nack(NACK_PARSE_ERROR);
    }
    if p.Cpu? && key == "nice" {
      var n := ParseInteger(s);
      return NumberStep(n, -128, 127, NACK_INVALID_RANGE, v => p.(nice := Some(v)));
    }
    var known := match p
      case Cpu(_, _, _) => key == "max_pct"
      case Mem(_) => key == "max_bytes"
      case Pids(_) => key == "max"
      case Rlim(_, _, _, _) => key in ["nofile_soft", "nofile_hard", "core_soft", "core_hard"];
    if !known {
      return Nack(NACK_UNKNOWN_FIELD);
    }
    var n := ParseUnsigned(s);
    match p
    case Cpu(_, _, _) => return NumberStep(n, 0, 255, NACK_INVALID_RANGE, v => p.(maxPct := Some(v)));
    case Mem(_) => return NumberStep(n, 0, UINT64_MAX, NACK_PARSE_ERROR, v => p.(maxBytes := Some(v)));
    case Pids(_) => return NumberStep(n, 0, UINT32_MAX, NACK_PARSE_ERROR, v => p.(max := Some(v)));
    case Rlim(_, _, _, _) =>
      if key == "nofile_soft" {
        return NumberStep(n, 0, UINT64_MAX, NACK_PARSE_ERROR, v => p.(nofileSoft := Some(v)));
      } else if key == "nofile_hard" {
        return NumberStep(n, 0, UINT64_MAX, NACK_PARSE_ERROR, v => p.(nofileHard := Some(v)));
      } else if key == "core_soft" {
        return NumberStep(n, 0, UINT64_MAX, NACK_PARSE_ERROR, v => p.(coreSoft := Some(v)));
      } else {
        return NumberStep(n, 0, UINT64_MAX, NACK_PARSE_ERROR, v => p.(coreHard := Some(v)));
      }
  }

  /** The inner loop of parse_gov_apply, over the text between the braces. */
  method ReadMembers(text: string, empty: Policy) returns (r: PolicyResult)
    ensures r == ParseMembers(text, empty)
  {
    hide ParseKey, ParseMember, NextMember;
    var s := text;
    var p := empty;
    while s != []
      invariant ParseMembers(s, p) == ParseMembers(text, empty)
      decreases |s|
    {
      var ok, key, rest := ParseKeyAndColon(s);
      if !ok {
        return Failed(NACK_PARSE_ERROR);
      }
      var step := ReadMember(p, key, rest);
      match step
      case Nack(ack) => return Failed(ack);
      case Threw => return PolicyThrew;
      case Next(q, after) =>
        s := AfterValue(after);
        p := q;
    }
    return Parsed(p);
  }

  method FindBrace(s: string) returns (end: nat)
    requires s != []
    ensures end == BraceEnd(s, 1, 1)
  {
    end := 1;
    var depth := 1;
    while end < |s| && depth > 0
      invariant 1 <= end <= |s| && depth >= 0
      invariant BraceEnd(s, end, depth) == BraceEnd(s, 1, 1)
      decreases |s| - end
    {
      if s[end] == '{' {
        depth := depth + 1;
      } else if s[end] == '}' {
        depth := depth - 1;
      }
      end := end + 1;
    }
  }

  method ReadObject(m: Message, section: Section, s: string) returns (r: FieldResult)
    ensures r == ParseObject(m, section, s)
  {
    hide ParseMembers, BraceEnd, Trim;
    if s == [] || s[0] != '{' {
      return Refused(NACK_PARSE_ERROR);
    }
    var end := FindBrace(s);
    var braced := TrimView(s[..end]);
    if |braced| < 2 {
      return FieldUndefined;
    }
    var inner := TrimView(braced[1..|braced| - 1]);
    var result := ReadMembers(inner, NoPolicy(section));
    match result
    case Parsed(p) => return Stored(Store(m, section, p), s[end..]);
    case Failed(ack) => return Refused(ack);
    case PolicyThrew => return FieldThrew;
  }

  method ReadField(m: Message, key: string, s: string) returns (r: FieldResult)
    ensures r == ParseField(m, key, s)
  {
    hide ParseInt, ParseObject;
    if key == "pid" {
      var n := ParseInteger(s);
      match n
      case NoNumber => return Refused(NACK_PARSE_ERROR);
      case TooBig => return FieldThrew;
      case Number(v, rest) =>
        return if v <= 0 then Refused(NACK_INVALID_PID) else Stored(m.(pid := Int32(v)), rest);
    }
    if key == "oom_score_adj" {
      var n := ParseInteger(s);
      match n
      case NoNumber => return Refused(NACK_PARSE_ERROR);
      case TooBig => return FieldThrew;
      case Number(v, rest) =>
        return if v < -1000 || v > 1000 then Refused(NACK_INVALID_RANGE) else Stored(m.(oomScoreAdj := Some(v)), rest);
    }
    if SectionOf(key).None? {
      return Refused(NACK_UNKNOWN_FIELD);
    }
    r := ReadObject(m, SectionOf(key).value, s);
  }

  /** parse_gov_apply. */
  method Parse(payload: string) returns (r: Outcome)
    ensures r == ParseGovApply(payload)
  {
    hide Trim, ParseKey, ParseField, NextMember;
    if |payload| > MAX_PAYLOAD_SIZE || payload == [] {
      return Done(NACK_INVALID_PAYLOAD, EMPTY);
    }
    var s := TrimView(payload);
    if s == [] {
      return Undefined;
    }
    if s[0] != '{' || s[|s| - 1] != '}' {
      return Done(NACK_PARSE_ERROR, EMPTY);
    }
    s := TrimView(s[1..|s| - 1]);
    ghost var fields := s;
    var msg := EMPTY;
    var hasPid := false;
    while s != []
      invariant ParseFields(s, msg, hasPid) == ParseFields(fields, EMPTY, false)
      decreases |s|
    {
      var ok, key, rest := ParseKeyAndColon(s);
      if !ok {
        return Done(NACK_PARSE_ERROR, msg);
      }
      var field := ReadField(msg, key, rest);
      match field
      case Refused(ack) => return Done(ack, msg);
      case FieldThrew => return Throws;
      case FieldUndefined => return Undefined;
      case Stored(q, after) =>
        s := AfterValue(after);
        msg := q;
        hasPid := hasPid || key == "pid";
    }
    return Done(if hasPid then ACK else NACK_INVALID_PAYLOAD, msg);
  }
}
