/** The GOV_APPLY message parser (gov_rule.cpp): what it computes, as functions on the text that is left to read. */
module GovRule {
  import opened Wrappers
  import opened Decimal

  const MAX_PAYLOAD_SIZE := 512
  const INT64_MAX := 0x7FFF_FFFF_FFFF_FFFF
  const UINT32_MAX := 0xFFFF_FFFF

  datatype AckCode =
    | ACK
    | NACK_INVALID_PAYLOAD
    | NACK_INVALID_PID
    | NACK_INVALID_RANGE
    | NACK_PARSE_ERROR
    | NACK_UNKNOWN_FIELD

  /** The contents of one of the four nested objects. */
  datatype Policy =
    | Cpu(affinity: Option<string>, nice: Option<int>, maxPct: Option<int>)
    | Mem(maxBytes: Option<int>)
    | Pids(max: Option<int>)
    | Rlim(nofileSoft: Option<int>, nofileHard: Option<int>, coreSoft: Option<int>, coreHard: Option<int>)

  datatype Message = Message(
    pid: int,
    cpu: Option<Policy>,
    mem: Option<Policy>,
    pids: Option<Policy>,
    rlim: Option<Policy>,
    oomScoreAdj: Option<int>)

  const EMPTY := Message(0, None, None, None, None, None)

  /** A finished parse with its code and whatever the message holds by then; an exception from stoll or stoull; or an
      operation on an empty view that C++ leaves undefined. */
  datatype Outcome = Done(ack: AckCode, msg: Message) | Throws | Undefined

  // ----- cursor helpers -----

  predicate IsWhitespace(c: char) {
    c == ' ' || c == '\t' || c == '\n' || c == '\r'
  }

  function SkipWhitespace(s: string): (r: string)
    ensures |r| <= |s|
    ensures r == [] || !IsWhitespace(r[0])
  {
    if s != [] && IsWhitespace(s[0]) then SkipWhitespace(s[1..]) else s
  }

  function TrimEnd(s: string): (r: string)
    ensures |r| <= |s|
  {
    if s != [] && IsWhitespace(s[|s| - 1]) then TrimEnd(s[..|s| - 1]) else s
  }

  function Trim(s: string): (r: string)
    ensures |r| <= |s|
  {
    SkipWhitespace(TrimEnd(s))
  }

  /** Where a quoted text ends: the first quote from i on that no backslash escapes, or |s|. */
  function QuoteEnd(s: string, i: nat): (end: nat)
    requires i <= |s|
    ensures i <= end <= |s| && (end < |s| ==> s[end] == '"')
    decreases |s| - i
  {
    if i == |s| || s[i] == '"' then i
    else if s[i] == '\\' && i + 1 < |s| then QuoteEnd(s, i + 2)
    else QuoteEnd(s, i + 1)
  }

  /** A quoted text, taken verbatim, and what follows its closing quote. */
  function ParseQuoted(s: string): (r: Option<(string, string)>)
    ensures r.Some? ==> |r.value.1| < |s|
  {
    var t := SkipWhitespace(s);
    if t == [] || t[0] != '"' then None
    else
      var u := t[1..];
      var end := QuoteEnd(u, 0);
      if end == |u| then None else Some((u[..end], u[end + 1..]))
  }

  datatype Number = NoNumber | TooBig | Number(value: int, rest: string)

  function ParseInt(s: string): (r: Number)
    ensures r.Number? ==> |r.rest| < |s| && -INT64_MAX - 1 <= r.value <= INT64_MAX
  {
    var t := SkipWhitespace(s);
    var negative := t != [] && t[0] == '-';
    var u := if negative then t[1..] else t;
    var k := LeadingDigits(u);
    var n: int := Value(u[..k]);
    var value := if negative then -n else n;
    if k == 0 then NoNumber
    else if value < -INT64_MAX - 1 || value > INT64_MAX then TooBig
    else Number(value, u[k..])
  }

  function ParseUint(s: string): (r: Number)
    ensures r.Number? ==> |r.rest| < |s| && 0 <= r.value < TWO_TO_THE_64
  {
    var t := SkipWhitespace(s);
    var k := LeadingDigits(t);
    if k == 0 then NoNumber
    else if Value(t[..k]) >= TWO_TO_THE_64 then TooBig
    else Number(Value(t[..k]), t[k..])
  }

  function ConsumeColon(s: string): (r: Option<string>)
    ensures r.Some? ==> |r.value| < |s|
  {
    var t := SkipWhitespace(s);
    if t != [] && t[0] == ':' then Some(t[1..]) else None
  }

  /** A key, its colon, and what follows. */
  function ParseKey(s: string): (r: Option<(string, string)>)
    ensures r.Some? ==> |r.value.1| < |s|
  {
    match ParseQuoted(s)
    case None => None
    case Some((key, t)) =>
      match ConsumeColon(t)
      case None => None
      case Some(u) => Some((key, u))
  }

  /** Between two members: a comma and the white space around it are skipped, but a comma is not required. */
  function NextMember(s: string): (r: string)
    ensures |r| <= |s|
  {
    var t := SkipWhitespace(s);
    if t != [] && t[0] == ',' then Trim(t[1..]) else t
  }

  // ----- the nested objects -----

  datatype Step<T> = Next(acc: T, rest: string) | Nack(ack: AckCode) | Threw

  /** One value of a nested object: the number read, within bounds, or the code reported for it. */
  function NumberStep(n: Number, lo: int, hi: int, missing: AckCode, store: int -> Policy): Step<Policy> {
    match n
    case NoNumber => Nack(missing)
    case TooBig => Threw
    case Number(v, rest) => if lo <= v <= hi then Next(store(v), rest) else Nack(NACK_INVALID_RANGE)
  }

  function ParseMember(p: Policy, key: string, s: string): (r: Step<Policy>)
    ensures r.Next? ==> |r.rest| < |s|
  {
    match p
    case Cpu(_, _, _) =>
      if key == "affinity" then
        (match ParseQuoted(s)
         case None => Nack(NACK_PARSE_ERROR)
         case Some((text, rest)) => Next(p.(affinity := Some(text)), rest))
      else if key == "nice" then NumberStep(ParseInt(s), -128, 127, NACK_INVALID_RANGE, v => p.(nice := Some(v)))
      else if key == "max_pct" then NumberStep(ParseUint(s), 0, 255, NACK_INVALID_RANGE, v => p.(maxPct := Some(v)))
      else Nack(NACK_UNKNOWN_FIELD)
    case Mem(_) =>
      if key == "max_bytes" then NumberStep(ParseUint(s), 0, UINT64_MAX, NACK_PARSE_ERROR, v => p.(maxBytes := Some(v)))
      else Nack(NACK_UNKNOWN_FIELD)
    case Pids(_) =>
      if key == "max" then NumberStep(ParseUint(s), 0, UINT32_MAX, NACK_PARSE_ERROR, v => p.(max := Some(v)))
      else Nack(NACK_UNKNOWN_FIELD)
    case Rlim(_, _, _, _) =>
      if key == "nofile_soft" then NumberStep(ParseUint(s), 0, UINT64_MAX, NACK_PARSE_ERROR, v => p.(nofileSoft := Some(v)))
      else if key == "nofile_hard" then NumberStep(ParseUint(s), 0, UINT64_MAX, NACK_PARSE_ERROR, v => p.(nofileHard := Some(v)))
      else if key == "core_soft" then NumberStep(ParseUint(s), 0, UINT64_MAX, NACK_PARSE_ERROR, v => p.(coreSoft := Some(v)))
      else if key == "core_hard" then NumberStep(ParseUint(s), 0, UINT64_MAX, NACK_PARSE_ERROR, v => p.(coreHard := Some(v)))
      else Nack(NACK_UNKNOWN_FIELD)
  }

  datatype PolicyResult = Parsed(policy: Policy) | Failed(ack: AckCode) | PolicyThrew

  /** The members of a nested object, up to the end of its text. */
  function ParseMembers(s: string, p: Policy): PolicyResult
    decreases |s|
  {
    if s == [] then Parsed(p)
    else
      match ParseKey(s)
      case None => Failed(NACK_PARSE_ERROR)
      case Some((key, t)) =>
        match ParseMember(p, key, t)
        case Nack(ack) => Failed(ack)
        case Threw => PolicyThrew
        case Next(q, rest) => ParseMembers(NextMember(rest), q)
  }

  /** Just past the brace that closes the one before position i, or |s|; quotes are not respected. */
  function BraceEnd(s: string, i: nat, depth: nat): (end: nat)
    requires i <= |s|
    ensures i <= end <= |s|
    decreases |s| - i
  {
    if i == |s| || depth == 0 then i
    else BraceEnd(s, i + 1, if s[i] == '{' then depth + 1 else if s[i] == '}' then depth - 1 else depth)
  }

  // ----- the message -----

  datatype Section = CpuSection | MemSection | PidsSection | RlimSection

  function SectionOf(key: string): Option<Section> {
    if key == "cpu" then Some(CpuSection)
    else if key == "mem" then Some(MemSection)
    else if key == "pids" then Some(PidsSection)
    else if key == "rlim" then Some(RlimSection)
    else None
  }

  function NoPolicy(section: Section): Policy {
    match section
    case CpuSection => Cpu(None, None, None)
    case MemSection => Mem(None)
    case PidsSection => Pids(None)
    case RlimSection => Rlim(None, None, None, None)
  }

  function Store(m: Message, section: Section, p: Policy): Message {
    match section
    case CpuSection => m.(cpu := Some(p))
    case MemSection => m.(mem := Some(p))
    case PidsSection => m.(pids := Some(p))
    case RlimSection => m.(rlim := Some(p))
  }

  datatype FieldResult =
    | Stored(msg: Message, rest: string)
    | Refused(ack: AckCode)
    | FieldThrew
    | FieldUndefined

  function ParseObject(m: Message, section: Section, s: string): (r: FieldResult)
    ensures r.Stored? ==> |r.rest| < |s|
  {
    if s == [] || s[0] != '{' then Refused(NACK_PARSE_ERROR)
    else
      var end := BraceEnd(s, 1, 1);
      var braced := Trim(s[..end]);
      if |braced| < 2 then FieldUndefined
      else
        match ParseMembers(Trim(braced[1..|braced| - 1]), NoPolicy(section))
        case Parsed(p) => Stored(Store(m, section, p), s[end..])
        case Failed(ack) => Refused(ack)
        case PolicyThrew => FieldThrew
  }

  function ParseField(m: Message, key: string, s: string): (r: FieldResult)
    ensures r.Stored? ==> |r.rest| < |s|
  {
    if key == "pid" then
      (match ParseInt(s)
       case NoNumber => Refused(NACK_PARSE_ERROR)
       case TooBig => FieldThrew
       case Number(v, rest) => if v <= 0 then Refused(NACK_INVALID_PID) else Stored(m.(pid := Int32(v)), rest))
    else if key == "oom_score_adj" then
      (match ParseInt(s)
       case NoNumber => Refused(NACK_PARSE_ERROR)
       case TooBig => FieldThrew
       case Number(v, rest) =>
         if v < -1000 || v > 1000 then Refused(NACK_INVALID_RANGE) else Stored(m.(oomScoreAdj := Some(v)), rest))
    else
      match SectionOf(key)
      case Some(section) => ParseObject(m, section, s)
      case None => Refused(NACK_UNKNOWN_FIELD)
  }

  function ParseFields(s: string, m: Message, hasPid: bool): Outcome
    decreases |s|
  {
    if s == [] then Done(if hasPid then ACK else NACK_INVALID_PAYLOAD, m)
    else
      match ParseKey(s)
      case None => Done(NACK_PARSE_ERROR, m)
      case Some((key, t)) =>
        match ParseField(m, key, t)
        case Refused(ack) => Done(ack, m)
        case FieldThrew => Throws
        case FieldUndefined => Undefined
        case Stored(q, rest) => ParseFields(NextMember(rest), q, hasPid || key == "pid")
  }

  function ParseGovApply(payload: string): Outcome {
    if |payload| > MAX_PAYLOAD_SIZE || payload == [] then Done(NACK_INVALID_PAYLOAD, EMPTY)
    else
      var s := Trim(payload);
      if s == [] then Undefined
      else if s[0] != '{' || s[|s| - 1] != '}' then Done(NACK_PARSE_ERROR, EMPTY)
      else ParseFields(Trim(s[1..|s| - 1]), EMPTY, false)
  }

  // ----- what acceptance guarantees, for every payload -----

  predicate Within(v: Option<int>, lo: int, hi: int) {
    v.Some? ==> lo <= v.value <= hi
  }

  predicate PolicyOk(p: Policy) {
    match p
    case Cpu(_, nice, maxPct) => Within(nice, -128, 127) && Within(maxPct, 0, 255)
    case Mem(maxBytes) => Within(maxBytes, 0, UINT64_MAX)
    case Pids(max) => Within(max, 0, UINT32_MAX)
    case Rlim(a, b, c, d) =>
      Within(a, 0, UINT64_MAX) && Within(b, 0, UINT64_MAX) && Within(c, 0, UINT64_MAX) && Within(d, 0, UINT64_MAX)
  }

  /** Each section holds its own kind of policy and every stored number fits its field. */
  predicate MessageOk(m: Message) {
    && -0x8000_0000 <= m.pid < 0x8000_0000
    && (m.cpu.Some? ==> m.cpu.value.Cpu? && PolicyOk(m.cpu.value))
    && (m.mem.Some? ==> m.mem.value.Mem? && PolicyOk(m.mem.value))
    && (m.pids.Some? ==> m.pids.value.Pids? && PolicyOk(m.pids.value))
    && (m.rlim.Some? ==> m.rlim.value.Rlim? && PolicyOk(m.rlim.value))
    && Within(m.oomScoreAdj, -1000, 1000)
  }

  predicate SameKind(p: Policy, q: Policy) {
    p.Cpu? == q.Cpu? && p.Mem? == q.Mem? && p.Pids? == q.Pids?
  }

  lemma MemberKeepsOk(p: Policy, key: string, s: string)
    requires PolicyOk(p)
    ensures var r := ParseMember(p, key, s); r.Next? ==> PolicyOk(r.acc) && SameKind(p, r.acc)
  {
    hide ParseQuoted, ParseInt, ParseUint;
  }

  lemma {:induction false} MembersKeepOk(s: string, p: Policy)
    requires PolicyOk(p)
    ensures var r := ParseMembers(s, p); r.Parsed? ==> PolicyOk(r.policy) && SameKind(p, r.policy)
    decreases |s|
  {
    hide PolicyOk, ParseMember, NextMember;
    if s != [] && ParseKey(s).Some? {
      var (key, t) := ParseKey(s).value;
      MemberKeepsOk(p, key, t);
      var step := ParseMember(p, key, t);
      if step.Next? {
        MembersKeepOk(NextMember(step.rest), step.acc);
      }
    }
  }

  lemma FieldKeepsOk(m: Message, key: string, s: string)
    requires MessageOk(m)
    ensures var r := ParseField(m, key, s); r.Stored? ==> MessageOk(r.msg)
  {
    hide ParseInt, ParseObject;
    if key != "pid" && key != "oom_score_adj" && SectionOf(key).Some? {
      hide MessageOk;
      ObjectKeepsOk(m, SectionOf(key).value, s);
    }
  }

  lemma ObjectKeepsOk(m: Message, section: Section, s: string)
    requires MessageOk(m)
    ensures var r := ParseObject(m, section, s); r.Stored? ==> MessageOk(r.msg)
  {
    hide ParseMembers, BraceEnd, Trim, MessageOk, PolicyOk, SameKind;
    var p := NoPolicy(section);
    NoPolicyOk(section);
    if s != [] {
      var braced := Trim(s[..BraceEnd(s, 1, 1)]);
      if |braced| >= 2 {
        var text := Trim(braced[1..|braced| - 1]);
        MembersKeepOk(text, p);
        if ParseMembers(text, p).Parsed? {
          StoreKeepsOk(m, section, ParseMembers(text, p).policy);
        }
      }
    }
  }

  lemma NoPolicyOk(section: Section)
    ensures PolicyOk(NoPolicy(section))
  {
  }

  lemma StoreKeepsOk(m: Message, section: Section, p: Policy)
    requires MessageOk(m) && PolicyOk(p) && SameKind(NoPolicy(section), p)
    ensures MessageOk(Store(m, section, p))
  {
    hide PolicyOk;
  }

  lemma {:induction false} FieldsKeepOk(s: string, m: Message, hasPid: bool)
    requires MessageOk(m)
    ensures var r := ParseFields(s, m, hasPid); r.Done? ==> MessageOk(r.msg)
    decreases |s|
  {
    hide MessageOk, ParseField, NextMember;
    if s != [] && ParseKey(s).Some? {
      var (key, t) := ParseKey(s).value;
      FieldKeepsOk(m, key, t);
      var r := ParseField(m, key, t);
      if r.Stored? {
        FieldsKeepOk(NextMember(r.rest), r.msg, hasPid || key == "pid");
      }
    }
  }

  /** Whatever the payload, the message that comes back, accepted or not, only holds values its fields can hold, and an
      accepted payload has at most 512 bytes. */
  lemma ParsedMessageOk(payload: string)
    ensures var r := ParseGovApply(payload);
            && (r.Done? ==> MessageOk(r.msg))
            && (r.Done? && r.ack == ACK ==> 0 < |payload| <= MAX_PAYLOAD_SIZE)
  {
    hide ParseFields, Trim;
    var s := Trim(payload);
    assert MessageOk(EMPTY);
    if |s| >= 2 {
      FieldsKeepOk(Trim(s[1..|s| - 1]), EMPTY, false);
    }
  }
}
