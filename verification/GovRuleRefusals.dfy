/** Which payloads get which refusal: the code follows from the first field that is not read. */
module GovRuleRefusals {
  import opened GovRule
  import opened GovRuleFaults

  /** No number, or one outside the bounds. */
  predicate Outside(n: Number, lo: int, hi: int) {
    n.NoNumber? || (n.Number? && (n.value < lo || n.value > hi))
  }

  /** The value of this member is refused for its range. Values that are no numbers count as out of range for the two
      members of cpu, and as errors of syntax elsewhere. */
  predicate RangeMember(s: string, section: Section) {
    match ParseKey(s)
    case None => false
    case Some((key, t)) =>
      match section
      case CpuSection =>
        (key == "nice" && Outside(ParseInt(t), -128, 127)) || (key == "max_pct" && Outside(ParseUint(t), 0, 255))
      case PidsSection => key == "max" && ParseUint(t).Number? && ParseUint(t).value > 0xFFFF_FFFF
      case _ => false
  }

  predicate UnknownMember(s: string, section: Section) {
    match ParseKey(s)
    case None => false
    case Some((key, _)) =>
      match section
      case CpuSection => key !in ["affinity", "nice", "max_pct"]
      case MemSection => key != "max_bytes"
      case PidsSection => key != "max"
      case RlimSection => key !in ["nofile_soft", "nofile_hard", "core_soft", "core_hard"]
  }

  /** This field is an object with something in it, whose first unread member is as told. */
  predicate InObject(s: string, bad: (string, Section) -> bool) {
    match ParseKey(s)
    case None => false
    case Some((key, t)) =>
      && SectionOf(key).Some? && t != [] && t[0] == '{' && !Blank(t[1..])
      && bad(StopMember(ObjectBody(t), SectionOf(key).value), SectionOf(key).value)
  }

  predicate PidField(s: string) {
    match ParseKey(s)
    case None => false
    case Some((key, t)) => key == "pid" && ParseInt(t).Number? && ParseInt(t).value <= 0
  }

  predicate RangeField(s: string) {
    InObject(s, RangeMember) ||
    match ParseKey(s)
    case None => false
    case Some((key, t)) =>
      key == "oom_score_adj" && ParseInt(t).Number? && (ParseInt(t).value < -1000 || ParseInt(t).value > 1000)
  }

  predicate UnknownField(s: string) {
    InObject(s, UnknownMember) ||
    match ParseKey(s)
    case None => false
    case Some((key, _)) => key !in ["pid", "cpu", "mem", "pids", "rlim", "oom_score_adj"]
  }

  lemma MemberCode(p: Policy, section: Section, s: string)
    requires SameKind(NoPolicy(section), p) && ParseKey(s).Some?
    ensures var r := ParseMember(p, ParseKey(s).value.0, ParseKey(s).value.1);
            && (r == Nack(NACK_INVALID_RANGE) <==> RangeMember(s, section))
            && (r == Nack(NACK_UNKNOWN_FIELD) <==> UnknownMember(s, section))
            && r != Nack(NACK_INVALID_PID) && r != Nack(NACK_INVALID_PAYLOAD)
  {
    hide ParseKey, ParseQuoted, ParseInt, ParseUint;
  }

  lemma NoMember(s: string, section: Section)
    requires ParseKey(s).None?
    ensures !RangeMember(s, section) && !UnknownMember(s, section)
  {
  }

  lemma {:induction false} MembersCode(s: string, p: Policy, section: Section)
    requires SameKind(NoPolicy(section), p)
    ensures var r := ParseMembers(s, p);
            var stop := StopMember(s, section);
            && (r == Failed(NACK_INVALID_RANGE) <==> RangeMember(stop, section))
            && (r == Failed(NACK_UNKNOWN_FIELD) <==> UnknownMember(stop, section))
            && r != Failed(NACK_INVALID_PID) && r != Failed(NACK_INVALID_PAYLOAD)
    decreases |s|
  {
    NoKeyThere();
    hide SameKind, ParseKey, ParseMember, NextMember, RangeMember, UnknownMember;
    if ParseKey(s).Some? {
      var (key, t) := ParseKey(s).value;
      MemberKind(p, section, key, t);
      MemberCode(p, section, s);
      var step := ParseMember(p, key, t);
      if step.Next? {
        MembersCode(NextMember(step.rest), step.acc, section);
      }
    } else {
      NoMember(s, section);
    }
  }

  lemma NoKeyThere()
    ensures ParseKey([]).None?
  {
  }

  lemma FieldCode(m: Message, s: string)
    requires ParseKey(s).Some?
    ensures var r := ParseField(m, ParseKey(s).value.0, ParseKey(s).value.1);
            && (r == Refused(NACK_INVALID_PID) <==> PidField(s))
            && (r == Refused(NACK_INVALID_RANGE) <==> RangeField(s))
            && (r == Refused(NACK_UNKNOWN_FIELD) <==> UnknownField(s))
            && r != Refused(NACK_INVALID_PAYLOAD)
  {
    hide ParseInt, ParseKey, ParseMembers, StopMember, RangeMember, UnknownMember, BraceEnd, Trim, Blank;
    var (key, t) := ParseKey(s).value;
    if SectionOf(key).Some? && t != [] && t[0] == '{' {
      OpenObject(t);
      if !Blank(t[1..]) {
        MembersCode(ObjectBody(t), NoPolicy(SectionOf(key).value), SectionOf(key).value);
      }
    }
  }

  lemma NoField(s: string)
    requires ParseKey(s).None?
    ensures !PidField(s) && !RangeField(s) && !UnknownField(s)
  {
  }

  lemma {:induction false} FieldsCode(s: string, m: Message, hasPid: bool)
    ensures var r := ParseFields(s, m, hasPid);
            var stop := StopField(s);
            && (r.Done? && r.ack == NACK_INVALID_PID <==> PidField(stop))
            && (r.Done? && r.ack == NACK_INVALID_RANGE <==> RangeField(stop))
            && (r.Done? && r.ack == NACK_UNKNOWN_FIELD <==> UnknownField(stop))
            && (r.Done? && r.ack == NACK_INVALID_PAYLOAD <==> stop == [] && !hasPid && "pid" !in KeysRead(s))
    decreases |s|
  {
    NoKeyThere();
    NoField([]);
    hide ParseKey, ParseField, NextMember, PidField, RangeField, UnknownField;
    if ParseKey(s).Some? {
      var (key, t) := ParseKey(s).value;
      FieldOutcome(m, s, key, t);
      FieldCode(m, s);
      var r := ParseField(m, key, t);
      if r.Stored? {
        FieldsCode(NextMember(r.rest), r.msg, hasPid || key == "pid");
      }
    } else {
      NoField(s);
    }
  }

  /** Every payload that is refused: the code says why. A payload is refused as a whole for its size or for lacking a pid;
      otherwise the first field that is not read has a pid that is not positive, or a value out of range, or an unknown
      key; and whatever else goes wrong is an error of syntax. */
  lemma RefusalIff(payload: string)
    requires ParseGovApply(payload).Done?
    ensures var ack := ParseGovApply(payload).ack;
            var sized := 0 < |payload| <= 512;
            var read := sized && Enclosed(payload);
            && (ack == NACK_INVALID_PAYLOAD <==>
                  !sized || (read && StopField(Inner(payload)) == [] && "pid" !in KeysRead(Inner(payload))))
            && (ack == NACK_INVALID_PID <==> read && PidField(StopField(Inner(payload))))
            && (ack == NACK_INVALID_RANGE <==> read && RangeField(StopField(Inner(payload))))
            && (ack == NACK_UNKNOWN_FIELD <==> read && UnknownField(StopField(Inner(payload))))
            && ack in {ACK, NACK_INVALID_PAYLOAD, NACK_INVALID_PID, NACK_INVALID_RANGE, NACK_UNKNOWN_FIELD, NACK_PARSE_ERROR}
  {
    hide ParseFields, StopField, PidField, RangeField, UnknownField, KeysRead, Trim;
    if Enclosed(payload) {
      FieldsCode(Inner(payload), EMPTY, false);
    }
  }
}
