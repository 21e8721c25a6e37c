/** Two consequences of the parser inverting its printer: the order of distinct keys does not matter, and messages can be sent
    and read back. */
module GovRuleOrder {
  import opened Wrappers
  import opened Sequences
  import opened GovRule
  import opened GovRulePrinter

  // ----- order -----

  ghost predicate MemberKeysDistinct(xs: seq<Member>) {
    forall i, j :: 0 <= i < j < |xs| ==> MemberKey(xs[i]) != MemberKey(xs[j])
  }

  ghost predicate FieldKeysDistinct(fs: seq<Field>) {
    forall i, j :: 0 <= i < j < |fs| ==> FieldKey(fs[i]) != FieldKey(fs[j])
  }

  function Drop<T>(s: seq<T>, i: nat): seq<T>
    requires i < |s|
  {
    s[..i] + s[i + 1..]
  }

  lemma DropAt<T>(s: seq<T>, i: nat)
    requires i < |s|
    ensures |Drop(s, i)| == |s| - 1
    ensures forall k :: 0 <= k < |s| - 1 ==> Drop(s, i)[k] == if k < i then s[k] else s[k + 1]
  {
  }

  lemma DropHead<T>(s: seq<T>, i: nat)
    requires 0 < i < |s|
    ensures Drop(s, i) == [s[0]] + Drop(s[1..], i - 1)
    ensures Drop(s, i)[1..] == Drop(s[1..], i - 1)
  {
    DropAt(s, i);
    DropAt(s[1..], i - 1);
    hide Drop;
    assert Drop(s, i) == [s[0]] + Drop(s[1..], i - 1);
  }

  lemma DropMultiset<T>(s: seq<T>, i: nat)
    requires i < |s|
    ensures multiset(Drop(s, i)) == multiset(s) - multiset{s[i]}
  {
    assert s == s[..i] + [s[i]] + s[i + 1..];
  }

  lemma DropSame<T>(a: seq<T>, b: seq<T>, i: nat)
    requires i < |a| && b != [] && a[i] == b[0] && multiset(a) == multiset(b)
    ensures multiset(Drop(a, i)) == multiset(b[1..])
  {
    DropMultiset(a, i);
    DropMultiset(b, 0);
    assert Drop(b, 0) == b[1..];
  }

  lemma FindEqual<T>(a: seq<T>, b: seq<T>) returns (i: nat)
    requires b != [] && multiset(a) == multiset(b)
    ensures i < |a| && a[i] == b[0]
  {
    assert b[0] in multiset(a);
    i :| 0 <= i < |a| && a[i] == b[0];
  }

  lemma MembersCommute(p: Policy, x: Member, y: Member)
    requires MemberKey(x) != MemberKey(y)
    ensures SetMember(SetMember(p, x), y) == SetMember(SetMember(p, y), x)
  {
  }

  lemma {:induction false} MemberFirst(p: Policy, xs: seq<Member>, i: nat)
    requires i < |xs| && MemberKeysDistinct(xs)
    ensures SetMembers(p, xs) == SetMembers(SetMember(p, xs[i]), Drop(xs, i))
    decreases i
  {
    hide SetMember, MemberKey;
    if i > 0 {
      MemberFirst(SetMember(p, xs[0]), xs[1..], i - 1);
      MembersCommute(p, xs[0], xs[i]);
      DropHead(xs, i);
      DropAt(xs, i);
    } else {
      assert Drop(xs, 0) == xs[1..];
    }
  }

  lemma DropMemberKeysDistinct(xs: seq<Member>, i: nat)
    requires i < |xs| && MemberKeysDistinct(xs)
    ensures MemberKeysDistinct(Drop(xs, i))
  {
    DropAt(xs, i);
    hide Drop, MemberKey;
  }

  lemma {:induction false} MemberOrder(p: Policy, xs: seq<Member>, ys: seq<Member>)
    requires MemberKeysDistinct(xs) && multiset(xs) == multiset(ys)
    ensures SetMembers(p, xs) == SetMembers(p, ys)
    decreases |ys|
  {
    hide SetMember, MemberKeysDistinct, Drop;
    if ys == [] {
      assert |multiset(xs)| == |xs| == 0;
    } else {
      var i := FindEqual(xs, ys);
      MemberFirst(p, xs, i);
      DropSame(xs, ys, i);
      DropMemberKeysDistinct(xs, i);
      MemberOrder(SetMember(p, ys[0]), Drop(xs, i), ys[1..]);
    }
  }

  lemma FieldsCommute(m: Message, f: Field, g: Field)
    requires FieldKey(f) != FieldKey(g)
    ensures SetField(SetField(m, f), g) == SetField(SetField(m, g), f)
  {
    hide SetMembers, Int32;
  }

  lemma {:induction false} FieldFirst(m: Message, fs: seq<Field>, i: nat)
    requires i < |fs| && FieldKeysDistinct(fs)
    ensures SetFields(m, fs) == SetFields(SetField(m, fs[i]), Drop(fs, i))
    decreases i
  {
    hide SetField, FieldKey;
    if i > 0 {
      FieldFirst(SetField(m, fs[0]), fs[1..], i - 1);
      FieldsCommute(m, fs[0], fs[i]);
      DropHead(fs, i);
      DropAt(fs, i);
    } else {
      assert Drop(fs, 0) == fs[1..];
    }
  }

  lemma DropFieldKeysDistinct(fs: seq<Field>, i: nat)
    requires i < |fs| && FieldKeysDistinct(fs)
    ensures FieldKeysDistinct(Drop(fs, i))
  {
    DropAt(fs, i);
    hide Drop, FieldKey;
  }

  lemma {:induction false} FieldOrder(m: Message, fs: seq<Field>, gs: seq<Field>)
    requires FieldKeysDistinct(fs) && multiset(fs) == multiset(gs)
    ensures SetFields(m, fs) == SetFields(m, gs)
    decreases |gs|
  {
    hide SetField, FieldKeysDistinct, Drop;
    if gs == [] {
      assert |multiset(fs)| == |fs| == 0;
    } else {
      var i := FindEqual(fs, gs);
      FieldFirst(m, fs, i);
      DropSame(fs, gs, i);
      DropFieldKeysDistinct(fs, i);
      FieldOrder(SetField(m, gs[0]), Drop(fs, i), gs[1..]);
    }
  }

  /** Rearranging fields with distinct keys never changes what the parser returns. */
  lemma OrderDoesNotMatter(fs: seq<Field>, gs: seq<Field>)
    requires FieldKeysDistinct(fs) && multiset(fs) == multiset(gs)
    requires forall i :: 0 <= i < |fs| ==> FieldFits(fs[i])
    requires |Print(fs)| <= MAX_PAYLOAD_SIZE && |Print(gs)| <= MAX_PAYLOAD_SIZE
    ensures ParseGovApply(Print(fs)) == ParseGovApply(Print(gs))
  {
    hide FieldFits, FieldKey, Print, ParseGovApply, SetFields;
    SameElements(fs, gs);
    forall i | 0 <= i < |gs|
      ensures FieldFits(gs[i])
    {
      assert gs[i] in gs;
    }
    ParsePrinted(fs);
    ParsePrinted(gs);
    FieldOrder(EMPTY, fs, gs);
    PidAmong(fs);
    PidAmong(gs);
  }

  lemma SameElements<T>(a: seq<T>, b: seq<T>)
    requires multiset(a) == multiset(b)
    ensures forall x :: x in a <==> x in b
  {
    forall x
      ensures x in a <==> x in b
    {
      assert x in a <==> x in multiset(a);
      assert x in b <==> x in multiset(b);
    }
  }

  lemma PidAmong(fs: seq<Field>)
    ensures HasPid(fs) <==> exists f :: f in fs && f.Pid?
  {
    if HasPid(fs) {
      var i :| 0 <= i < |fs| && fs[i].Pid?;
      assert fs[i] in fs;
    }
  }

  // ----- repeated keys -----

  function LastPid(fs: seq<Field>): Option<int> {
    if fs == [] then None
    else if fs[|fs| - 1].Pid? then Some(fs[|fs| - 1].n) else LastPid(fs[..|fs| - 1])
  }

  function LastOom(fs: seq<Field>): Option<int> {
    if fs == [] then None
    else if fs[|fs| - 1].OomScoreAdj? then Some(fs[|fs| - 1].n) else LastOom(fs[..|fs| - 1])
  }

  function LastObject(fs: seq<Field>, section: Section): Option<Policy> {
    if fs == [] then None
    else
      var f := fs[|fs| - 1];
      if f.Object? && f.section == section then Some(SetMembers(NoPolicy(section), f.members))
      else LastObject(fs[..|fs| - 1], section)
  }

  /** A repeated key replaces what came before, and a repeated object replaces the whole section. */
  lemma {:induction false} LastFieldWins(fs: seq<Field>)
    ensures SetFields(EMPTY, fs) ==
            Message(if LastPid(fs).Some? then Int32(LastPid(fs).value) else 0,
                    LastObject(fs, CpuSection), LastObject(fs, MemSection), LastObject(fs, PidsSection),
                    LastObject(fs, RlimSection), LastOom(fs))
  {
    hide SetMembers, Int32;
    if fs != [] {
      var n := |fs| - 1;
      LastFieldWins(fs[..n]);
      SplitLast(fs);
      SetFieldsAppend(EMPTY, fs[..n], [fs[n]]);
      SetOneField(SetFields(EMPTY, fs[..n]), fs[n]);
    }
  }

  // ----- every message -----

  function Opt(v: Option<int>, make: int -> Member): seq<Member> {
    match v
    case None => []
    case Some(n) => [make(n)]
  }

  function MembersOf(p: Policy): seq<Member> {
    match p
    case Cpu(affinity, nice, maxPct) =>
      (if affinity.Some? then [Affinity(affinity.value)] else []) + (Opt(nice, n => Nice(n)) + Opt(maxPct, n => MaxPct(n)))
    case Mem(maxBytes) => Opt(maxBytes, n => MaxBytes(n))
    case Pids(max) => Opt(max, n => MaxPids(n))
    case Rlim(a, b, c, d) =>
      Opt(a, n => NofileSoft(n)) + (Opt(b, n => NofileHard(n)) + (Opt(c, n => CoreSoft(n)) + Opt(d, n => CoreHard(n))))
  }

  function Objects(section: Section, p: Option<Policy>): seq<Field> {
    match p
    case None => []
    case Some(q) => [Object(section, MembersOf(q))]
  }

  /** The fields of a message in the order the documentation lists them. */
  function FieldsOf(m: Message): seq<Field> {
    [Pid(m.pid)] + (Objects(CpuSection, m.cpu) + (Objects(MemSection, m.mem) + (Objects(PidsSection, m.pids) +
    (Objects(RlimSection, m.rlim) + (if m.oomScoreAdj.Some? then [OomScoreAdj(m.oomScoreAdj.value)] else [])))))
  }

  lemma {:induction false} SetMembersAppend(p: Policy, xs: seq<Member>, ys: seq<Member>)
    ensures SetMembers(p, xs + ys) == SetMembers(SetMembers(p, xs), ys)
    decreases |xs|
  {
    hide SetMember;
    if xs == [] {
      assert xs + ys == ys;
    } else {
      assert (xs + ys)[1..] == xs[1..] + ys;
      SetMembersAppend(SetMember(p, xs[0]), xs[1..], ys);
    }
  }

  lemma {:induction false} SetFieldsAppend(m: Message, fs: seq<Field>, gs: seq<Field>)
    ensures SetFields(m, fs + gs) == SetFields(SetFields(m, fs), gs)
    decreases |fs|
  {
    hide SetField;
    if fs == [] {
      assert fs + gs == gs;
    } else {
      assert (fs + gs)[1..] == fs[1..] + gs;
      SetFieldsAppend(SetField(m, fs[0]), fs[1..], gs);
    }
  }

  lemma SetOne(p: Policy, x: Member)
    ensures SetMembers(p, [x]) == SetMember(p, x)
  {
    assert [x][1..] == [];
  }

  lemma SetOpt(p: Policy, v: Option<int>, make: int -> Member)
    ensures SetMembers(p, Opt(v, make)) == if v.Some? then SetMember(p, make(v.value)) else p
  {
    hide SetMember;
    if v.Some? {
      SetOne(p, make(v.value));
    }
  }

  lemma MembersRestore(section: Section, p: Policy)
    requires SameKind(NoPolicy(section), p)
    ensures SetMembers(NoPolicy(section), MembersOf(p)) == p
  {
    hide SetMembers, Opt;
    match p
    case Cpu(affinity, nice, maxPct) =>
      var a := if affinity.Some? then [Affinity(affinity.value)] else [];
      var p1 := Cpu(affinity, None, None);
      assert SetMembers(NoPolicy(section), a) == p1 by {
        if affinity.Some? { SetOne(NoPolicy(section), Affinity(affinity.value)); } else { SetNone(NoPolicy(section)); }
      }
      SetMembersAppend(NoPolicy(section), a, Opt(nice, n => Nice(n)) + Opt(maxPct, n => MaxPct(n)));
      SetMembersAppend(p1, Opt(nice, n => Nice(n)), Opt(maxPct, n => MaxPct(n)));
      SetOpt(p1, nice, n => Nice(n));
      SetOpt(Cpu(affinity, nice, None), maxPct, n => MaxPct(n));
    case Mem(maxBytes) => SetOpt(NoPolicy(section), maxBytes, n => MaxBytes(n));
    case Pids(max) => SetOpt(NoPolicy(section), max, n => MaxPids(n));
    case Rlim(a, b, c, d) => RlimRestore(a, b, c, d);
  }

  lemma SetNone(p: Policy)
    ensures SetMembers(p, []) == p
  {
  }

  lemma RlimRestore(a: Option<int>, b: Option<int>, c: Option<int>, d: Option<int>)
    ensures SetMembers(NoPolicy(RlimSection), MembersOf(Rlim(a, b, c, d))) == Rlim(a, b, c, d)
  {
    hide SetMembers, Opt;
    var p := NoPolicy(RlimSection);
    var la, lb, lc, ld :=
      Opt(a, n => NofileSoft(n)), Opt(b, n => NofileHard(n)), Opt(c, n => CoreSoft(n)), Opt(d, n => CoreHard(n));
    SetMembersAppend(p, la, lb + (lc + ld));
    SetOpt(p, a, n => NofileSoft(n));
    SetMembersAppend(Rlim(a, None, None, None), lb, lc + ld);
    SetOpt(Rlim(a, None, None, None), b, n => NofileHard(n));
    SetMembersAppend(Rlim(a, b, None, None), lc, ld);
    SetOpt(Rlim(a, b, None, None), c, n => CoreSoft(n));
    SetOpt(Rlim(a, b, c, None), d, n => CoreHard(n));
  }

  /** Text that the parser can tell from what surrounds it. */
  predicate SelfContained(text: string) {
    EscapesClosed(text) && BracesBalanced(text)
  }

  /** What a message must satisfy to be sent: field ranges, a positive pid and a self-contained affinity text. */
  ghost predicate Sendable(m: Message) {
    && MessageOk(m) && m.pid > 0
    && (m.cpu.Some? && m.cpu.value.affinity.Some? ==> SelfContained(m.cpu.value.affinity.value))
  }

  lemma SetObjects(m: Message, section: Section, p: Option<Policy>)
    requires p.Some? ==> SameKind(NoPolicy(section), p.value)
    ensures SetFields(m, Objects(section, p)) == if p.Some? then Store(m, section, p.value) else m
  {
    hide SetMembers, MembersOf, Store;
    if p.Some? {
      MembersRestore(section, p.value);
      var f := Object(section, MembersOf(p.value));
      assert [f][1..] == [];
    }
  }

  lemma FieldsRestore(m: Message)
    requires MessageOk(m)
    ensures SetFields(EMPTY, FieldsOf(m)) == m
  {
    hide SetFields, Objects, Within;
    var oom := if m.oomScoreAdj.Some? then [OomScoreAdj(m.oomScoreAdj.value)] else [];
    var l4 := Objects(RlimSection, m.rlim) + oom;
    var l3 := Objects(PidsSection, m.pids) + l4;
    var l2 := Objects(MemSection, m.mem) + l3;
    var l1 := Objects(CpuSection, m.cpu) + l2;
    var m0 := EMPTY.(pid := m.pid);
    SetFieldsAppend(EMPTY, [Pid(m.pid)], l1);
    SetOneField(EMPTY, Pid(m.pid));
    SetFieldsAppend(m0, Objects(CpuSection, m.cpu), l2);
    SetObjects(m0, CpuSection, m.cpu);
    var m1 := m0.(cpu := m.cpu);
    SetFieldsAppend(m1, Objects(MemSection, m.mem), l3);
    SetObjects(m1, MemSection, m.mem);
    var m2 := m1.(mem := m.mem);
    SetFieldsAppend(m2, Objects(PidsSection, m.pids), l4);
    SetObjects(m2, PidsSection, m.pids);
    var m3 := m2.(pids := m.pids);
    SetFieldsAppend(m3, Objects(RlimSection, m.rlim), oom);
    SetObjects(m3, RlimSection, m.rlim);
    var m4 := m3.(rlim := m.rlim);
    if m.oomScoreAdj.Some? {
      SetOneField(m4, OomScoreAdj(m.oomScoreAdj.value));
    } else {
      SetNoFields(m4);
    }
  }

  lemma SetOneField(m: Message, f: Field)
    ensures SetFields(m, [f]) == SetField(m, f)
  {
    assert [f][1..] == [];
  }

  lemma SetNoFields(m: Message)
    ensures SetFields(m, []) == m
  {
  }

  lemma AppendFits(p: Policy, xs: seq<Member>, ys: seq<Member>)
    requires AllFit(p, xs) && AllFit(p, ys)
    ensures AllFit(p, xs + ys)
  {
    hide MemberFits;
  }

  lemma AppendBalanced(xs: seq<Member>, ys: seq<Member>)
    requires AllBalanced(xs) && AllBalanced(ys)
    ensures AllBalanced(xs + ys)
  {
    hide TextBalanced;
  }

  lemma CpuFits(p: Policy)
    requires p.Cpu? && PolicyOk(p) && (p.affinity.Some? ==> EscapesClosed(p.affinity.value))
    ensures AllFit(NoPolicy(CpuSection), MembersOf(p))
    ensures (p.affinity.Some? ==> BracesBalanced(p.affinity.value)) ==> AllBalanced(MembersOf(p))
  {
    hide EscapesClosed, BracesBalanced;
    var q := NoPolicy(CpuSection);
    var a := if p.affinity.Some? then [Affinity(p.affinity.value)] else [];
    var b, c := Opt(p.nice, n => Nice(n)), Opt(p.maxPct, n => MaxPct(n));
    assert AllFit(q, a) && AllFit(q, b) && AllFit(q, c);
    assert AllBalanced(b) && AllBalanced(c);
    assert (p.affinity.Some? ==> BracesBalanced(p.affinity.value)) ==> AllBalanced(a);
    hide Opt, AllFit, AllBalanced, MemberFits;
    AppendFits(q, b, c);
    AppendFits(q, a, b + c);
    AppendBalanced(b, c);
    if AllBalanced(a) {
      AppendBalanced(a, b + c);
    }
  }

  lemma RlimFits(p: Policy)
    requires p.Rlim? && PolicyOk(p)
    ensures AllFit(NoPolicy(RlimSection), MembersOf(p)) && AllBalanced(MembersOf(p))
  {
    var q := NoPolicy(RlimSection);
    var la, lb := Opt(p.nofileSoft, n => NofileSoft(n)), Opt(p.nofileHard, n => NofileHard(n));
    var lc, ld := Opt(p.coreSoft, n => CoreSoft(n)), Opt(p.coreHard, n => CoreHard(n));
    assert AllFit(q, la) && AllFit(q, lb) && AllFit(q, lc) && AllFit(q, ld);
    assert AllBalanced(la) && AllBalanced(lb) && AllBalanced(lc) && AllBalanced(ld);
    hide Opt, AllFit, AllBalanced, MemberFits;
    AppendBalanced(lc, ld);
    AppendBalanced(lb, lc + ld);
    AppendBalanced(la, lb + (lc + ld));
    AppendFits(q, lc, ld);
    AppendFits(q, lb, lc + ld);
    AppendFits(q, la, lb + (lc + ld));
  }

  lemma MembersFit(section: Section, p: Policy)
    requires SameKind(NoPolicy(section), p) && PolicyOk(p)
    requires p.Cpu? && p.affinity.Some? ==> SelfContained(p.affinity.value)
    ensures FieldFits(Object(section, MembersOf(p)))
  {
    hide EscapesClosed, BracesBalanced;
    match section
    case CpuSection => CpuFits(p); hide MemberFits;
    case MemSection =>
    case PidsSection =>
    case RlimSection => RlimFits(p); hide MemberFits;
  }

  lemma FieldsFit(m: Message)
    requires Sendable(m)
    ensures forall i :: 0 <= i < |FieldsOf(m)| ==> FieldFits(FieldsOf(m)[i])
  {
    hide FieldFits, MembersOf, PolicyOk, SelfContained;
    assert FieldFits(Pid(m.pid)) by { PidFits(m.pid); }
    if m.cpu.Some? { MembersFit(CpuSection, m.cpu.value); }
    if m.mem.Some? { MembersFit(MemSection, m.mem.value); }
    if m.pids.Some? { MembersFit(PidsSection, m.pids.value); }
    if m.rlim.Some? { MembersFit(RlimSection, m.rlim.value); }
    if m.oomScoreAdj.Some? { OomFits(m.oomScoreAdj.value); }
  }

  lemma PidFits(n: int)
    requires 0 < n <= INT64_MAX
    ensures FieldFits(Pid(n))
  {
  }

  lemma OomFits(n: int)
    requires -1000 <= n <= 1000
    ensures FieldFits(OomScoreAdj(n))
  {
  }

  /** A message that fits in 512 bytes and whose affinity text is self-contained comes back exactly as it was sent. */
  lemma MessageRoundTrip(m: Message)
    requires Sendable(m) && |Print(FieldsOf(m))| <= MAX_PAYLOAD_SIZE
    ensures ParseGovApply(Print(FieldsOf(m))) == Done(ACK, m)
  {
    hide Sendable, Print, ParseGovApply, FieldFits, SetFields;
    FieldsFit(m);
    ParsePrinted(FieldsOf(m));
    assert FieldsOf(m)[0].Pid?;
    SendableOk(m);
    FieldsRestore(m);
  }

  lemma SendableOk(m: Message)
    requires Sendable(m)
    ensures MessageOk(m)
  {
  }
}
