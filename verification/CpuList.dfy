/** The CPU affinity list parser (parse_cpu_list in process_governor.cpp). */
module CpuList {
  import opened Wrappers
  import opened Decimal

  const CPU_SETSIZE := 1024

  predicate IsBlank(c: char) {
    c == ' ' || c == '\t'
  }

  /** The erase-remove of spaces and tabs. */
  function Strip(s: string): string {
    if s == [] then [] else (if IsBlank(s[0]) then [] else [s[0]]) + Strip(s[1..])
  }

  /** find: the first position of c, or |s|. */
  function IndexOf(s: string, c: char): (i: nat)
    ensures i <= |s| && (i < |s| ==> s[i] == c)
    ensures forall k :: 0 <= k < i ==> s[k] != c
  {
    if s == [] || s[0] == c then 0 else 1 + IndexOf(s[1..], c)
  }

  predicate IsSpace(c: char) {
    c == ' ' || '\t' <= c <= '\r'
  }

  function SkipSpaces(s: string): string {
    if s != [] && IsSpace(s[0]) then SkipSpaces(s[1..]) else s
  }

  /** std::stoi: leading white space, an optional sign, digits, and anything after them. None stands for the exception
      thrown when there is no digit or the number does not fit. */
  function Stoi(s: string): Option<int> {
    var t := SkipSpaces(s);
    var signed := t != [] && (t[0] == '-' || t[0] == '+');
    var digits := if signed then t[1..] else t;
    var k := LeadingDigits(digits);
    var n: int := Value(digits[..k]);
    var value := if signed && t[0] == '-' then -n else n;
    if k == 0 || value > INT_MAX || value < -INT_MAX - 1 then None else Some(value)
  }

  /** The inclusive bounds written by one blank-free part. */
  function ParsePart(part: string): Option<(int, int)> {
    var dash := IndexOf(part, '-');
    if dash < |part| then
      match (Stoi(part[..dash]), Stoi(part[dash + 1..]))
      case (Some(a), Some(b)) => Some((a, b))
      case _ => None
    else
      match Stoi(part)
      case Some(cpu) => Some((cpu, cpu))
      case None => None
  }

  type Ranges = seq<(int, int)>

  /** All ranges of a list, or None if some number throws. Empty parts are skipped. */
  function ParseRanges(s: string): Option<Ranges>
    decreases |s|
  {
    if s == [] then Some([])
    else
      var comma := IndexOf(s, ',');
      var part := Strip(s[..comma]);
      var rest := if comma < |s| then s[comma + 1..] else [];
      if part == [] then ParseRanges(rest)
      else
        match (ParsePart(part), ParseRanges(rest))
        case (Some(r), Some(rs)) => Some([r] + rs)
        case _ => None
  }

  predicate Names(r: (int, int), cpu: int) {
    r.0 <= cpu <= r.1
  }

  ghost predicate InRange(rs: Ranges) {
    forall i, cpu :: 0 <= i < |rs| && Names(rs[i], cpu) ==> 0 <= cpu < CPU_SETSIZE
  }

  ghost predicate InMask(rs: Ranges, cpu: int) {
    exists i :: 0 <= i < |rs| && Names(rs[i], cpu)
  }

  datatype Outcome = Threw | Rejected | Accepted

  ghost function Result(s: string): Outcome {
    match ParseRanges(s)
    case None => Threw
    case Some(rs) => if rs == [] || !InRange(rs) then Rejected else Accepted
  }

  // ----- the program -----

  method StripBlanks(s: string) returns (r: string)
    ensures r == Strip(s)
  {
    hide Strip;
    r := [];
    StripStart(s);
    for i := 0 to |s|
      invariant Strip(s) == r + Strip(s[i..])
    {
      StripStep(r, s, i);
      if !IsBlank(s[i]) {
        r := r + [s[i]];
      }
    }
    StripEnd(r, s);
  }

  lemma StripStart(s: string)
    ensures Strip(s) == [] + Strip(s[0..])
  {
    assert s[0..] == s;
  }

  lemma StripEnd(r: string, s: string)
    ensures r + Strip(s[|s|..]) == r
  {
  }

  lemma StripStep(r: string, s: string, i: nat)
    requires i < |s|
    ensures r + Strip(s[i..]) == (if IsBlank(s[i]) then r else r + [s[i]]) + Strip(s[i + 1..])
  {
    var u, v := s[i..], s[i + 1..];
    assert u[0] == s[i] && u[1..] == v;
    assert Strip(u) == (if IsBlank(s[i]) then [] else [s[i]]) + Strip(v);
    hide Strip;
  }

  function Join(found: Ranges, more: Option<Ranges>): Option<Ranges> {
    match more
    case None => None
    case Some(rs) => Some(found + rs)
  }

  /** What one turn of the loop adds. */
  lemma JoinStep(found: Ranges, r: (int, int), more: Option<Ranges>)
    ensures Join(found, match more case None => None case Some(rs) => Some([r] + rs)) == Join(found + [r], more)
  {
    if more.Some? {
      assert found + ([r] + more.value) == found + [r] + more.value;
    }
  }

  /** Collects the ranges, part by part. */
  method CollectRanges(affinity: string) returns (ranges: Option<Ranges>)
    ensures ranges == ParseRanges(affinity)
  {
    hide Strip, ParsePart, IndexOf;
    var sv := affinity;
    var found: Ranges := [];
    assert forall rs: Ranges :: [] + rs == rs;
    while sv != []
      invariant ParseRanges(affinity) == Join(found, ParseRanges(sv))
      decreases |sv|
    {
      var comma := IndexOf(sv, ',');
      var part := StripBlanks(sv[..comma]);
      var rest := if comma < |sv| then sv[comma + 1..] else [];
      if part != [] {
        var r := ParsePart(part);
        if r == None {
          return None;
        }
        JoinStep(found, r.value, ParseRanges(rest));
        found := found + [r.value];
      }
      sv := rest;
    }
    assert found + [] == found;
    return Some(found);
  }

  method CheckRanges(ranges: Ranges) returns (ok: bool)
    ensures ok == InRange(ranges)
  {
    for k := 0 to |ranges|
      invariant InRange(ranges[..k])
    {
      var i := ranges[k].0;
      while i <= ranges[k].1
        invariant ranges[k].0 <= i
        invariant i == ranges[k].0 || (0 <= ranges[k].0 && i <= CPU_SETSIZE && i <= ranges[k].1 + 1)
        decreases ranges[k].1 - i
      {
        if i < 0 || i >= CPU_SETSIZE {
          assert Names(ranges[k], i);
          return false;
        }
        i := i + 1;
      }
      var prefix := ranges[..k + 1];
      forall j, cpu | 0 <= j < |prefix| && Names(prefix[j], cpu)
        ensures 0 <= cpu < CPU_SETSIZE
      {
        if j < k {
          assert Names(ranges[..k][j], cpu);
        }
      }
    }
    assert ranges[..|ranges|] == ranges;
    return true;
  }

  method SetBits(ranges: Ranges, mask: array<bool>)
    requires InRange(ranges) && mask.Length == CPU_SETSIZE
    requires forall c :: 0 <= c < CPU_SETSIZE ==> !mask[c]
    modifies mask
    ensures forall c :: 0 <= c < CPU_SETSIZE ==> (mask[c] <==> InMask(ranges, c))
  {
    for k := 0 to |ranges|
      invariant forall c :: 0 <= c < CPU_SETSIZE ==> (mask[c] <==> InMask(ranges[..k], c))
    {
      var i := ranges[k].0;
      ghost var before := mask[..];
      while i <= ranges[k].1
        invariant ranges[k].0 <= i
        invariant forall c :: 0 <= c < CPU_SETSIZE ==> (mask[c] <==> before[c] || (ranges[k].0 <= c < i && c <= ranges[k].1))
        decreases ranges[k].1 - i
      {
        assert Names(ranges[k], i);
        mask[i] := true;
        i := i + 1;
      }
      forall c | 0 <= c < CPU_SETSIZE
        ensures mask[c] <==> InMask(ranges[..k + 1], c)
      {
        MaskGrows(ranges, k, c);
        assert Names(ranges[k], c) <==> ranges[k].0 <= c < i && c <= ranges[k].1;
        assert before[c] <==> InMask(ranges[..k], c);
      }
    }
    assert ranges[..|ranges|] == ranges;
  }

  lemma MaskGrows(ranges: Ranges, k: nat, c: int)
    requires k < |ranges|
    ensures InMask(ranges[..k + 1], c) <==> InMask(ranges[..k], c) || Names(ranges[k], c)
  {
    if InMask(ranges[..k], c) {
      var i :| 0 <= i < k && Names(ranges[..k][i], c);
      assert Names(ranges[..k + 1][i], c);
    }
    if Names(ranges[k], c) {
      assert Names(ranges[..k + 1][k], c);
    }
    if InMask(ranges[..k + 1], c) && !Names(ranges[k], c) {
      var i :| 0 <= i < k + 1 && Names(ranges[..k + 1][i], c);
      assert Names(ranges[..k][i], c);
    }
  }

  /** parse_cpu_list. The mask means something only when the outcome is Accepted. */
  method ParseCpuList(affinity: string) returns (outcome: Outcome, mask: array<bool>)
    ensures fresh(mask) && mask.Length == CPU_SETSIZE
    ensures outcome == Result(affinity)
    ensures outcome == Accepted ==>
              forall c :: 0 <= c < CPU_SETSIZE ==> (mask[c] <==> InMask(ParseRanges(affinity).value, c))
  {
    mask := new bool[CPU_SETSIZE](i => false);
    var ranges := CollectRanges(affinity);
    if ranges == None {
      return Threw, mask;
    }
    if ranges.value == [] {
      return Rejected, mask;
    }
    var ok := CheckRanges(ranges.value);
    if !ok {
      return Rejected, mask;
    }
    SetBits(ranges.value, mask);
    return Accepted, mask;
  }

  // ----- rendered lists -----

  datatype Range = Single(cpu: nat) | Span(from: nat, to: nat)

  function Render(r: Range): string {
    match r
    case Single(cpu) => Digits(cpu)
    case Span(from, to) => Digits(from) + ("-" + Digits(to))
  }

  function RenderList(rs: seq<Range>): string {
    if rs == [] then []
    else if |rs| == 1 then Render(rs[0])
    else Render(rs[0]) + ("," + RenderList(rs[1..]))
  }

  function Bounds(r: Range): (int, int) {
    match r
    case Single(cpu) => (cpu, cpu)
    case Span(from, to) => (from, to)
  }

  function AllBounds(rs: seq<Range>): (b: Ranges)
    ensures |b| == |rs|
    ensures forall i :: 0 <= i < |rs| ==> b[i] == Bounds(rs[i])
  {
    seq(|rs|, i requires 0 <= i < |rs| => Bounds(rs[i]))
  }

  predicate Fits(r: Range) {
    Bounds(r).0 <= INT_MAX && Bounds(r).1 <= INT_MAX
  }

  lemma StoiDigits(n: nat)
    ensures Stoi(Digits(n)) == if n <= INT_MAX then Some(n) else None
  {
    DigitsValue(n);
    LeadingDigitsOf(Digits(n), []);
    var d := Digits(n);
    assert d + [] == d;
    assert IsDigit(d[0]);
    assert d[..|d|] == d;
  }

  lemma IndexInConcat(a: string, c: char, b: string)
    requires c !in a
    ensures IndexOf(a + ([c] + b), c) == |a|
    ensures (a + ([c] + b))[..|a|] == a && (a + ([c] + b))[|a| + 1..] == b
  {
    assert (a + ([c] + b))[|a|] == c;
  }

  lemma DigitsPlain(n: nat)
    ensures Digits(n) != [] && forall c :: c in Digits(n) ==> IsDigit(c)
  {
    DigitsValue(n);
  }

  lemma ParseRendered(r: Range)
    ensures ParsePart(Render(r)) == if Fits(r) then Some(Bounds(r)) else None
  {
    hide Digits, Stoi;
    match r
    case Single(cpu) =>
      DigitsPlain(cpu);
      StoiDigits(cpu);
      NotIn(Digits(cpu), '-');
    case Span(from, to) =>
      DigitsPlain(from);
      IndexInConcat(Digits(from), '-', Digits(to));
      StoiDigits(from);
      StoiDigits(to);
  }

  lemma NotIn(s: string, c: char)
    requires c !in s
    ensures IndexOf(s, c) == |s|
  {
  }

  lemma RenderPlain(r: Range)
    ensures Render(r) != []
    ensures forall c :: c in Render(r) ==> IsDigit(c) || c == '-'
  {
    match r
    case Single(cpu) => DigitsPlain(cpu);
    case Span(from, to) => DigitsPlain(from); DigitsPlain(to);
  }

  lemma {:induction false} StripPlain(s: string)
    requires forall c :: c in s ==> !IsBlank(c)
    ensures Strip(s) == s
  {
    if s != [] {
      StripPlain(s[1..]);
      assert s == [s[0]] + s[1..];
    }
  }

  ghost predicate AllFit(rs: seq<Range>) {
    forall i :: 0 <= i < |rs| ==> Fits(rs[i])
  }

  lemma AllBoundsSplit(rs: seq<Range>)
    requires rs != []
    ensures AllBounds(rs) == [Bounds(rs[0])] + AllBounds(rs[1..])
    ensures AllFit(rs) <==> Fits(rs[0]) && AllFit(rs[1..])
  {
    assert forall i :: 0 < i < |rs| ==> rs[i] == rs[1..][i - 1];
  }

  lemma {:induction false} ParseRenderedList(rs: seq<Range>)
    ensures ParseRanges(RenderList(rs)) == if AllFit(rs) then Some(AllBounds(rs)) else None
  {
    hide Render, ParsePart, Strip, IndexOf, Fits, Bounds, AllBounds;
    if rs == [] {
      assert AllBounds(rs) == [];
    } else {
      hide AllFit;
      var part := Render(rs[0]);
      RenderPlain(rs[0]);
      StripPlain(part);
      ParseRendered(rs[0]);
      ParseRenderedList(rs[1..]);
      AllBoundsSplit(rs);
      if |rs| == 1 {
        NotIn(part, ',');
        assert part[..|part|] == part;
      } else {
        IndexInConcat(part, ',', RenderList(rs[1..]));
      }
    }
  }

  // ----- blanks -----

  lemma {:induction false} StripConcat(a: string, b: string)
    ensures Strip(a + b) == Strip(a) + Strip(b)
  {
    if a == [] {
      assert a + b == b;
    } else {
      assert (a + b)[1..] == a[1..] + b;
      StripConcat(a[1..], b);
    }
  }

  lemma {:induction false} StripIsPlain(s: string)
    ensures forall c :: c in Strip(s) ==> !IsBlank(c) && c in s
  {
    if s != [] {
      StripIsPlain(s[1..]);
    }
  }

  lemma StripSplit(head: string, rest: string)
    ensures Strip(head + ([','] + rest)) == Strip(head) + ([','] + Strip(rest))
  {
    StripConcat(head, [','] + rest);
    StripConcat([','], rest);
    assert Strip([',']) == [','];
  }

  /** The text up to a comma and after it. */
  lemma SplitAtComma(s: string)
    requires IndexOf(s, ',') < |s|
    ensures s == s[..IndexOf(s, ',')] + ([','] + s[IndexOf(s, ',') + 1..])
  {
    hide IndexOf;
    SplitAround(s, IndexOf(s, ','));
  }

  lemma SplitAround(s: string, i: nat)
    requires i < |s|
    ensures s == s[..i] + ([s[i]] + s[i + 1..])
  {
  }

  /** Spaces and tabs may stand anywhere: the parser reads a text exactly as it reads the text without them. */
  lemma {:induction false} BlanksIgnored(s: string)
    ensures ParseRanges(s) == ParseRanges(Strip(s))
    decreases |s|
  {
    hide ParsePart, Strip, IndexOf, ParseRanges, Prepend;
    var comma := IndexOf(s, ',');
    if comma < |s| {
      BlanksIgnored(s[comma + 1..]);
      StripAtComma(s);
      PartThenRest(s);
      PartThenRest(Strip(s));
    } else {
      LastPart(s);
      StripLast(s);
      LastPart(Strip(s));
    }
  }

  /** What the parser makes of a part and of the ranges of the rest. */
  function Prepend(part: string, more: Option<Ranges>): Option<Ranges> {
    if part == [] then more
    else
      match (ParsePart(part), more)
      case (Some(r), Some(rs)) => Some([r] + rs)
      case _ => None
  }

  lemma PartThenRest(s: string)
    requires IndexOf(s, ',') < |s|
    ensures var comma := IndexOf(s, ',');
            ParseRanges(s) == Prepend(Strip(s[..comma]), ParseRanges(s[comma + 1..]))
  {
    hide ParsePart, Strip, IndexOf;
  }

  lemma LastPart(s: string)
    requires IndexOf(s, ',') == |s|
    ensures ParseRanges(s) == Prepend(Strip(s), Some([]))
  {
    hide ParsePart, IndexOf;
    assert s[..|s|] == s;
    assert ParseRanges([]) == Some([]);
  }

  /** Stripping keeps the place of the first comma among what is left, and what stands before and after it. */
  lemma StripAtComma(s: string)
    requires IndexOf(s, ',') < |s|
    ensures var comma := IndexOf(s, ',');
            var t := Strip(s);
            var at := IndexOf(t, ',');
            && at < |t| && Strip(t[..at]) == Strip(s[..comma]) && t[at + 1..] == Strip(s[comma + 1..])
  {
    var comma := IndexOf(s, ',');
    var head, rest := s[..comma], s[comma + 1..];
    NoCommaBefore(s);
    StripIsPlain(head);
    StripPlain(Strip(head));
    hide Strip, IndexOf;
    SplitAtComma(s);
    StripSplit(head, rest);
    IndexInConcat(Strip(head), ',', Strip(rest));
  }

  lemma NoCommaBefore(s: string)
    ensures ',' !in s[..IndexOf(s, ',')]
  {
    hide IndexOf;
  }

  lemma StripLast(s: string)
    requires IndexOf(s, ',') == |s|
    ensures IndexOf(Strip(s), ',') == |Strip(s)| && Strip(Strip(s)) == Strip(s)
  {
    NoCommaBefore(s);
    assert s[..|s|] == s;
    StripIsPlain(s);
    StripPlain(Strip(s));
    hide Strip, IndexOf;
    NotIn(Strip(s), ',');
  }

  predicate Covers(r: Range, cpu: int) {
    match r
    case Single(c) => cpu == c
    case Span(from, to) => from <= cpu <= to
  }

  /** The list names this CPU. */
  ghost predicate InUnion(rs: seq<Range>, cpu: int) {
    exists i :: 0 <= i < |rs| && Covers(rs[i], cpu)
  }

  lemma BoundsMeanUnion(rs: seq<Range>)
    ensures forall cpu :: InMask(AllBounds(rs), cpu) <==> InUnion(rs, cpu)
    ensures InRange(AllBounds(rs)) <==> forall cpu :: InUnion(rs, cpu) ==> cpu < CPU_SETSIZE
  {
    var b := AllBounds(rs);
    forall cpu
      ensures InMask(b, cpu) <==> InUnion(rs, cpu)
    {
      if InMask(b, cpu) {
        var i :| 0 <= i < |b| && Names(b[i], cpu);
        assert Names(Bounds(rs[i]), cpu);
      }
      if InUnion(rs, cpu) {
        var i :| 0 <= i < |rs| && Names(Bounds(rs[i]), cpu);
        assert Names(b[i], cpu);
      }
    }
    if InRange(b) {
      forall cpu | InUnion(rs, cpu)
        ensures cpu < CPU_SETSIZE
      {
        assert InMask(b, cpu);
      }
    }
    if forall cpu :: InUnion(rs, cpu) ==> cpu < CPU_SETSIZE {
      forall i, cpu | 0 <= i < |b| && Names(b[i], cpu)
        ensures 0 <= cpu < CPU_SETSIZE
      {
        assert InUnion(rs, cpu);
      }
    }
  }

  /** A list of ranges written "a" or "a-b", joined by commas, with spaces and tabs anywhere: the parser throws exactly
      when a number does not fit an int, and otherwise accepts exactly when every CPU named is below 1024, and then
      the mask is the union of the ranges. */
  lemma RenderedListParses(rs: seq<Range>, text: string)
    requires rs != [] && Strip(text) == RenderList(rs)
    ensures Result(text) == Threw <==> !AllFit(rs)
    ensures Result(text) == Accepted <==> AllFit(rs) && forall cpu :: InUnion(rs, cpu) ==> cpu < 1024
    ensures Result(text) == Accepted ==> forall cpu :: InMask(ParseRanges(text).value, cpu) <==> InUnion(rs, cpu)
  {
    hide Strip, RenderList, ParseRanges, InRange, InMask, InUnion, AllFit;
    BlanksIgnored(text);
    ParseRenderedList(rs);
    BoundsMeanUnion(rs);
  }
}
