/** Which texts the CPU list parser reads, and as which ranges, without reference to the parser. */
module CpuListGrammar {
  import opened Wrappers
  import opened Decimal
  import opened CpuList

  // ----- numbers -----

  /** White space as the C library has it. */
  ghost predicate Spaces(s: string) {
    forall i :: 0 <= i < |s| ==> s[i] in [' ', '\t', '\n', '\r', 11 as char, 12 as char]
  }

  ghost predicate IsSign(s: string) {
    s == "" || s == "+" || s == "-"
  }

  ghost predicate SplitNumber(s: string, blank: string, sign: string, digits: string, tail: string) {
    && s == blank + (sign + (digits + tail))
    && Spaces(blank) && IsSign(sign)
    && digits != [] && AllDigits(digits) && (tail != [] ==> !('0' <= tail[0] <= '9'))
  }

  function Signed(sign: string, n: int): int {
    if sign == "-" then -n else n
  }

  /** White space, a sign if any, all digits that follow, and anything after them. */
  ghost predicate Reads(s: string, n: int) {
    -0x8000_0000 <= n <= 0x7FFF_FFFF &&
    exists blank, sign, digits, tail ::
      SplitNumber(s, blank, sign, digits, tail) && n == Signed(sign, Value(digits))
  }

  lemma {:induction false} SkipsSpaces(blank: string, rest: string)
    requires Spaces(blank) && (rest != [] ==> !IsSpace(rest[0]))
    ensures SkipSpaces(blank + rest) == rest
  {
    if blank == [] {
      assert blank + rest == rest;
    } else {
      assert (blank + rest)[0] == blank[0] && (blank + rest)[1..] == blank[1..] + rest;
      SkipsSpaces(blank[1..], rest);
    }
  }

  lemma {:induction false} SkippedSpaces(s: string) returns (blank: string)
    ensures Spaces(blank) && s == blank + SkipSpaces(s)
  {
    if s != [] && IsSpace(s[0]) {
      var more := SkippedSpaces(s[1..]);
      blank := [s[0]] + more;
      FirstThen(s, more, SkipSpaces(s[1..]));
    } else {
      blank := [];
    }
  }

  lemma FirstThen(s: string, a: string, b: string)
    requires s != [] && s[1..] == a + b
    ensures s == [s[0]] + a + b
  {
  }

  lemma {:induction false} LeadingAre(digits: string, tail: string)
    requires AllDigits(digits) && (tail != [] ==> !IsDigit(tail[0]))
    ensures LeadingDigits(digits + tail) == |digits|
  {
    if digits == [] {
      assert digits + tail == tail;
    } else {
      assert (digits + tail)[0] == digits[0] && (digits + tail)[1..] == digits[1..] + tail;
      LeadingAre(digits[1..], tail);
    }
  }

  lemma AfterSign(sign: string, more: string)
    requires IsSign(sign) && more != [] && IsDigit(more[0])
    ensures var t := sign + more;
            var signed := t[0] == '-' || t[0] == '+';
            (signed <==> sign != "") && (if signed then t[1..] else t) == more && !IsSpace(t[0])
    ensures (sign + more)[0] == '-' <==> sign == "-"
  {
    if sign == "" {
      assert sign + more == more;
    } else {
      assert (sign + more)[1..] == more;
    }
  }

  lemma TakeAll(a: string, b: string)
    ensures (a + b)[..|a|] == a
  {
  }

  lemma SplitIsRead(s: string, blank: string, sign: string, digits: string, tail: string)
    requires SplitNumber(s, blank, sign, digits, tail)
    ensures var n := Signed(sign, Value(digits));
            Stoi(s) == if -0x8000_0000 <= n <= 0x7FFF_FFFF then Some(n) else None
  {
    assert (digits + tail)[0] == digits[0];
    AfterSign(sign, digits + tail);
    SkipsSpaces(blank, sign + (digits + tail));
    LeadingAre(digits, tail);
    TakeAll(digits, tail);
    hide SkipSpaces, LeadingDigits, Value, AllDigits, IsSpace;
  }

  lemma SignOf(t: string) returns (sign: string)
    ensures IsSign(sign) && |sign| <= |t| && t == sign + t[|sign|..]
    ensures var signed := t != [] && (t[0] == '-' || t[0] == '+');
            t[|sign|..] == (if signed then t[1..] else t) && (sign == "-" <==> signed && t[0] == '-')
  {
    sign := if t == [] then "" else if t[0] == '-' then "-" else if t[0] == '+' then "+" else "";
  }

  lemma ReadIsSplit(s: string)
    requires Stoi(s).Some?
    ensures exists blank, sign, digits, tail ::
              SplitNumber(s, blank, sign, digits, tail) && Stoi(s).value == Signed(sign, Value(digits))
  {
    hide SkipSpaces, LeadingDigits, Value, AllDigits, IsSpace, Spaces;
    var t := SkipSpaces(s);
    var blank := SkippedSpaces(s);
    var sign := SignOf(t);
    var more := t[|sign|..];
    var k := LeadingDigits(more);
    TakeDrop(more, k);
    assert SplitNumber(s, blank, sign, more[..k], more[k..]);
  }

  lemma TakeDrop(s: string, k: nat)
    requires k <= |s|
    ensures s == s[..k] + s[k..]
  {
  }

  /** stoi reads exactly such a text, if the number fits in an int. */
  lemma StoiIff(s: string, n: int)
    ensures Stoi(s) == Some(n) <==> Reads(s, n)
  {
    hide Stoi, Value, Signed, Spaces, AllDigits, IsSign;
    if Reads(s, n) {
      var blank, sign, digits, tail :| SplitNumber(s, blank, sign, digits, tail) && n == Signed(sign, Value(digits));
      SplitIsRead(s, blank, sign, digits, tail);
    }
    if Stoi(s) == Some(n) {
      ReadIsSplit(s);
      StoiFits(s);
    }
  }

  lemma StoiFits(s: string)
    ensures Stoi(s).Some? ==> -0x8000_0000 <= Stoi(s).value <= 0x7FFF_FFFF
  {
    hide SkipSpaces, LeadingDigits, Value;
  }

  // ----- parts -----

  /** One number, or two with a dash between them. */
  ghost predicate PartReads(part: string, from: int, to: int) {
    || ('-' !in part && Reads(part, from) && from == to)
    || exists left, right :: part == left + ("-" + right) && '-' !in left && Reads(left, from) && Reads(right, to)
  }

  lemma FoundAt(left: string, c: char, right: string)
    requires c !in left
    ensures var s := left + ([c] + right);
            IndexOf(s, c) == |left| < |s| && s[..|left|] == left && s[|left| + 1..] == right
  {
    var s := left + ([c] + right);
    assert s[|left|] == c;
    assert forall k :: 0 <= k < |left| ==> s[k] == left[k];
  }

  lemma NotFound(s: string, c: char)
    ensures IndexOf(s, c) == |s| <==> c !in s
    ensures c !in s[..IndexOf(s, c)]
    ensures IndexOf(s, c) < |s| ==> s == s[..IndexOf(s, c)] + ([c] + s[IndexOf(s, c) + 1..])
  {
    var i := IndexOf(s, c);
    hide IndexOf;
    if i < |s| {
      assert s[i] == c;
      SplitAround(s, i);
    }
    BeforeLacks(s, i, c);
  }

  lemma SplitAround(s: string, i: nat)
    requires i < |s|
    ensures s == s[..i] + ([s[i]] + s[i + 1..])
  {
  }

  lemma BeforeLacks(s: string, i: nat, c: char)
    requires i <= |s| && forall k :: 0 <= k < i ==> s[k] != c
    ensures c !in s[..i] && (i == |s| ==> c !in s)
  {
  }

  lemma PartIff(part: string, from: int, to: int)
    ensures ParsePart(part) == Some((from, to)) <==> PartReads(part, from, to)
  {
    hide Stoi, Reads, IndexOf;
    NotFound(part, '-');
    var dash := IndexOf(part, '-');
    StoiIff(part, from);
    if dash < |part| {
      StoiIff(part[..dash], from);
      StoiIff(part[dash + 1..], to);
      forall l, r | part == l + ("-" + r) && '-' !in l
        ensures l == part[..dash] && r == part[dash + 1..]
      {
        FoundAt(l, '-', r);
      }
    } else {
      forall l, r
        ensures part != l + ("-" + r)
      {
        assert '-' in l + ("-" + r) by {
          assert (l + ("-" + r))[|l|] == '-';
        }
      }
    }
  }

  // ----- lists -----

  /** The parts with commas between them. */
  function WithCommas(parts: seq<string>): string {
    if parts == [] then "" else if |parts| == 1 then parts[0] else parts[0] + ("," + WithCommas(parts[1..]))
  }

  /** What is left of a part without its spaces and tabs. */
  ghost predicate Squeezed(part: string, rest: string) {
    if part == [] then rest == []
    else if part[0] == ' ' || part[0] == '\t' then Squeezed(part[1..], rest)
    else rest != [] && rest[0] == part[0] && Squeezed(part[1..], rest[1..])
  }

  /** The ranges of the parts, in order; parts with nothing in them have none. */
  ghost predicate PartsRead(parts: seq<string>, rs: Ranges) {
    if parts == [] then rs == []
    else
      || (Squeezed(parts[0], []) && PartsRead(parts[1..], rs))
      || (&& rs != []
          && (exists rest :: rest != [] && Squeezed(parts[0], rest) && PartReads(rest, rs[0].0, rs[0].1))
          && PartsRead(parts[1..], rs[1..]))
  }

  ghost predicate NoCommas(parts: seq<string>) {
    forall i :: 0 <= i < |parts| ==> ',' !in parts[i]
  }

  /** The text is a list of parts that stand for these ranges. */
  ghost predicate ListReads(s: string, rs: Ranges) {
    exists parts :: parts != [] && NoCommas(parts) && s == WithCommas(parts) && PartsRead(parts, rs)
  }

  lemma {:induction false} StripSqueezes(part: string, rest: string)
    ensures Squeezed(part, rest) <==> rest == Strip(part)
  {
    if part != [] {
      if part[0] == ' ' || part[0] == '\t' {
        StripSqueezes(part[1..], rest);
      } else {
        assert Strip(part) == [part[0]] + Strip(part[1..]);
        if rest != [] {
          StripSqueezes(part[1..], rest[1..]);
          assert rest == [rest[0]] + rest[1..];
        }
      }
    }
  }

  lemma PartsReadCons(part: string, more: seq<string>, rs: Ranges)
    ensures var stripped := Strip(part);
            PartsRead([part] + more, rs) <==>
            if stripped == [] then PartsRead(more, rs)
            else rs != [] && ParsePart(stripped) == Some(rs[0]) && PartsRead(more, rs[1..])
  {
    hide Strip, ParsePart, PartReads, Squeezed;
    var parts := [part] + more;
    assert parts[0] == part && parts[1..] == more;
    forall rest
      ensures Squeezed(part, rest) <==> rest == Strip(part)
    {
      StripSqueezes(part, rest);
    }
    if rs != [] {
      PartIff(Strip(part), rs[0].0, rs[0].1);
    }
  }

  /** One turn of the parser's loop. */
  lemma ParseCons(part: string, rest: string)
    requires ',' !in part
    ensures var stripped := Strip(part);
            ParseRanges(part + ("," + rest)) ==
            if stripped == [] then ParseRanges(rest)
            else if ParsePart(stripped).Some? && ParseRanges(rest).Some?
                 then Some([ParsePart(stripped).value] + ParseRanges(rest).value) else None
  {
    FoundAt(part, ',', rest);
    hide Strip, ParsePart, IndexOf;
  }

  lemma ParseNone()
    ensures ParseRanges([]) == Some([]) && Strip([]) == []
  {
  }

  lemma ParseLast(part: string)
    requires ',' !in part
    ensures var stripped := Strip(part);
            ParseRanges(part) == if stripped == [] then Some([])
                                 else if ParsePart(stripped).Some? then Some([ParsePart(stripped).value]) else None
  {
    NotFound(part, ',');
    ParseNone();
    hide ParsePart, Strip, IndexOf;
    assert part[..|part|] == part;
    assert forall r: (int, int) :: [r] + [] == [r];
  }

  lemma NoParts(rs: Ranges)
    ensures PartsRead([], rs) <==> rs == []
  {
  }

  lemma ConsIs(r: (int, int), more: Ranges, rs: Ranges)
    ensures [r] + more == rs <==> rs != [] && rs[0] == r && rs[1..] == more
  {
    assert rs != [] ==> rs == [rs[0]] + rs[1..];
  }

  lemma LastParses(part: string, rs: Ranges)
    requires ',' !in part
    ensures ParseRanges(part) == Some(rs) <==> PartsRead([part], rs)
  {
    hide Strip, ParsePart, ParseRanges, PartsRead;
    PartsReadCons(part, [], rs);
    assert [part] + [] == [part];
    ParseLast(part);
    NoParts(rs);
    if rs != [] {
      NoParts(rs[1..]);
      ConsIs(rs[0], [], rs);
    }
    if ParsePart(Strip(part)).Some? {
      ConsIs(ParsePart(Strip(part)).value, [], rs);
      assert [ParsePart(Strip(part)).value] + [] == [ParsePart(Strip(part)).value];
    }
  }

  lemma {:induction false} ListParses(parts: seq<string>, rs: Ranges)
    requires parts != [] && NoCommas(parts)
    ensures ParseRanges(WithCommas(parts)) == Some(rs) <==> PartsRead(parts, rs)
  {
    hide Strip, ParsePart, ParseRanges, PartsRead;
    var part, more := parts[0], parts[1..];
    assert parts == [part] + more;
    if more == [] {
      assert parts == [part];
      LastParses(part, rs);
    } else {
      PartsReadCons(part, more, rs);
      ParseCons(part, WithCommas(more));
      ListParses(more, if Strip(part) == [] || rs == [] then rs else rs[1..]);
      if ParsePart(Strip(part)).Some? && ParseRanges(WithCommas(more)).Some? {
        ConsIs(ParsePart(Strip(part)).value, ParseRanges(WithCommas(more)).value, rs);
      }
    }
  }

  lemma {:induction false} SplitList(s: string) returns (parts: seq<string>)
    ensures parts != [] && NoCommas(parts) && s == WithCommas(parts)
    decreases |s|
  {
    NotFound(s, ',');
    var i := IndexOf(s, ',');
    hide IndexOf;
    if i == |s| {
      parts := [s];
    } else {
      var more := SplitList(s[i + 1..]);
      parts := [s[..i]] + more;
      assert parts[1..] == more;
    }
  }

  /** For every text: the parser reads it as these ranges exactly if it is a comma-separated list of parts that stand for
      them, with spaces and tabs anywhere. It throws exactly if it is not such a list, and accepts exactly if there are any
      ranges and every CPU they name is below 1024. */
  lemma ListIff(s: string, rs: Ranges)
    ensures ParseRanges(s) == Some(rs) <==> ListReads(s, rs)
    ensures Result(s) == Threw <==> !exists r :: ListReads(s, r)
    ensures Result(s) == Accepted <==>
            exists r :: ListReads(s, r) && r != [] && forall cpu :: InMask(r, cpu) ==> 0 <= cpu < 1024
  {
    hide ParseRanges, PartsRead, WithCommas, Names;
    if ParseRanges(s).Some? {
      InRangeIff(ParseRanges(s).value);
    }
    ReadsIff(s, rs);
    forall r
      ensures ParseRanges(s) == Some(r) <==> ListReads(s, r)
    {
      ReadsIff(s, r);
    }
    if ParseRanges(s).Some? {
      assert ListReads(s, ParseRanges(s).value);
    }
  }

  lemma InRangeIff(rs: Ranges)
    ensures InRange(rs) <==> forall cpu :: InMask(rs, cpu) ==> 0 <= cpu < 1024
  {
    hide Names;
    if forall cpu :: InMask(rs, cpu) ==> 0 <= cpu < 1024 {
      forall i, cpu | 0 <= i < |rs| && Names(rs[i], cpu)
        ensures 0 <= cpu < CPU_SETSIZE
      {
        assert InMask(rs, cpu);
      }
    }
  }

  lemma ReadsIff(s: string, rs: Ranges)
    ensures ParseRanges(s) == Some(rs) <==> ListReads(s, rs)
  {
    hide ParseRanges, PartsRead, WithCommas;
    var parts := SplitList(s);
    ListParses(parts, rs);
    forall ps | ps != [] && NoCommas(ps) && s == WithCommas(ps)
      ensures PartsRead(ps, rs) <==> ParseRanges(s) == Some(rs)
    {
      ListParses(ps, rs);
    }
  }
}
