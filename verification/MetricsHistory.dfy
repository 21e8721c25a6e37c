/** The rotating metrics log (sampler.cpp). A directory maps file names to the lines of each file. */
module MetricsHistory {
  import opened Wrappers
  import opened Sequences

  type Line = string
  type Log = seq<Line>

  /** metrics.log, or metrics.log.<n>. */
  datatype FileName = Current | Old(n: nat)

  type Directory = map<FileName, Log>

  /** Bytes of a file: every line ends in a newline. */
  function Size(l: Log): nat {
    if l == [] then 0 else Size(l[..|l| - 1]) + |l[|l| - 1]| + 1
  }

  /** What the file holds. */
  function Text(l: Log): string {
    if l == [] then "" else Text(l[..|l| - 1]) + l[|l| - 1] + "\n"
  }

  /** The size that decides about a rotation is that of the whole text, newlines included. */
  lemma {:induction false} SizeIsLength(l: Log)
    ensures Size(l) == |Text(l)|
  {
    if l != [] {
      SizeIsLength(l[..|l| - 1]);
    }
  }

  /** The name that ends up i places from the newest. */
  function Name(i: nat): FileName {
    if i == 0 then Current else Old(i)
  }

  /** remove: nothing happens if there is no such file. */
  function Remove(d: Directory, f: FileName): Directory {
    d - {f}
  }

  /** rename, guarded by exists: replaces the target. */
  function RenameIfExists(d: Directory, from: FileName, to: FileName): Directory {
    if from in d then (d - {from})[to := d[from]] else d
  }

  /** Shifts files i, i-1, .., 0 up by one. */
  function ShiftFrom(d: Directory, i: int): Directory
    decreases i + 1
  {
    if i < 0 then d else ShiftFrom(RenameIfExists(d, Name(i), Old(i + 1)), i - 1)
  }

  /** The size_t subtraction in the name of the file to be removed. */
  function OldestName(maxFiles: u64): FileName {
    Old((maxFiles - 1) % TWO_TO_THE_64)
  }

  /** Where the shifting loop starts: a size_t subtraction narrowed to an int. */
  function StartIndex(maxFiles: u64): int {
    Int32((maxFiles - 2) % TWO_TO_THE_64)
  }

  /** The shifting loop runs. Starting at INT_MAX its first i + 1 would overflow, which C++ leaves undefined. */
  predicate Rotates(maxFiles: u64) {
    0 <= StartIndex(maxFiles) < INT_MAX
  }

  function Rotate(d: Directory, maxFiles: u64): Directory {
    ShiftFrom(Remove(d, OldestName(maxFiles)), StartIndex(maxFiles))
  }

  function Write(d: Directory, line: Line): Directory {
    d[Current := (if Current in d then d[Current] else []) + [line]]
  }

  function Append(d: Directory, maxFiles: u64, maxFileSize: nat, line: Line): Directory {
    var r := if Current in d && Size(d[Current]) > maxFileSize then Rotate(d, maxFiles) else d;
    Write(r, line)
  }

  function AppendAll(maxFiles: u64, maxFileSize: nat, lines: seq<Line>): Directory {
    if lines == [] then map[]
    else Append(AppendAll(maxFiles, maxFileSize, lines[..|lines| - 1]), maxFiles, maxFileSize, lines[|lines| - 1])
  }

  // ----- the history as a list of files, newest first -----

  /** How far a file is from the newest. The name metrics.log.0 is never used. */
  function Age(f: FileName): nat {
    match f
    case Current => 0
    case Old(n) => n
  }

  /** Exactly the files of age 0..|files|-1 exist, with these contents. */
  ghost predicate Holds(d: Directory, files: seq<Log>) {
    && (forall f :: f in d <==> f != Old(0) && Age(f) < |files|)
    && (forall f :: f in d ==> d[f] == files[Age(f)])
  }

  /** All remaining lines, oldest first. */
  function Concat(files: seq<Log>): Log {
    if files == [] then [] else Concat(files[1..]) + files[0]
  }

  /** Only the last line of a file may take it over the limit. */
  ghost predicate WithinLimit(l: Log, maxFileSize: nat) {
    l != [] && Size(l[..|l| - 1]) <= maxFileSize
  }

  /** The shift, seen half way: files above i have already moved up by one, and there is none of age i + 1. */
  ghost predicate Shifted(d: Directory, files: seq<Log>, i: int) {
    && -1 <= i < |files|
    && (forall f :: f in d <==> f != Old(0) && (Age(f) <= i || i + 1 < Age(f) <= |files|))
    && (forall f :: f in d ==> d[f] == files[if Age(f) <= i then Age(f) else Age(f) - 1])
  }

  lemma {:induction false} ShiftMissing(d: Directory, i: int, n: int)
    requires -1 <= n <= i && forall j: nat :: n < j <= i ==> Name(j) !in d
    ensures ShiftFrom(d, i) == ShiftFrom(d, n)
    decreases i - n
  {
    if n < i {
      assert Name(i) !in d;
      ShiftMissing(d, i - 1, n);
    }
  }

  lemma {:induction false} ShiftAll(d: Directory, files: seq<Log>, i: int)
    requires Shifted(d, files, i)
    ensures Shifted(ShiftFrom(d, i), files, -1)
    decreases i + 1
  {
    if i >= 0 {
      assert Name(i) in d;
      ShiftAll(RenameIfExists(d, Name(i), Old(i + 1)), files, i - 1);
    }
  }

  // ----- when the files are rotated at all -----

  /** How many files rotation keeps. */
  function Places(maxFiles: u64): nat
    requires Rotates(maxFiles)
  {
    StartIndex(maxFiles) + 2
  }

  /** The narrowing to int decides whether anything is rotated, and how many files are kept: max_files of them up to 2^31,
      and fewer or none above that. */
  lemma RotatesIff(maxFiles: u64)
    ensures Rotates(maxFiles) <==> maxFiles >= 2 && (maxFiles - 2) % 0x1_0000_0000 < INT_MAX
    ensures StartIndex(maxFiles) < 0 <==> maxFiles < 2 || (maxFiles - 2) % 0x1_0000_0000 > INT_MAX
    ensures Rotates(maxFiles) ==> Places(maxFiles) == (maxFiles - 2) % 0x1_0000_0000 + 2 <= maxFiles
  {
    if maxFiles < 2 {
      assert StartIndex(maxFiles) == maxFiles - 2;
    } else {
      var v := maxFiles - 2;
      assert v % TWO_TO_THE_64 == v;
      NarrowAgain(v);
    }
  }

  lemma NarrowAgain(v: nat)
    ensures Int32(v) == if v % 0x1_0000_0000 < 0x8000_0000 then v % 0x1_0000_0000 else v % 0x1_0000_0000 - 0x1_0000_0000
  {
    var low := v % 0x1_0000_0000;
    assert (v + 0x8000_0000) % 0x1_0000_0000 == (low + 0x8000_0000) % 0x1_0000_0000;
  }

  // ----- rotation -----

  lemma ShiftMoves(d: Directory, files: seq<Log>, places: nat)
    requires 2 <= places && Holds(d, files) && |files| <= places
    ensures var kept := if |files| == places then files[..places - 1] else files;
            Shifted(ShiftFrom(Remove(d, Old(places - 1)), places - 2), kept, -1)
  {
    hide Shifted, Holds, Remove, ShiftFrom, Name;
    var kept := if |files| == places then files[..places - 1] else files;
    var e := Remove(d, Old(places - 1));
    RemoveLast(d, files, places);
    MissingAbove(e, kept, places);
    ShiftMissing(e, places - 2, |kept| - 1);
    ShiftAll(e, kept, |kept| - 1);
  }

  /** Rotation moves every file up one place, and drops the last if all places are taken. */
  lemma RotateMoves(d: Directory, files: seq<Log>, maxFiles: u64)
    requires Rotates(maxFiles) && Holds(d, files) && |files| <= Places(maxFiles)
    ensures var kept := if |files| == Places(maxFiles) then files[..Places(maxFiles) - 1] else files;
            Shifted(Rotate(d, maxFiles), kept, -1)
  {
    hide Rotate, Shifted, Holds, Remove, ShiftFrom, Name, StartIndex;
    LastPlaceGoes(d, files, maxFiles);
    ShiftMoves(d, files, Places(maxFiles));
  }

  lemma PlacesAre(maxFiles: u64)
    requires Rotates(maxFiles)
    ensures StartIndex(maxFiles) == Places(maxFiles) - 2 && 2 <= Places(maxFiles) <= maxFiles
    ensures OldestName(maxFiles) == Old(maxFiles - 1)
  {
    RotatesIff(maxFiles);
  }

  /** Whether the file in the last place is removed by name or replaced by the first rename. */
  lemma LastPlaceGoes(d: Directory, files: seq<Log>, maxFiles: u64)
    requires Rotates(maxFiles) && Holds(d, files) && |files| <= Places(maxFiles)
    ensures Rotate(d, maxFiles) == ShiftFrom(Remove(d, Old(Places(maxFiles) - 1)), Places(maxFiles) - 2)
  {
    hide Rotates, StartIndex, OldestName, Places, ShiftFrom, Remove, Holds;
    var places := Places(maxFiles);
    PlacesAre(maxFiles);
    if places < maxFiles {
      RemoveAbsent(d, files, maxFiles - 1);
      if |files| == places {
        ShiftReplaces(d, files);
      } else {
        RemoveAbsent(d, files, places - 1);
      }
    }
  }

  lemma RemoveAbsent(d: Directory, files: seq<Log>, age: nat)
    requires Holds(d, files) && |files| <= age
    ensures Remove(d, Old(age)) == d
  {
    assert Old(age) !in d;
  }

  /** The first rename replaces the last file, so that removing it before makes no difference. */
  lemma ShiftReplaces(d: Directory, files: seq<Log>)
    requires Holds(d, files) && |files| >= 2
    ensures ShiftFrom(d, |files| - 2) == ShiftFrom(Remove(d, Old(|files| - 1)), |files| - 2)
  {
    var i := |files| - 2;
    assert Name(i) in d;
    var e := Remove(d, Old(i + 1));
    assert RenameIfExists(d, Name(i), Old(i + 1)) == RenameIfExists(e, Name(i), Old(i + 1));
    ShiftOnce(d, i);
    ShiftOnce(e, i);
  }

  lemma ShiftOnce(d: Directory, i: nat)
    ensures ShiftFrom(d, i) == ShiftFrom(RenameIfExists(d, Name(i), Old(i + 1)), i - 1)
  {
  }

  lemma RemoveLast(d: Directory, files: seq<Log>, places: nat)
    requires 2 <= places && Holds(d, files) && |files| <= places
    ensures var kept := if |files| == places then files[..places - 1] else files;
            Shifted(Remove(d, Old(places - 1)), kept, |kept| - 1)
  {
  }

  lemma MissingAbove(e: Directory, kept: seq<Log>, places: nat)
    requires Shifted(e, kept, |kept| - 1)
    ensures forall j: nat :: |kept| - 1 < j <= places - 2 ==> Name(j) !in e
  {
  }

  /** The new list of files after an append. */
  function AppendTo(files: seq<Log>, places: nat, maxFileSize: nat, line: Line): seq<Log>
    requires places >= 2
  {
    if files == [] then [[line]]
    else if Size(files[0]) > maxFileSize then
      [[line]] + if |files| == places then files[..places - 1] else files
    else [files[0] + [line]] + files[1..]
  }

  lemma WriteNew(d: Directory, kept: seq<Log>, line: Line)
    requires Shifted(d, kept, -1)
    ensures Holds(Write(d, line), [[line]] + kept)
  {
    assert Current !in d;
  }

  lemma AppendHolds(d: Directory, files: seq<Log>, maxFiles: u64, maxFileSize: nat, line: Line)
    requires Rotates(maxFiles) && Holds(d, files) && |files| <= Places(maxFiles)
    ensures Holds(Append(d, maxFiles, maxFileSize, line), AppendTo(files, Places(maxFiles), maxFileSize, line))
  {
    var places := Places(maxFiles);
    assert Current in d <==> files != [];
    hide Rotate, StartIndex;
    if files != [] && Size(files[0]) > maxFileSize {
      RotateMoves(d, files, maxFiles);
      WriteNew(Rotate(d, maxFiles), if |files| == places then files[..places - 1] else files, line);
    }
  }

  lemma {:induction false} ConcatDropLast(files: seq<Log>)
    requires files != []
    ensures IsSuffix(Concat(files[..|files| - 1]), Concat(files))
  {
    if |files| > 1 {
      ConcatDropLast(files[1..]);
      assert files[..|files| - 1][1..] == files[1..][..|files| - 2];
      SuffixExtend(Concat(files[1..][..|files| - 2]), Concat(files[1..]), files[0]);
    }
  }

  lemma AppendToConcat(files: seq<Log>, places: nat, maxFileSize: nat, line: Line)
    requires 2 <= places && |files| <= places
    ensures IsSuffix(Concat(AppendTo(files, places, maxFileSize, line)), Concat(files) + [line])
    ensures |files| < places || Size(files[0]) <= maxFileSize ==>
              Concat(AppendTo(files, places, maxFileSize, line)) == Concat(files) + [line]
  {
    hide IsSuffix;
    if files != [] && Size(files[0]) > maxFileSize && |files| == places {
      ConcatCons([line], files[..places - 1]);
      ConcatDropLast(files);
      hide Concat;
      SuffixExtend(Concat(files[..places - 1]), Concat(files), [line]);
    } else {
      AppendKeepsAll(files, places, maxFileSize, line);
      SuffixSelf(Concat(files) + [line]);
    }
  }

  lemma AppendKeepsAll(files: seq<Log>, places: nat, maxFileSize: nat, line: Line)
    requires 2 <= places && |files| <= places
    requires files == [] || Size(files[0]) <= maxFileSize || |files| < places
    ensures Concat(AppendTo(files, places, maxFileSize, line)) == Concat(files) + [line]
  {
    hide Size;
    if files == [] || Size(files[0]) > maxFileSize {
      ConcatCons([line], files);
      hide Concat;
      assert [[line]] + files == AppendTo(files, places, maxFileSize, line);
    } else {
      ConcatCons(files[0] + [line], files[1..]);
      hide Concat;
      ConcatHead(files);
      ConcatAssoc(Concat(files[1..]), files[0], [line]);
    }
  }

  lemma ConcatHead(files: seq<Log>)
    requires files != []
    ensures Concat(files) == Concat(files[1..]) + files[0]
  {
  }

  lemma ConcatCons(first: Log, rest: seq<Log>)
    ensures Concat([first] + rest) == Concat(rest) + first
  {
    assert ([first] + rest)[1..] == rest;
  }

  lemma SuffixSelf(s: Log)
    ensures IsSuffix(s, s)
  {
  }

  ghost predicate AllWithin(files: seq<Log>, maxFileSize: nat) {
    forall i :: 0 <= i < |files| ==> WithinLimit(files[i], maxFileSize)
  }

  /** From an initially empty directory, after any appends: at most Places(maxFiles) files exist, named without gaps; their
      lines from oldest file to newest are a suffix of everything appended, ending in the newest line; and each file is
      within the size limit but for its last line. */
  lemma {:induction false} LogIsSuffix(maxFiles: u64, maxFileSize: nat, lines: seq<Line>) returns (files: seq<Log>)
    requires Rotates(maxFiles)
    ensures Holds(AppendAll(maxFiles, maxFileSize, lines), files) && |files| <= Places(maxFiles) <= maxFiles
    ensures IsSuffix(Concat(files), lines) && (lines != [] ==> files != [])
    ensures AllWithin(files, maxFileSize)
  {
    RotatesIff(maxFiles);
    hide Holds, IsSuffix, Concat, AllWithin, Append, AppendTo, StartIndex;
    if lines == [] {
      files := [];
      EmptyLog(maxFileSize);
    } else {
      var n := |lines| - 1;
      var before := LogIsSuffix(maxFiles, maxFileSize, lines[..n]);
      files := AppendTo(before, Places(maxFiles), maxFileSize, lines[n]);
      AppendHolds(AppendAll(maxFiles, maxFileSize, lines[..n]), before, maxFiles, maxFileSize, lines[n]);
      AppendStep(before, Places(maxFiles), maxFileSize, lines[..n], lines[n]);
      SplitLast(lines);
    }
  }

  lemma EmptyLog(maxFileSize: nat)
    ensures Holds(map[], []) && IsSuffix(Concat([]), []) && AllWithin([], maxFileSize)
  {
  }

  lemma AppendStep(before: seq<Log>, places: nat, maxFileSize: nat, lines: seq<Line>, line: Line)
    requires 2 <= places && |before| <= places
    requires IsSuffix(Concat(before), lines) && AllWithin(before, maxFileSize)
    ensures var files := AppendTo(before, places, maxFileSize, line);
            && files != [] && |files| <= places
            && IsSuffix(Concat(files), lines + [line]) && AllWithin(files, maxFileSize)
  {
    hide Concat, IsSuffix, WithinLimit, Size;
    var files := AppendTo(before, places, maxFileSize, line);
    AppendToConcat(before, places, maxFileSize, line);
    SuffixExtend(Concat(before), lines, [line]);
    SuffixTrans(Concat(files), Concat(before) + [line], lines + [line]);
    forall i | 0 <= i < |files|
      ensures WithinLimit(files[i], maxFileSize)
    {
      AppendWithinLimit(before, places, maxFileSize, line, i);
    }
  }

  lemma AppendWithinLimit(files: seq<Log>, places: nat, maxFileSize: nat, line: Line, i: nat)
    requires 2 <= places && |files| <= places
    requires forall j :: 0 <= j < |files| ==> WithinLimit(files[j], maxFileSize)
    requires i < |AppendTo(files, places, maxFileSize, line)|
    ensures WithinLimit(AppendTo(files, places, maxFileSize, line)[i], maxFileSize)
  {
    var l := AppendTo(files, places, maxFileSize, line)[i];
    if i == 0 {
      assert l[..|l| - 1] == if files == [] || Size(files[0]) > maxFileSize then [] else files[0];
    }
  }

  // ----- when nothing is rotated -----

  /** If the loop index starts below zero nothing is ever renamed, so nothing is lost and the one file grows for ever. */
  lemma {:induction false} OneFileForEver(maxFiles: u64, maxFileSize: nat, lines: seq<Line>)
    requires StartIndex(maxFiles) < 0
    ensures AppendAll(maxFiles, maxFileSize, lines) == if lines == [] then map[] else map[Current := lines]
  {
    hide Size, Append, StartIndex;
    if lines != [] {
      var n := |lines| - 1;
      OneFileForEver(maxFiles, maxFileSize, lines[..n]);
      OneFileGrows(maxFiles, maxFileSize, lines[..n], lines[n]);
      SplitLast(lines);
    }
  }

  lemma OneFileGrows(maxFiles: u64, maxFileSize: nat, before: Log, line: Line)
    requires StartIndex(maxFiles) < 0
    ensures Append(if before == [] then map[] else map[Current := before], maxFiles, maxFileSize, line) ==
            map[Current := before + [line]]
  {
    hide Size, StartIndex;
    var d: Directory := if before == [] then map[] else map[Current := before];
    assert Rotate(d, maxFiles) == d;
  }

  ghost predicate SizeLimitKept(d: Directory, maxFileSize: nat) {
    forall f :: f in d ==> WithinLimit(d[f], maxFileSize)
  }

  function EmptyLines(n: nat): seq<Line> {
    if n == 0 then [] else EmptyLines(n - 1) + [""]
  }

  lemma {:induction false} EmptyLinesSize(n: nat)
    ensures |EmptyLines(n)| == n && Size(EmptyLines(n)) == n
  {
    if n > 0 {
      EmptyLinesSize(n - 1);
      assert EmptyLines(n)[..n - 1] == EmptyLines(n - 1);
    }
  }

  /** The size limit holds for every history if and only if the files are rotated at all: for max_files 0 and 1, and for
      the values above 2^31 that narrow to a negative int, some history takes metrics.log past it. */
  lemma SizeLimitIff(maxFiles: u64, maxFileSize: nat)
    requires StartIndex(maxFiles) != INT_MAX
    ensures (forall lines :: SizeLimitKept(AppendAll(maxFiles, maxFileSize, lines), maxFileSize)) <==> Rotates(maxFiles)
  {
    hide Size, Int32, AppendAll;
    if Rotates(maxFiles) {
      forall lines
        ensures SizeLimitKept(AppendAll(maxFiles, maxFileSize, lines), maxFileSize)
      {
        var files := LogIsSuffix(maxFiles, maxFileSize, lines);
      }
    } else {
      var lines := EmptyLines(maxFileSize + 2);
      EmptyLinesSize(maxFileSize + 2);
      EmptyLinesSize(maxFileSize + 1);
      assert lines[..maxFileSize + 1] == EmptyLines(maxFileSize + 1);
      assert !WithinLimit(lines, maxFileSize);
      OneFileForEver(maxFiles, maxFileSize, lines);
      assert AppendAll(maxFiles, maxFileSize, lines)[Current] == lines;
      assert !SizeLimitKept(AppendAll(maxFiles, maxFileSize, lines), maxFileSize);
    }
  }

  // ----- the program -----

  class MetricsHistory {
    const maxFileSize: nat
    const maxFiles: u64
    var files: Directory

    constructor (maxFileSize: nat, maxFiles: u64)
      ensures files == map[] && this.maxFileSize == maxFileSize && this.maxFiles == maxFiles
    {
      this.maxFileSize, this.maxFiles, files := maxFileSize, maxFiles, map[];
    }

    method RotateFiles()
      requires StartIndex(maxFiles) != INT_MAX
      modifies this
      ensures files == Rotate(old(files), maxFiles)
    {
      var oldest := OldestName(maxFiles);
      files := files - {oldest};
      var i := Int32((maxFiles - 2) % TWO_TO_THE_64);
      while i >= 0
        invariant -1 <= i || i == StartIndex(maxFiles)
        invariant ShiftFrom(files, i) == Rotate(old(files), maxFiles)
        decreases i + 1
      {
        var from := Name(i);
        var to := Old(i + 1);
        if from in files {
          files := (files - {from})[to := files[from]];
        }
        i := i - 1;
      }
    }

    method AppendLine(line: Line)
      requires StartIndex(maxFiles) != INT_MAX
      modifies this
      ensures files == Append(old(files), maxFiles, maxFileSize, line)
    {
      if Current in files && Size(files[Current]) > maxFileSize {
        RotateFiles();
      }
      files := files[Current := (if Current in files then files[Current] else []) + [line]];
    }
  }
}
