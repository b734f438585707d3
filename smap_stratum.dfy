/**
 * The JSR-045 ("Debugging Support for Other Languages") stratum that the JSP compiler
 * builds for each generated servlet: a FileSection (the table of source files) and a
 * LineSection (records mapping JSP input lines to generated Java output lines), its
 * compression, its rendering as `SMAP ... *E` text, and the reverse lookup from a Java
 * line to a JSP line.
 */
module Smap {
  import opened Wrappers
  import Decimal
  import Lists

  /** The exceptions the stratum throws. */
  datatype SmapError =
    | NegativeParameter(value: int)   // IllegalArgumentException from a LineInfo setter
    | UnknownInputFile(path: Option<string>)  // IllegalArgumentException from addLineData
    | IllegalState                    // IllegalStateException from getString / getSmapString
    | DivisionByZero                  // ArithmeticException in getInputLineNumber
    | IndexOutOfBounds(index: int)    // from filePathList.get in getInputLineNumber

  // ------------------------------------------------------------------ LineInfo

  /** The value held by one `LineInfo` object: one record of the LineSection. */
  datatype Line = Line(
    inputStartLine: int,
    outputStartLine: int,
    lineFileID: int,
    inputLineCount: int,
    outputLineIncrement: int,
    lineFileIDSet: bool)

  /** A freshly constructed `LineInfo`: both start lines unset (-1). */
  const InitialLine := Line(-1, -1, 0, 1, 1, false)

  /** What the setters' guards keep true of every `LineInfo`. */
  predicate WellFormed(l: Line) {
    l.inputStartLine >= -1 && l.outputStartLine >= -1 && l.lineFileID >= 0
    && l.inputLineCount >= 0 && l.outputLineIncrement >= 0
  }

  predicate AllWellFormed(s: seq<Line>) {
    forall k :: 0 <= k < |s| ==> WellFormed(s[k])
  }

  /** `SmapStratum.LineInfo`: a mutable record whose setters reject negative values. */
  class LineInfo {
    var inputStartLine: int
    var outputStartLine: int
    var lineFileID: int
    var inputLineCount: int
    var outputLineIncrement: int
    var lineFileIDSet: bool

    function View(): Line
      reads this
    {
      Line(inputStartLine, outputStartLine, lineFileID, inputLineCount, outputLineIncrement, lineFileIDSet)
    }

    ghost predicate Valid()
      reads this
    {
      WellFormed(View())
    }

    constructor ()
      ensures View() == InitialLine && Valid()
    {
      inputStartLine, outputStartLine, lineFileID := -1, -1, 0;
      inputLineCount, outputLineIncrement, lineFileIDSet := 1, 1, false;
    }

    method SetInputStartLine(v: int) returns (r: Result<(), SmapError>)
      modifies this
      ensures v < 0 ==> r == Failure(NegativeParameter(v)) && View() == old(View())
      ensures v >= 0 ==> r == Success(()) && View() == old(View()).(inputStartLine := v)
    {
      if v < 0 {
        return Failure(NegativeParameter(v));
      }
      inputStartLine := v;
      return Success(());
    }

    method SetOutputStartLine(v: int) returns (r: Result<(), SmapError>)
      modifies this
      ensures v < 0 ==> r == Failure(NegativeParameter(v)) && View() == old(View())
      ensures v >= 0 ==> r == Success(()) && View() == old(View()).(outputStartLine := v)
    {
      if v < 0 {
        return Failure(NegativeParameter(v));
      }
      outputStartLine := v;
      return Success(());
    }

    /** Besides storing the id, marks it as explicitly set, so that it is printed. */
    method SetLineFileID(v: int) returns (r: Result<(), SmapError>)
      modifies this
      ensures v < 0 ==> r == Failure(NegativeParameter(v)) && View() == old(View())
      ensures v >= 0 ==> r == Success(()) && View() == old(View()).(lineFileID := v, lineFileIDSet := true)
    {
      if v < 0 {
        return Failure(NegativeParameter(v));
      }
      lineFileID := v;
      lineFileIDSet := true;
      return Success(());
    }

    method SetInputLineCount(v: int) returns (r: Result<(), SmapError>)
      modifies this
      ensures v < 0 ==> r == Failure(NegativeParameter(v)) && View() == old(View())
      ensures v >= 0 ==> r == Success(()) && View() == old(View()).(inputLineCount := v)
    {
      if v < 0 {
        return Failure(NegativeParameter(v));
      }
      inputLineCount := v;
      return Success(());
    }

    method SetOutputLineIncrement(v: int) returns (r: Result<(), SmapError>)
      modifies this
      ensures v < 0 ==> r == Failure(NegativeParameter(v)) && View() == old(View())
      ensures v >= 0 ==> r == Success(()) && View() == old(View()).(outputLineIncrement := v)
    {
      if v < 0 {
        return Failure(NegativeParameter(v));
      }
      outputLineIncrement := v;
      return Success(());
    }
  }

  /** `getMaxOutputLineNumber`: one past the last output line a record maps. */
  function MaxOutputLineNumber(l: Line): int {
    l.outputStartLine + l.inputLineCount * l.outputLineIncrement
  }

  /**
   * The meaning of one record in JSR-045 terms: input line `i` is mapped to the
   * `outputLineIncrement` output lines starting at `outputStartLine + (i - inputStartLine) * increment`.
   */
  ghost predicate MapsTo(l: Line, i: int, o: int) {
    l.inputStartLine <= i < l.inputStartLine + l.inputLineCount
    && l.outputStartLine + (i - l.inputStartLine) * l.outputLineIncrement <= o
    && o < l.outputStartLine + (i - l.inputStartLine) * l.outputLineIncrement + l.outputLineIncrement
  }

  /** Every output line a well-formed record maps lies below `getMaxOutputLineNumber`. */
  lemma MapsToBelowMax(l: Line, i: int, o: int)
    requires WellFormed(l) && MapsTo(l, i, o)
    ensures l.outputStartLine <= o < MaxOutputLineNumber(l)
  {
    var d := i - l.inputStartLine;
    assert 0 <= d < l.inputLineCount;
    assert d * l.outputLineIncrement + l.outputLineIncrement == (d + 1) * l.outputLineIncrement;
    assert (d + 1) * l.outputLineIncrement <= l.inputLineCount * l.outputLineIncrement by {
      MulMonotone(d + 1, l.inputLineCount, l.outputLineIncrement);
    }
    assert 0 <= d * l.outputLineIncrement by {
      MulMonotone(0, d, l.outputLineIncrement);
    }
  }

  lemma MulMonotone(a: int, b: int, c: int)
    requires a <= b && c >= 0
    ensures a * c <= b * c
  {
  }

  /** `LineInfo.getString`: one LineSection line, with the optional parts only when needed. */
  function LineString(l: Line): (r: Result<string, SmapError>)
    ensures r.Failure? <==> l.inputStartLine == -1 || l.outputStartLine == -1
    ensures r.Failure? ==> r.error == IllegalState
    ensures r.Success? ==> |r.value| > 0 && r.value[|r.value| - 1] == '\n'
  {
    if l.inputStartLine == -1 || l.outputStartLine == -1 then Failure(IllegalState)
    else
      Success(Decimal.IntToString(l.inputStartLine)
        + (if l.lineFileIDSet then "#" + Decimal.IntToString(l.lineFileID) else "")
        + (if l.inputLineCount != 1 then "," + Decimal.IntToString(l.inputLineCount) else "")
        + ":" + Decimal.IntToString(l.outputStartLine)
        + (if l.outputLineIncrement != 1 then "," + Decimal.IntToString(l.outputLineIncrement) else "")
        + "\n")
  }

  /** What a reader of a LineSection line recovers: the omitted parts take their JSR-045 defaults. */
  datatype LineFields = LineFields(
    inputStartLine: nat,
    lineFileID: Option<nat>,
    repeatCount: nat,
    outputStartLine: nat,
    outputLineIncrement: nat)

  function FieldsOf(l: Line): LineFields
    requires WellFormed(l) && l.inputStartLine >= 0 && l.outputStartLine >= 0
  {
    LineFields(l.inputStartLine, if l.lineFileIDSet then Some(l.lineFileID as nat) else None,
      l.inputLineCount, l.outputStartLine, l.outputLineIncrement)
  }

  /** Reads `,n` if present, otherwise the default 1. */
  function ParseOptionalCount(s: string): (r: (bool, nat, string))
    ensures r.0 ==> |r.2| <= |s|
  {
    if |s| > 0 && s[0] == ',' then Decimal.ParseNat(s[1..]) else (true, 1, s)
  }

  /** Reads `#id` if present. */
  function ParseFileId(s: string): (r: (bool, Option<nat>, string))
    ensures r.0 ==> |r.2| <= |s|
  {
    if |s| > 0 && s[0] == '#' then
      var (ok, n, rest) := Decimal.ParseNat(s[1..]);
      (ok, Some(n), rest)
    else (true, None, s)
  }

  /** Reads one line `in[#id][,count]:out[,incr]\n` and returns the rest of the text. */
  function ParseLine(s: string): (r: Option<(LineFields, string)>)
    ensures r.Some? ==> |r.value.1| < |s|
  {
    var (ok, i, rest) := Decimal.ParseNat(s);
    if !ok then None else ParseAfterInputLine(i, rest)
  }

  function ParseAfterInputLine(i: nat, s: string): (r: Option<(LineFields, string)>)
    ensures r.Some? ==> |r.value.1| < |s|
  {
    var (ok, id, rest) := ParseFileId(s);
    if !ok then None
    else
      var (ok', count, rest') := ParseOptionalCount(rest);
      if !ok' || |rest'| == 0 || rest'[0] != ':' then None
      else ParseOutputPart(i, id, count, rest'[1..])
  }

  function ParseOutputPart(i: nat, id: Option<nat>, count: nat, s: string): (r: Option<(LineFields, string)>)
    ensures r.Some? ==> |r.value.1| < |s|
  {
    var (ok, o, rest) := Decimal.ParseNat(s);
    if !ok then None
    else
      var (ok', incr, rest') := ParseOptionalCount(rest);
      if !ok' || |rest'| == 0 || rest'[0] != '\n' then None
      else Some((LineFields(i, id, count, o, incr), rest'[1..]))
  }

  lemma NatText(n: nat)
    ensures Decimal.IntToString(n) == Decimal.NatToString(n)
  {
  }

  /** The optional `,n` part: rendered when `n != 1`, and read back as `n` either way. */
  lemma OptionalCountRoundTrip(n: nat, rest: string)
    requires |rest| > 0 && !Decimal.IsDigit(rest[0]) && rest[0] != ','
    ensures ParseOptionalCount((if n != 1 then "," + Decimal.IntToString(n) else "") + rest) == (true, n, rest)
  {
    if n != 1 {
      NatText(n);
      var t := "," + Decimal.NatToString(n) + rest;
      assert t[1..] == Decimal.NatToString(n) + rest;
      Decimal.NatRoundTrip(n, rest);
    } else {
      assert "" + rest == rest;
    }
  }

  lemma FileIdRoundTrip(l: Line, rest: string)
    requires WellFormed(l)
    requires |rest| > 0 && !Decimal.IsDigit(rest[0]) && rest[0] != '#'
    ensures ParseFileId((if l.lineFileIDSet then "#" + Decimal.IntToString(l.lineFileID) else "") + rest)
      == (true, if l.lineFileIDSet then Some(l.lineFileID as nat) else None, rest)
  {
    if l.lineFileIDSet {
      NatText(l.lineFileID);
      var t := "#" + Decimal.NatToString(l.lineFileID) + rest;
      assert t[1..] == Decimal.NatToString(l.lineFileID) + rest;
      Decimal.NatRoundTrip(l.lineFileID, rest);
    } else {
      assert "" + rest == rest;
    }
  }

  lemma OutputPartRoundTrip(l: Line, rest: string)
    requires WellFormed(l) && l.inputStartLine >= 0 && l.outputStartLine >= 0
    ensures ParseOutputPart(l.inputStartLine, if l.lineFileIDSet then Some(l.lineFileID as nat) else None,
      l.inputLineCount, Decimal.IntToString(l.outputStartLine)
        + ((if l.outputLineIncrement != 1 then "," + Decimal.IntToString(l.outputLineIncrement) else "")
        + ("\n" + rest)))
      == Some((FieldsOf(l), rest))
  {
    var e := if l.outputLineIncrement != 1 then "," + Decimal.IntToString(l.outputLineIncrement) else "";
    NatText(l.outputStartLine);
    Decimal.NatRoundTrip(l.outputStartLine, e + ("\n" + rest));
    OptionalCountRoundTrip(l.outputLineIncrement, "\n" + rest);
    assert ("\n" + rest)[1..] == rest;
  }

  lemma AfterInputLineRoundTrip(l: Line, rest: string)
    requires WellFormed(l) && l.inputStartLine >= 0 && l.outputStartLine >= 0
    ensures ParseAfterInputLine(l.inputStartLine,
      (if l.lineFileIDSet then "#" + Decimal.IntToString(l.lineFileID) else "")
      + ((if l.inputLineCount != 1 then "," + Decimal.IntToString(l.inputLineCount) else "")
      + (":" + (Decimal.IntToString(l.outputStartLine)
      + ((if l.outputLineIncrement != 1 then "," + Decimal.IntToString(l.outputLineIncrement) else "")
      + ("\n" + rest))))))
      == Some((FieldsOf(l), rest))
  {
    var c := if l.inputLineCount != 1 then "," + Decimal.IntToString(l.inputLineCount) else "";
    var d := Decimal.IntToString(l.outputStartLine);
    var e := if l.outputLineIncrement != 1 then "," + Decimal.IntToString(l.outputLineIncrement) else "";
    var t4 := d + (e + ("\n" + rest));
    var t3 := ":" + t4;
    var t2 := c + t3;
    FileIdRoundTrip(l, t2);
    OptionalCountRoundTrip(l.inputLineCount, t3);
    assert t3[1..] == t4;
    OutputPartRoundTrip(l, rest);
  }

  lemma LineStringShape(l: Line, rest: string)
    requires l.inputStartLine != -1 && l.outputStartLine != -1
    ensures LineString(l).value + rest
      == Decimal.IntToString(l.inputStartLine)
      + ((if l.lineFileIDSet then "#" + Decimal.IntToString(l.lineFileID) else "")
      + ((if l.inputLineCount != 1 then "," + Decimal.IntToString(l.inputLineCount) else "")
      + (":" + (Decimal.IntToString(l.outputStartLine)
      + ((if l.outputLineIncrement != 1 then "," + Decimal.IntToString(l.outputLineIncrement) else "")
      + ("\n" + rest))))))
  {
    var a := Decimal.IntToString(l.inputStartLine);
    var b := if l.lineFileIDSet then "#" + Decimal.IntToString(l.lineFileID) else "";
    var c := if l.inputLineCount != 1 then "," + Decimal.IntToString(l.inputLineCount) else "";
    var d := Decimal.IntToString(l.outputStartLine);
    var e := if l.outputLineIncrement != 1 then "," + Decimal.IntToString(l.outputLineIncrement) else "";
    assert LineString(l).value == a + b + c + ":" + d + e + "\n";
    ConcatShape(a, b, c, ":", d, e, "\n", rest);
  }

  lemma ConcatShape<T>(a: seq<T>, b: seq<T>, c: seq<T>, d: seq<T>, e: seq<T>, f: seq<T>, g: seq<T>, rest: seq<T>)
    ensures a + b + c + d + e + f + g + rest == a + (b + (c + (d + (e + (f + (g + rest))))))
  {
  }

  /** A rendered line is read back as the record's fields, and the text after it is left alone. */
  lemma LineStringRoundTrip(l: Line, rest: string)
    requires WellFormed(l) && l.inputStartLine >= 0 && l.outputStartLine >= 0
    ensures LineString(l).Success?
    ensures ParseLine(LineString(l).value + rest) == Some((FieldsOf(l), rest))
  {
    var b := if l.lineFileIDSet then "#" + Decimal.IntToString(l.lineFileID) else "";
    var c := if l.inputLineCount != 1 then "," + Decimal.IntToString(l.inputLineCount) else "";
    var d := Decimal.IntToString(l.outputStartLine);
    var e := if l.outputLineIncrement != 1 then "," + Decimal.IntToString(l.outputLineIncrement) else "";
    var t1 := b + (c + (":" + (d + (e + ("\n" + rest)))));
    LineStringShape(l, rest);
    NatText(l.inputStartLine);
    Decimal.NatRoundTrip(l.inputStartLine, t1);
    AfterInputLineRoundTrip(l, rest);
  }

  // ------------------------------------------------------- optimizeLineSection

  /** The first pass's merge condition: the next record continues this one's single input line. */
  predicate CanMergeIncrement(li: Line, next: Line) {
    !next.lineFileIDSet && next.inputStartLine == li.inputStartLine && next.inputLineCount == 1
    && li.inputLineCount == 1
    && next.outputStartLine == li.outputStartLine + li.inputLineCount * li.outputLineIncrement
  }

  function MergeIncrement(li: Line, next: Line): Line {
    li.(outputLineIncrement := next.outputStartLine - li.outputStartLine + next.outputLineIncrement)
  }

  /** The second pass's merge condition: the next record continues this one's input lines. */
  predicate CanMergeCount(li: Line, next: Line) {
    !next.lineFileIDSet && next.inputStartLine == li.inputStartLine + li.inputLineCount
    && next.outputLineIncrement == li.outputLineIncrement
    && next.outputStartLine == li.outputStartLine + li.inputLineCount * li.outputLineIncrement
  }

  function MergeCount(li: Line, next: Line): Line {
    li.(inputLineCount := li.inputLineCount + next.inputLineCount)
  }

  /** The first `while` loop of `optimizeLineSection`, as a function of the list it starts from. */
  function MergeIncrements(s: seq<Line>): seq<Line>
    decreases |s|
  {
    if |s| < 2 then s
    else if CanMergeIncrement(s[0], s[1]) then MergeIncrements([MergeIncrement(s[0], s[1])] + s[2..])
    else [s[0]] + MergeIncrements(s[1..])
  }

  /** The second `while` loop of `optimizeLineSection`. */
  function MergeCounts(s: seq<Line>): seq<Line>
    decreases |s|
  {
    if |s| < 2 then s
    else if CanMergeCount(s[0], s[1]) then MergeCounts([MergeCount(s[0], s[1])] + s[2..])
    else [s[0]] + MergeCounts(s[1..])
  }

  function Optimize(s: seq<Line>): seq<Line> {
    MergeCounts(MergeIncrements(s))
  }

  /** The file ids that records carry explicitly, in order. */
  function FileIdsSet(s: seq<Line>): seq<int> {
    if |s| == 0 then []
    else (if s[0].lineFileIDSet then [s[0].lineFileID] else []) + FileIdsSet(s[1..])
  }

  /** The file a record belongs to, given the file of the record before it. */
  function FileOf(l: Line, previous: int): int {
    if l.lineFileIDSet then l.lineFileID else previous
  }

  /**
   * The mapping a LineSection denotes: input line `i` of file `file` maps to output line `o`.
   * `current` is the file in effect before the first record (0 at the start of a section).
   */
  ghost predicate Denotes(s: seq<Line>, current: int, file: int, i: int, o: int)
    decreases |s|
  {
    |s| > 0 &&
    var f := FileOf(s[0], current);
    (f == file && MapsTo(s[0], i, o)) || Denotes(s[1..], f, file, i, o)
  }

  lemma MergeIncrementMeaning(a: Line, b: Line, i: int, o: int)
    requires WellFormed(a) && WellFormed(b) && CanMergeIncrement(a, b)
    ensures WellFormed(MergeIncrement(a, b))
    ensures MapsTo(MergeIncrement(a, b), i, o) <==> MapsTo(a, i, o) || MapsTo(b, i, o)
  {
  }

  lemma MergeCountMeaning(a: Line, b: Line, i: int, o: int)
    requires WellFormed(a) && WellFormed(b) && CanMergeCount(a, b)
    ensures WellFormed(MergeCount(a, b))
    ensures MapsTo(MergeCount(a, b), i, o) <==> MapsTo(a, i, o) || MapsTo(b, i, o)
  {
    var k := a.outputLineIncrement;
    if i >= a.inputStartLine + a.inputLineCount {
      assert b.outputStartLine + (i - b.inputStartLine) * k == a.outputStartLine + (i - a.inputStartLine) * k by {
        assert (i - a.inputStartLine) * k == a.inputLineCount * k + (i - b.inputStartLine) * k;
      }
    }
  }

  /** Replacing two adjacent records by their merge leaves the denoted mapping unchanged. */
  lemma MergePairPreserves(a: Line, b: Line, m: Line, t: seq<Line>, current: int, file: int, i: int, o: int)
    requires !b.lineFileIDSet && m.lineFileIDSet == a.lineFileIDSet && m.lineFileID == a.lineFileID
    requires MapsTo(m, i, o) <==> MapsTo(a, i, o) || MapsTo(b, i, o)
    ensures Denotes([m] + t, current, file, i, o) <==> Denotes([a, b] + t, current, file, i, o)
  {
    assert ([m] + t)[1..] == t;
    assert ([a, b] + t)[1..] == [b] + t;
    assert ([b] + t)[1..] == t;
  }

  lemma {:induction false} MergeIncrementsPreserves(s: seq<Line>, current: int, file: int, i: int, o: int)
    requires AllWellFormed(s)
    ensures AllWellFormed(MergeIncrements(s))
    ensures |MergeIncrements(s)| <= |s|
    ensures FileIdsSet(MergeIncrements(s)) == FileIdsSet(s)
    ensures Denotes(MergeIncrements(s), current, file, i, o) <==> Denotes(s, current, file, i, o)
    decreases |s|
  {
    if |s| < 2 {
    } else if CanMergeIncrement(s[0], s[1]) {
      var m := MergeIncrement(s[0], s[1]);
      var t := [m] + s[2..];
      MergeIncrementMeaning(s[0], s[1], i, o);
      assert AllWellFormed(t);
      MergeIncrementsPreserves(t, current, file, i, o);
      assert s == [s[0], s[1]] + s[2..];
      MergePairPreserves(s[0], s[1], m, s[2..], current, file, i, o);
      assert t[1..] == s[2..];
      assert s[1..][1..] == s[2..];
    } else {
      var f := FileOf(s[0], current);
      MergeIncrementsPreserves(s[1..], f, file, i, o);
      var r := [s[0]] + MergeIncrements(s[1..]);
      assert r[1..] == MergeIncrements(s[1..]);
    }
  }

  lemma {:induction false} MergeCountsPreserves(s: seq<Line>, current: int, file: int, i: int, o: int)
    requires AllWellFormed(s)
    ensures AllWellFormed(MergeCounts(s))
    ensures |MergeCounts(s)| <= |s|
    ensures FileIdsSet(MergeCounts(s)) == FileIdsSet(s)
    ensures Denotes(MergeCounts(s), current, file, i, o) <==> Denotes(s, current, file, i, o)
    decreases |s|
  {
    if |s| < 2 {
    } else if CanMergeCount(s[0], s[1]) {
      var m := MergeCount(s[0], s[1]);
      var t := [m] + s[2..];
      MergeCountMeaning(s[0], s[1], i, o);
      assert AllWellFormed(t);
      MergeCountsPreserves(t, current, file, i, o);
      assert s == [s[0], s[1]] + s[2..];
      MergePairPreserves(s[0], s[1], m, s[2..], current, file, i, o);
      assert t[1..] == s[2..];
      assert s[1..][1..] == s[2..];
    } else {
      var f := FileOf(s[0], current);
      MergeCountsPreserves(s[1..], f, file, i, o);
      var r := [s[0]] + MergeCounts(s[1..]);
      assert r[1..] == MergeCounts(s[1..]);
    }
  }

  /**
   * `optimizeLineSection` never lengthens the LineSection, keeps every record that carries
   * an explicit file id (in order), keeps the records well formed, and maps exactly the same
   * (file, input line, output line) triples as before.
   */
  lemma OptimizePreserves(s: seq<Line>, file: int, i: int, o: int)
    requires AllWellFormed(s)
    ensures AllWellFormed(Optimize(s))
    ensures |Optimize(s)| <= |s|
    ensures FileIdsSet(Optimize(s)) == FileIdsSet(s)
    ensures Denotes(Optimize(s), 0, file, i, o) <==> Denotes(s, 0, file, i, o)
  {
    MergeIncrementsPreserves(s, 0, file, i, o);
    MergeCountsPreserves(MergeIncrements(s), 0, file, i, o);
  }

  // -------------------------------------------------------------- rendering

  /** Source paths in the FileSection must be relative: one leading "/" is dropped. */
  function StripLeadingSlash(path: string): (r: string)
    ensures |path| > 0 && path[0] == '/' ==> "/" + r == path
    ensures (|path| == 0 || path[0] != '/') ==> r == path
  {
    if |path| > 0 && path[0] == '/' then path[1..] else path
  }

  /** One FileSection entry: `+ i name` and the path when there is a path, `i name` otherwise. */
  function FileEntry(i: int, name: string, path: Option<string>): string {
    match path
    case Some(p) => "+ " + Decimal.IntToString(i) + " " + name + "\n" + StripLeadingSlash(p) + "\n"
    case None => Decimal.IntToString(i) + " " + name + "\n"
  }

  /** The FileSection entries from index `from` on. */
  function FileSection(names: seq<string>, paths: seq<Option<string>>, from: nat): string
    requires |names| == |paths|
    decreases |names| - from
  {
    if from >= |names| then "" else FileEntry(from, names[from], paths[from]) + FileSection(names, paths, from + 1)
  }

  /** The LineSection: every record's line, in order; fails as soon as one record cannot be printed. */
  function LineSection(lines: seq<Line>): (r: Result<string, SmapError>)
    ensures r.Failure? <==> exists k :: 0 <= k < |lines| && LineString(lines[k]).Failure?
    ensures r.Failure? ==> r.error == IllegalState
  {
    if |lines| == 0 then Success("")
    else
      var head := LineString(lines[0]);
      var tail := LineSection(lines[1..]);
      assert forall k :: 1 <= k < |lines| ==> lines[k] == lines[1..][k - 1];
      if head.Failure? then Failure(head.error)
      else if tail.Failure? then Failure(tail.error)
      else Success(head.value + tail.value)
  }

  function NameText(name: Option<string>): string {
    match name
    case None => "null"
    case Some(n) => n
  }

  function Header(outputFileName: Option<string>): string {
    "SMAP\n" + NameText(outputFileName) + "\n" + "JSP\n" + "*S JSP\n" + "*F\n"
  }

  /** `getSmapStringInternal`: header, FileSection, LineSection, end marker. */
  function SmapText(outputFileName: Option<string>, names: seq<string>, paths: seq<Option<string>>,
                    lines: seq<Line>): (r: Result<string, SmapError>)
    requires |names| == |paths|
    ensures r.Failure? <==> exists k :: 0 <= k < |lines| && LineString(lines[k]).Failure?
    ensures r.Success? ==> |r.value| >= |Header(outputFileName)| + 6
    ensures r.Success? ==> r.value[..|Header(outputFileName)|] == Header(outputFileName)
    ensures r.Success? ==> r.value[|r.value| - 3..] == "*E\n"
  {
    var ls := LineSection(lines);
    if ls.Failure? then Failure(ls.error)
    else
      var body := FileSection(names, paths, 0) + "*L\n" + ls.value;
      var text := Header(outputFileName) + body + "*E\n";
      assert text[..|Header(outputFileName)|] == Header(outputFileName);
      Success(text)
  }

  /** The fields of every record, as a reader of the LineSection recovers them. */
  function FieldsSeq(lines: seq<Line>): seq<LineFields>
    requires forall k :: 0 <= k < |lines| ==> WellFormed(lines[k]) && lines[k].inputStartLine >= 0 && lines[k].outputStartLine >= 0
  {
    if |lines| == 0 then [] else [FieldsOf(lines[0])] + FieldsSeq(lines[1..])
  }

  /** Reads a whole LineSection back, line by line. */
  function ParseLines(s: string): Option<seq<LineFields>>
    decreases |s|
  {
    if |s| == 0 then Some([])
    else
      match ParseLine(s)
      case None => None
      case Some((fields, rest)) =>
        match ParseLines(rest)
        case None => None
        case Some(more) => Some([fields] + more)
  }

  /** The LineSection text can be read back into exactly the records it was printed from. */
  lemma {:induction false} LineSectionRoundTrip(lines: seq<Line>)
    requires forall k :: 0 <= k < |lines| ==> WellFormed(lines[k]) && lines[k].inputStartLine >= 0 && lines[k].outputStartLine >= 0
    ensures LineSection(lines).Success?
    ensures ParseLines(LineSection(lines).value) == Some(FieldsSeq(lines))
  {
    if |lines| > 0 {
      LineSectionRoundTrip(lines[1..]);
      var tail := LineSection(lines[1..]).value;
      LineStringRoundTrip(lines[0], tail);
    }
  }

  /** A path that starts with "/" loses exactly that one character. */
  lemma FileEntryStripsOneSlash(i: int, name: string, p: string)
    ensures FileEntry(i, name, Some("/" + p))
      == "+ " + Decimal.IntToString(i) + " " + name + "\n" + p + "\n"
  {
    assert ("/" + p)[1..] == p;
  }

  // ------------------------------------------------------ getInputLineNumber

  /** The `SmapInput` result: the path of the file and the input line (-1 when not found). */
  datatype SmapInput = SmapInput(path: Option<string>, line: int)

  /** Java's `/` on `int`, which truncates toward zero. */
  function JavaDiv(a: int, b: int): int
    requires b != 0
  {
    var q := (if a < 0 then -a else a) / (if b < 0 then -b else b);
    if (a < 0) == (b < 0) then q else -q
  }

  /** The range check of the loop: the output line lies between the start and `getMaxOutputLineNumber`. */
  predicate Covers(l: Line, out: int) {
    l.outputStartLine <= out && MaxOutputLineNumber(l) >= out
  }

  /**
   * The loop of `getInputLineNumber` as written: the file id is updated from every record
   * it looks at, before the check that stops the scan, and the last covering record wins.
   */
  function Scan(s: seq<Line>, out: int, fileId: int, line: int): Result<(int, int), SmapError>
    decreases |s|
  {
    if |s| == 0 then Success((fileId, line))
    else
      var f := FileOf(s[0], fileId);
      if s[0].outputStartLine > out then Success((f, line))
      else if !Covers(s[0], out) then Scan(s[1..], out, f, line)
      else if s[0].outputLineIncrement == 0 then Failure(DivisionByZero)
      else Scan(s[1..], out, f, s[0].inputStartLine + JavaDiv(out - s[0].outputStartLine, s[0].outputLineIncrement))
  }

  function Lookup(lines: seq<Line>, paths: seq<Option<string>>, out: int): Result<SmapInput, SmapError> {
    match Scan(lines, out, 0, -1)
    case Failure(e) => Failure(e)
    case Success((f, line)) =>
      if 0 <= f < |paths| then Success(SmapInput(paths[f], line)) else Failure(IndexOutOfBounds(f))
  }

  /** The number of records the loop looks at before it stops on a record that starts beyond `out`. */
  function ScannedCount(s: seq<Line>, out: int): (p: nat)
    ensures p <= |s|
    ensures forall j :: 0 <= j < p ==> s[j].outputStartLine <= out
    ensures p < |s| ==> s[p].outputStartLine > out
  {
    if |s| == 0 || s[0].outputStartLine > out then 0 else 1 + ScannedCount(s[1..], out)
  }

  /** When no record before the stopping point covers the line, the input line is -1. */
  lemma {:induction false} ScanNoMatch(s: seq<Line>, out: int, fileId: int, line: int)
    requires forall j :: 0 <= j < ScannedCount(s, out) ==> !Covers(s[j], out)
    ensures Scan(s, out, fileId, line).Success?
    ensures Scan(s, out, fileId, line).value.1 == line
    decreases |s|
  {
    if |s| > 0 && s[0].outputStartLine <= out {
      assert forall j :: 0 <= j < ScannedCount(s[1..], out) ==> s[1..][j] == s[j + 1];
      ScanNoMatch(s[1..], out, FileOf(s[0], fileId), line);
    }
  }

  /**
   * When record `k` is the last one before the stopping point that covers the line, the
   * input line is computed from record `k`.
   */
  lemma {:induction false} ScanLastMatch(s: seq<Line>, out: int, fileId: int, line: int, k: nat)
    requires k < ScannedCount(s, out) && Covers(s[k], out)
    requires forall j :: k < j < ScannedCount(s, out) ==> !Covers(s[j], out)
    requires forall j :: 0 <= j < ScannedCount(s, out) && Covers(s[j], out) ==> s[j].outputLineIncrement > 0
    ensures Scan(s, out, fileId, line).Success?
    ensures Scan(s, out, fileId, line).value.1
      == s[k].inputStartLine + JavaDiv(out - s[k].outputStartLine, s[k].outputLineIncrement)
    decreases |s|
  {
    var t := s[1..];
    assert forall j :: 0 <= j < ScannedCount(t, out) ==> t[j] == s[j + 1];
    var f := FileOf(s[0], fileId);
    if k == 0 {
      var l0 := s[0].inputStartLine + JavaDiv(out - s[0].outputStartLine, s[0].outputLineIncrement);
      ScanNoMatch(t, out, f, l0);
    } else {
      var l' := if Covers(s[0], out) then s[0].inputStartLine + JavaDiv(out - s[0].outputStartLine, s[0].outputLineIncrement) else line;
      ScanLastMatch(t, out, f, l', k - 1);
    }
  }

  /**
   * The lookup as evidently intended: a record matches only the output lines it maps
   * (below `getMaxOutputLineNumber`), and the file reported is the one in effect for the
   * record that matched. Returns the file index and the input line.
   */
  function ScanIntended(s: seq<Line>, out: int, current: int, found: Option<(int, int)>): Option<(int, int)>
    decreases |s|
  {
    if |s| == 0 then found
    else
      var f := FileOf(s[0], current);
      if s[0].outputStartLine > out then found
      else if !(s[0].outputStartLine <= out < MaxOutputLineNumber(s[0])) then ScanIntended(s[1..], out, f, found)
      else
        assert s[0].inputLineCount * s[0].outputLineIncrement != 0;
        ScanIntended(s[1..], out, f,
          Some((f, s[0].inputStartLine + JavaDiv(out - s[0].outputStartLine, s[0].outputLineIncrement))))
  }

  function LookupIntended(lines: seq<Line>, out: int): Option<(int, int)> {
    ScanIntended(lines, out, 0, None)
  }

  /** Division of an offset `a` in `[0, n * k)` by a positive step `k` yields a quotient in `[0, n)`. */
  lemma QuotientInRange(a: int, n: int, k: int)
    requires 0 <= a < n * k && k > 0
    ensures JavaDiv(a, k) == a / k
    ensures 0 <= a / k < n
    ensures (a / k) * k <= a < (a / k) * k + k
  {
    var d := a / k;
    assert a == d * k + a % k;
    if d >= n {
      MulMonotone(n, d, k);
    }
  }

  lemma MatchedLineIsMapped(l: Line, out: int)
    requires WellFormed(l) && l.outputStartLine <= out < MaxOutputLineNumber(l)
    ensures l.outputLineIncrement > 0
    ensures MapsTo(l, l.inputStartLine + JavaDiv(out - l.outputStartLine, l.outputLineIncrement), out)
  {
    var k := l.outputLineIncrement;
    assert l.inputLineCount * k != 0;
    QuotientInRange(out - l.outputStartLine, l.inputLineCount, k);
  }

  lemma {:induction false} ScanIntendedSound(s: seq<Line>, out: int, current: int, found: Option<(int, int)>)
    requires AllWellFormed(s)
    ensures var r := ScanIntended(s, out, current, found);
      r == found || (r.Some? && Denotes(s, current, r.value.0, r.value.1, out))
    decreases |s|
  {
    if |s| > 0 && s[0].outputStartLine <= out {
      var f := FileOf(s[0], current);
      assert AllWellFormed(s[1..]);
      if s[0].outputStartLine <= out < MaxOutputLineNumber(s[0]) {
        MatchedLineIsMapped(s[0], out);
        var l := s[0].inputStartLine + JavaDiv(out - s[0].outputStartLine, s[0].outputLineIncrement);
        ScanIntendedSound(s[1..], out, f, Some((f, l)));
      } else {
        ScanIntendedSound(s[1..], out, f, found);
      }
    }
  }

  /** What the corrected lookup reports is a (file, input line) that the LineSection maps to `out`. */
  lemma LookupIntendedSound(lines: seq<Line>, out: int)
    requires AllWellFormed(lines)
    ensures var r := LookupIntended(lines, out);
      r.Some? ==> Denotes(lines, 0, r.value.0, r.value.1, out)
  {
    ScanIntendedSound(lines, out, 0, None);
  }

  /**
   * As written, the lookup reports the file of the record that stops the scan, not of the
   * record that matched: output line 1 comes from line 1 of file 0, yet file 1 is reported.
   */
  lemma LookupReportsFollowingFile()
    ensures var s := [Line(1, 1, 0, 1, 1, false), Line(1, 10, 1, 1, 1, true)];
      Lookup(s, [Some("a.jsp"), Some("b.jsp")], 1) == Success(SmapInput(Some("b.jsp"), 1))
      && Denotes(s, 0, 0, 1, 1) && !Denotes(s, 0, 1, 1, 1)
      && LookupIntended(s, 1) == Some((0, 1))
  {
    var s := [Line(1, 1, 0, 1, 1, false), Line(1, 10, 1, 1, 1, true)];
    assert s[1..] == [Line(1, 10, 1, 1, 1, true)];
    assert s[1..][1..] == [];
  }

  /**
   * As written, a record also matches the output line just past its range: input line 5 maps
   * to output line 10 only, yet output line 11 is reported as input line 6, which nothing maps.
   */
  lemma LookupOffByOne()
    ensures var s := [Line(5, 10, 0, 1, 1, false)];
      Lookup(s, [Some("a.jsp")], 11) == Success(SmapInput(Some("a.jsp"), 6))
      && !Denotes(s, 0, 0, 6, 11)
      && LookupIntended(s, 11) == None
  {
    var s := [Line(5, 10, 0, 1, 1, false)];
    assert s[1..] == [];
  }

  /** One iteration of the first pass of `optimizeLineSection`, in place at index `i`. */
  lemma IncrementPassStep(s: seq<Line>, i: int)
    requires 0 <= i < |s| - 1 && AllWellFormed(s)
    ensures var merge := CanMergeIncrement(s[i], s[i + 1]);
      var t := if merge then s[..i] + [MergeIncrement(s[i], s[i + 1])] + s[i + 2..] else s;
      var j := if merge then i else i + 1;
      AllWellFormed(t) && j <= |t| && |t| - j < |s| - i
      && s[..i] + MergeIncrements(s[i..]) == t[..j] + MergeIncrements(t[j..])
  {
    var rest := s[i..];
    assert rest[0] == s[i] && rest[1] == s[i + 1] && rest[2..] == s[i + 2..];
    if CanMergeIncrement(s[i], s[i + 1]) {
      var m := MergeIncrement(s[i], s[i + 1]);
      MergeIncrementMeaning(s[i], s[i + 1], 0, 0);
      var t := s[..i] + [m] + s[i + 2..];
      assert t[..i] == s[..i];
      assert t[i..] == [m] + s[i + 2..];
    } else {
      assert rest[1..] == s[i + 1..];
      assert s[..i + 1] == s[..i] + [s[i]];
    }
  }

  /** One iteration of the second pass of `optimizeLineSection`, in place at index `i`. */
  lemma CountPassStep(s: seq<Line>, i: int)
    requires 0 <= i < |s| - 1 && AllWellFormed(s)
    ensures var merge := CanMergeCount(s[i], s[i + 1]);
      var t := if merge then s[..i] + [MergeCount(s[i], s[i + 1])] + s[i + 2..] else s;
      var j := if merge then i else i + 1;
      AllWellFormed(t) && j <= |t| && |t| - j < |s| - i
      && s[..i] + MergeCounts(s[i..]) == t[..j] + MergeCounts(t[j..])
  {
    var rest := s[i..];
    assert rest[0] == s[i] && rest[1] == s[i + 1] && rest[2..] == s[i + 2..];
    if CanMergeCount(s[i], s[i + 1]) {
      var m := MergeCount(s[i], s[i + 1]);
      MergeCountMeaning(s[i], s[i + 1], 0, 0);
      var t := s[..i] + [m] + s[i + 2..];
      assert t[..i] == s[..i];
      assert t[i..] == [m] + s[i + 2..];
    } else {
      assert rest[1..] == s[i + 1..];
      assert s[..i + 1] == s[..i] + [s[i]];
    }
  }

  /** A pass that has reached the last record leaves the remainder as it is. */
  lemma PassDone(s: seq<Line>, i: int)
    requires 0 <= i <= |s| && i >= |s| - 1
    ensures s[..i] + MergeIncrements(s[i..]) == s
    ensures s[..i] + MergeCounts(s[i..]) == s
  {
    assert s[..i] + s[i..] == s;
  }

  // ------------------------------------------------------------ SmapStratum

  /** `SmapStratum`: the FileSection and LineSection under construction. */
  class SmapStratum {
    var fileNameList: seq<string>
    var filePathList: seq<Option<string>>
    var lineData: seq<Line>
    var lastFileID: int
    var outputFileName: Option<string>
    var classFileName: Option<string>

    /** The two file lists stay parallel, paths are unique, and records are well formed. */
    ghost predicate Valid()
      reads this
    {
      |fileNameList| == |filePathList| && Lists.Distinct(filePathList) && AllWellFormed(lineData)
    }

    constructor ()
      ensures Valid()
      ensures fileNameList == [] && filePathList == [] && lineData == [] && lastFileID == 0
      ensures outputFileName == None && classFileName == None
    {
      fileNameList, filePathList, lineData := [], [], [];
      lastFileID := 0;
      outputFileName, classFileName := None, None;
    }

    /** `addFile(filename)`: the name doubles as the path. */
    method AddFile(filename: string)
      requires Valid()
      modifies this
      ensures Valid()
      ensures Some(filename) in old(filePathList) ==>
        fileNameList == old(fileNameList) && filePathList == old(filePathList)
      ensures Some(filename) !in old(filePathList) ==>
        fileNameList == old(fileNameList) + [filename] && filePathList == old(filePathList) + [Some(filename)]
      ensures lineData == old(lineData) && lastFileID == old(lastFileID)
      ensures outputFileName == old(outputFileName) && classFileName == old(classFileName)
    {
      AddFileWithPath(filename, Some(filename));
    }

    /** `addFile(filename, filePath)`: registers the file only if its path is new. */
    method AddFileWithPath(filename: string, filePath: Option<string>)
      requires Valid()
      modifies this
      ensures Valid()
      ensures filePath in old(filePathList) ==>
        fileNameList == old(fileNameList) && filePathList == old(filePathList)
      ensures filePath !in old(filePathList) ==>
        fileNameList == old(fileNameList) + [filename] && filePathList == old(filePathList) + [filePath]
      ensures lineData == old(lineData) && lastFileID == old(lastFileID)
      ensures outputFileName == old(outputFileName) && classFileName == old(classFileName)
    {
      var pathIndex := Lists.IndexOf(filePathList, filePath);
      if pathIndex == -1 {
        fileNameList := fileNameList + [filename];
        filePathList := filePathList + [filePath];
      }
    }

    /**
     * `addLineData`: fails for an unregistered path, ignores records whose output start is 0,
     * fails (changing nothing) on a negative value, and otherwise appends one record that
     * carries its file id exactly when the file differs from the previous record's.
     */
    method AddLineData(inputStartLine: int, inputFileName: Option<string>, inputLineCount: int,
                       outputStartLine: int, outputLineIncrement: int) returns (r: Result<(), SmapError>)
      requires Valid()
      modifies this
      ensures Valid()
      ensures fileNameList == old(fileNameList) && filePathList == old(filePathList)
      ensures outputFileName == old(outputFileName) && classFileName == old(classFileName)
      ensures inputFileName !in old(filePathList) ==>
        r == Failure(UnknownInputFile(inputFileName)) && lineData == old(lineData) && lastFileID == old(lastFileID)
      ensures inputFileName in old(filePathList) && outputStartLine == 0 ==>
        r == Success(()) && lineData == old(lineData) && lastFileID == old(lastFileID)
      ensures inputFileName in old(filePathList) && outputStartLine != 0 ==>
        var fileIndex := Lists.IndexOf(old(filePathList), inputFileName);
        if inputStartLine < 0 || inputLineCount < 0 || outputStartLine < 0 || outputLineIncrement < 0 then
          r == Failure(NegativeParameter(
                 if inputStartLine < 0 then inputStartLine
                 else if inputLineCount < 0 then inputLineCount
                 else if outputStartLine < 0 then outputStartLine
                 else outputLineIncrement))
          && lineData == old(lineData) && lastFileID == old(lastFileID)
        else
          r == Success(()) && lastFileID == fileIndex
          && lineData == old(lineData) + [Line(inputStartLine, outputStartLine,
               if fileIndex != old(lastFileID) then fileIndex else 0,
               inputLineCount, outputLineIncrement, fileIndex != old(lastFileID))]
    {
      var fileIndex := Lists.IndexOf(filePathList, inputFileName);
      if fileIndex == -1 {
        return Failure(UnknownInputFile(inputFileName));
      }
      if outputStartLine == 0 {
        return Success(());
      }
      var li := new LineInfo();
      r := li.SetInputStartLine(inputStartLine);
      if r.Failure? { return; }
      r := li.SetInputLineCount(inputLineCount);
      if r.Failure? { return; }
      r := li.SetOutputStartLine(outputStartLine);
      if r.Failure? { return; }
      r := li.SetOutputLineIncrement(outputLineIncrement);
      if r.Failure? { return; }
      if fileIndex != lastFileID {
        r := li.SetLineFileID(fileIndex);
      }
      lastFileID := fileIndex;
      lineData := lineData + [li.View()];
    }

    /** `addLineInfo`: appends the record as it is. */
    method AddLineInfo(li: LineInfo)
      requires Valid() && li.Valid()
      modifies this
      ensures Valid()
      ensures lineData == old(lineData) + [li.View()]
      ensures fileNameList == old(fileNameList) && filePathList == old(filePathList)
      ensures lastFileID == old(lastFileID)
      ensures outputFileName == old(outputFileName) && classFileName == old(classFileName)
    {
      lineData := lineData + [li.View()];
    }

    method SetOutputFileName(name: Option<string>)
      modifies this
      ensures outputFileName == name
      ensures fileNameList == old(fileNameList) && filePathList == old(filePathList)
      ensures lineData == old(lineData) && lastFileID == old(lastFileID) && classFileName == old(classFileName)
    {
      outputFileName := name;
    }

    method SetClassFileName(name: Option<string>)
      modifies this
      ensures classFileName == name && GetClassFileName() == name
      ensures fileNameList == old(fileNameList) && filePathList == old(filePathList)
      ensures lineData == old(lineData) && lastFileID == old(lastFileID) && outputFileName == old(outputFileName)
    {
      classFileName := name;
    }

    /** `getClassFileName`: the name last stored by `SetClassFileName` (`None` until then). */
    function GetClassFileName(): (r: Option<string>)
      reads this
      ensures r == classFileName
    {
      classFileName
    }

    /**
     * `optimizeLineSection`: the two merging passes, in place. Each pass either folds the
     * next record into the current one (and removes it) or moves on.
     */
    method OptimizeLineSection()
      requires Valid()
      modifies this
      ensures Valid()
      ensures lineData == Optimize(old(lineData))
      ensures fileNameList == old(fileNameList) && filePathList == old(filePathList)
      ensures lastFileID == old(lastFileID)
      ensures outputFileName == old(outputFileName) && classFileName == old(classFileName)
    {
      var lines := lineData;
      var i := 0;
      while i < |lines| - 1
        invariant 0 <= i <= |lines| && AllWellFormed(lines)
        invariant MergeIncrements(old(lineData)) == lines[..i] + MergeIncrements(lines[i..])
        invariant unchanged(this)
        decreases |lines| - i
      {
        IncrementPassStep(lines, i);
        if CanMergeIncrement(lines[i], lines[i + 1]) {
          lines := lines[..i] + [MergeIncrement(lines[i], lines[i + 1])] + lines[i + 2..];
        } else {
          i := i + 1;
        }
      }
      PassDone(lines, i);
      ghost var afterFirst := lines;

      i := 0;
      while i < |lines| - 1
        invariant 0 <= i <= |lines| && AllWellFormed(lines)
        invariant MergeCounts(afterFirst) == lines[..i] + MergeCounts(lines[i..])
        invariant unchanged(this)
        decreases |lines| - i
      {
        CountPassStep(lines, i);
        if CanMergeCount(lines[i], lines[i + 1]) {
          lines := lines[..i] + [MergeCount(lines[i], lines[i + 1])] + lines[i + 2..];
        } else {
          i := i + 1;
        }
      }
      PassDone(lines, i);
      lineData := lines;
    }

    /** `getSmapString`: refuses to render before the output file name is set. */
    function GetSmapString(): (r: Result<string, SmapError>)
      reads this
      requires Valid()
      ensures outputFileName.None? ==> r == Failure(IllegalState)
      ensures outputFileName.Some? ==> r == SmapText(outputFileName, fileNameList, filePathList, lineData)
    {
      if outputFileName.None? then Failure(IllegalState)
      else SmapText(outputFileName, fileNameList, filePathList, lineData)
    }

    /**
     * `getInputLineNumber`: scans the records in order, following explicit file ids, stops at
     * the first record that starts beyond the line, and keeps the last covering record's line.
     */
    method GetInputLineNumber(outputLineNumber: int) returns (r: Result<SmapInput, SmapError>)
      requires Valid()
      ensures r == Lookup(lineData, filePathList, outputLineNumber)
    {
      var inputLineNumber := -1;
      var fileId := 0;
      var k := 0;
      while k < |lineData|
        invariant 0 <= k <= |lineData|
        invariant Scan(lineData, outputLineNumber, 0, -1) == Scan(lineData[k..], outputLineNumber, fileId, inputLineNumber)
        decreases |lineData| - k
      {
        var lineInfo := lineData[k];
        assert lineData[k..][1..] == lineData[k + 1..];
        if lineInfo.lineFileIDSet {
          fileId := lineInfo.lineFileID;
        }
        if lineInfo.outputStartLine > outputLineNumber {
          break;
        }
        if MaxOutputLineNumber(lineInfo) < outputLineNumber {
          k := k + 1;
          continue;
        }
        if lineInfo.outputLineIncrement == 0 {
          return Failure(DivisionByZero);
        }
        var inputOffset := JavaDiv(outputLineNumber - lineInfo.outputStartLine, lineInfo.outputLineIncrement);
        inputLineNumber := lineInfo.inputStartLine + inputOffset;
        k := k + 1;
      }
      if 0 <= fileId < |filePathList| {
        r := Success(SmapInput(filePathList[fileId], inputLineNumber));
      } else {
        r := Failure(IndexOutOfBounds(fileId));
      }
    }

    /**
     * `getInputLineNumber` as evidently intended: the same scan, but a record matches only
     * the output lines it maps, and the file reported is the one in effect for that record.
     * Answers the file index and input line, or None when no record maps the line.
     */
    method GetInputLineNumberIntended(outputLineNumber: int) returns (r: Option<(int, int)>)
      requires Valid()
      ensures r == LookupIntended(lineData, outputLineNumber)
      ensures r.Some? ==> Denotes(lineData, 0, r.value.0, r.value.1, outputLineNumber)
    {
      LookupIntendedSound(lineData, outputLineNumber);
      var found: Option<(int, int)> := None;
      var fileId := 0;
      var k := 0;
      while k < |lineData|
        invariant 0 <= k <= |lineData|
        invariant LookupIntended(lineData, outputLineNumber) == ScanIntended(lineData[k..], outputLineNumber, fileId, found)
        decreases |lineData| - k
      {
        var lineInfo := lineData[k];
        assert lineData[k..][1..] == lineData[k + 1..];
        if lineInfo.outputStartLine > outputLineNumber {
          return found;
        }
        fileId := FileOf(lineInfo, fileId);
        if outputLineNumber < MaxOutputLineNumber(lineInfo) {
          assert WellFormed(lineInfo);
          assert lineInfo.inputLineCount * lineInfo.outputLineIncrement != 0;
          var inputOffset := JavaDiv(outputLineNumber - lineInfo.outputStartLine, lineInfo.outputLineIncrement);
          found := Some((fileId, lineInfo.inputStartLine + inputOffset));
        }
        k := k + 1;
      }
      r := found;
    }
  }
}
