/** audit/CHANGE-LOG.md: the row the executor prints, and its two readers. */
module ChangeLog {
  import opened Text
  import opened Wrappers

  /** One row, as every writer of the log formats it. */
  function RowText(path: string, old_: string, new_: string, run: string, now: string, bundle: string): string {
    Join(RowParts(path, old_, new_, run, now, bundle), "|")
  }

  function RowParts(path: string, old_: string, new_: string, run: string, now: string, bundle: string): seq<string> {
    [path, old_, new_, "worker", run, now, now, "bundle-" + bundle, "BUNDLE:" + bundle]
  }

  function FieldPath(file: string, field: string): string { "FILE:" + file + "#" + field }

  // ---------------------------------------------------------------- the bridge's reader

  datatype Row = Row(file: string, field: string, oldVal: string, newVal: string,
                     ts: string, reason: string, bundle: string, run: string)

  function StripAll(parts: seq<string>): (r: seq<string>)
    ensures |r| == |parts| && forall k :: 0 <= k < |parts| ==> r[k] == Strip(parts[k])
  {
    seq(|parts|, k requires 0 <= k < |parts| => Strip(parts[k]))
  }

  predicate Upper5(s: string) {
    && |s| >= 5 && (s[0] == 'F' || s[0] == 'f') && (s[1] == 'I' || s[1] == 'i')
    && (s[2] == 'L' || s[2] == 'l') && (s[3] == 'E' || s[3] == 'e') && s[4] == ':'
  }

  predicate Digits(s: string, i: nat, n: nat) {
    i + n <= |s| && forall k :: i <= k < i + n ==> '0' <= s[k] <= '9'
  }

  /** _ts_from_run_id */
  function DayOf(run: string): string {
    if "RUN-" <= run && Digits(run, 4, 8) then run[4..8] + "-" + run[8..10] + "-" + run[10..12] + "T00:00:00Z" else ""
  }

  predicate Skipped(s: string) {
    s == "" || "#" <= s || "<!--" <= s || "---" <= s || "```" <= s || "FIELD:" <= s
  }

  function ParseRow(line: string): Option<Row> {
    var s := Strip(line);
    if Skipped(s) || '|' !in s then None else
    var parts := StripAll(Split(s, '|'));
    if |parts| < 3 then None else
    var run := if |parts| > 4 then parts[4] else "";
    var h := Upto(parts[0], 0, '#');
    var file := parts[0][..h];
    Some(Row(if Upper5(file) then file[5..] else file,
             if h < |parts[0]| then parts[0][h + 1..] else "",
             parts[1], parts[2],
             if |parts| > 5 then parts[5] else DayOf(run),
             if |parts| > 7 then parts[7] else "",
             if |parts| > 8 then parts[8] else "",
             run))
  }

  function ParseLines(lines: seq<string>): seq<Row> {
    if lines == [] then [] else
    match ParseRow(lines[|lines| - 1])
    case None => ParseLines(lines[..|lines| - 1])
    case Some(row) => ParseLines(lines[..|lines| - 1]) + [row]
  }

  /** All rows of the file, oldest first. */
  function ParseLog(text: string): seq<Row> { ParseLines(Split(text, '\n')) }

  /** The last rows, at most count of them. */
  function Newest(rows: seq<Row>, count: nat): (r: seq<Row>)
    requires count > 0
    ensures |r| <= count && |r| <= |rows| && r == rows[|rows| - |r|..] && (|r| < |rows| ==> |r| == count)
  {
    if |rows| <= count then rows else rows[|rows| - count..]
  }

  /** parse_change_log */
  method ParseChangeLog(text: string, count: nat) returns (out: seq<Row>)
    requires count > 0
    ensures out == Newest(ParseLog(text), count)
  {
    hide ParseRow;
    var lines := Split(text, '\n');
    out := [];
    for i := 0 to |lines|
      invariant out == ParseLines(lines[..i])
    {
      assert lines[..i + 1][..i] == lines[..i];
      var row := ParseRow(lines[i]);
      if row.Some? {
        out := out + [row.value];
      }
    }
    assert lines[..|lines|] == lines;
    out := Newest(out, count);
  }

  // ---------------------------------------------------------------- the engine's reader

  /** One event of _parse_change_events: (t_written, field, old, new). */
  function ReplayRow(line: string, run: string): Option<(string, string, string, string)> {
    var s := Strip(line);
    if s == "" || "#" <= s || "<!--" <= s then None else
    var parts := Split(s, '|');
    if |parts| < 6 || Strip(parts[4]) != run then None
    else Some((Strip(parts[5]), Strip(parts[0]), Strip(parts[1]), Strip(parts[2])))
  }

  function ReplayLines(lines: seq<string>, run: string): seq<(string, string, string, string)> {
    if lines == [] then [] else
    match ReplayRow(lines[|lines| - 1], run)
    case None => ReplayLines(lines[..|lines| - 1], run)
    case Some(e) => ReplayLines(lines[..|lines| - 1], run) + [e]
  }

  function ReplayLog(text: string, run: string): seq<(string, string, string, string)> { ReplayLines(SplitLines(text), run) }

  /** _parse_change_events */
  method ParseChangeEvents(text: string, run: string) returns (events: seq<(string, string, string, string)>)
    ensures events == ReplayLog(text, run)
  {
    hide ReplayRow;
    var lines := SplitLines(text);
    events := [];
    for i := 0 to |lines|
      invariant events == ReplayLines(lines[..i], run)
    {
      assert lines[..i + 1][..i] == lines[..i];
      var e := ReplayRow(lines[i], run);
      if e.Some? {
        events := events + [e.value];
      }
    }
    assert lines[..|lines|] == lines;
  }

  // ---------------------------------------------------------------- printing and parsing

  /** A cell that survives the pipe format. */
  ghost predicate Cell(s: string) { '|' !in s && BreakFree(s) && Trimmed(s, SPACES) }

  ghost predicate RowCells(file: string, field: string, old_: string, new_: string, run: string, now: string, bundle: string) {
    && Cell(FieldPath(file, field)) && '#' !in file && Cell(old_) && Cell(new_) && Cell(run) && Cell(now)
    && Cell("bundle-" + bundle) && Cell("BUNDLE:" + bundle)
  }

  lemma {:induction false} RowSplits(path: string, old_: string, new_: string, run: string, now: string, bundle: string)
    requires Cell(path) && Cell(old_) && Cell(new_) && Cell(run) && Cell(now)
    requires Cell("bundle-" + bundle) && Cell("BUNDLE:" + bundle)
    ensures var parts := RowParts(path, old_, new_, run, now, bundle);
            Split(RowText(path, old_, new_, run, now, bundle), '|') == parts && StripAll(parts) == parts
  {
    Worker();
    hide Cell;
    hide Split;
    var parts := RowParts(path, old_, new_, run, now, bundle);
    CellsSplit(parts);
  }

  lemma {:induction false} CellsSplit(parts: seq<string>)
    requires |parts| >= 1 && forall k :: 0 <= k < |parts| ==> Cell(parts[k])
    ensures Split(Join(parts, "|"), '|') == parts && StripAll(parts) == parts
  {
    hide IsSpace;
    SplitJoin(parts, '|');
    assert StripAll(parts) == parts;
  }

  lemma Worker()
    ensures Cell("worker")
  {}

  /** A row begins with its path and ends with its bundle. */
  lemma {:induction false} JoinEnds(parts: seq<string>)
    requires |parts| >= 2 && parts[0] != "" && parts[|parts| - 1] != ""
    ensures var s := Join(parts, "|");
            |s| > |parts[0]| && s[..|parts[0]|] == parts[0] && s[|parts[0]|] == '|'
            && s[|s| - 1] == parts[|parts| - 1][|parts[|parts| - 1]| - 1]
  {
    if |parts| == 2 {
      assert Join(parts[1..], "|") == parts[1];
    } else {
      var rest := parts[1..];
      if rest[0] == "" {
        JoinLast(rest);
      } else {
        JoinEnds(rest);
      }
    }
  }

  lemma {:induction false} JoinLast(parts: seq<string>)
    requires |parts| >= 1 && parts[|parts| - 1] != ""
    ensures var s := Join(parts, "|"); s != "" && s[|s| - 1] == parts[|parts| - 1][|parts[|parts| - 1]| - 1]
  {
    if |parts| > 1 { JoinLast(parts[1..]); }
  }

  lemma {:induction false} RowShape(file: string, field: string, old_: string, new_: string, run: string, now: string, bundle: string)
    requires RowCells(file, field, old_, new_, run, now, bundle)
    ensures var s := RowText(FieldPath(file, field), old_, new_, run, now, bundle);
            Strip(s) == s && '|' in s && !Skipped(s) && |s| > 5 && s[..5] == "FILE:"
  {
    hide IsSpace;
    var path := FieldPath(file, field);
    var parts := RowParts(path, old_, new_, run, now, bundle);
    var s := RowText(path, old_, new_, run, now, bundle);
    JoinEnds(parts);
    assert path[..5] == "FILE:";
    assert s[..5] == s[..|path|][..5];
    assert s[0] == path[0] && s[|s| - 1] == ("BUNDLE:" + bundle)[|"BUNDLE:" + bundle| - 1];
    assert Trimmed(s, SPACES);
    FileStart(s);
  }

  lemma FileStart(s: string)
    requires "FILE:" <= s
    ensures !Skipped(s) && Upper5(s)
  {
    assert s[..5] == "FILE:";
    assert s[0] == 'F' && s[1] == 'I' && s[2] == 'L' && s[3] == 'E' && s[4] == ':';
    assert "FIELD:"[2] == 'E' && "#"[0] == '#' && "<!--"[0] == '<' && "---"[0] == '-' && "```"[0] == '`';
  }

  /** Both readers recover from a printed row what was printed. */
  lemma {:induction false} RowRoundTrip(file: string, field: string, old_: string, new_: string,
                                        run: string, now: string, bundle: string)
    requires RowCells(file, field, old_, new_, run, now, bundle)
    ensures var s := RowText(FieldPath(file, field), old_, new_, run, now, bundle);
            && ParseRow(s) == Some(Row(file, field, old_, new_, now, "bundle-" + bundle, "BUNDLE:" + bundle, run))
            && (forall r :: ReplayRow(s, r) ==
                            if r == run then Some((now, FieldPath(file, field), old_, new_)) else None)
  {
    hide IsSpace;
    hide Strip;
    hide Cell;
    hide ParseRow;
    hide ReplayRow;
    var path := FieldPath(file, field);
    RowSplits(path, old_, new_, run, now, bundle);
    RowShape(file, field, old_, new_, run, now, bundle);
    var s, parts := RowText(path, old_, new_, run, now, bundle), RowParts(path, old_, new_, run, now, bundle);
    hide RowText;
    hide Skipped;
    hide StripAll;
    PartsParsed(s, file, field, parts);
    forall r ensures ReplayRow(s, r) == if r == run then Some((now, path, old_, new_)) else None { PartsReplayed(s, parts, r); }
  }

  lemma {:induction false} PartsParsed(s: string, file: string, field: string, parts: seq<string>)
    requires Strip(s) == s && '|' in s && !Skipped(s) && Split(s, '|') == parts && StripAll(parts) == parts
    requires |parts| == 9 && parts[0] == FieldPath(file, field) && '#' !in file
    ensures ParseRow(s) == Some(Row(file, field, parts[1], parts[2], parts[5], parts[7], parts[8], parts[4]))
  {
    hide Strip;
    hide Skipped;
    hide Split;
    hide Upto;
    hide StripAll;
    PathCut(file, field);
  }

  lemma {:induction false} PartsReplayed(s: string, parts: seq<string>, run: string)
    requires Strip(s) == s && !Skipped(s) && Split(s, '|') == parts && StripAll(parts) == parts && |parts| == 9
    ensures ReplayRow(s, run) == if parts[4] == run then Some((parts[5], parts[0], parts[1], parts[2])) else None
  {
    hide Strip;
    hide Split;
    NotSkipped(s);
    hide Skipped;
    forall k | 0 <= k < |parts| ensures Strip(parts[k]) == parts[k] { assert StripAll(parts)[k] == Strip(parts[k]); }
  }

  lemma NotSkipped(s: string)
    requires !Skipped(s)
    ensures s != "" && !("#" <= s) && !("<!--" <= s)
  {}

  lemma {:induction false} PathCut(file: string, field: string)
    requires '#' !in file
    ensures var path := FieldPath(file, field); var h := Upto(path, 0, '#');
            h < |path| && path[..h] == "FILE:" + file && path[h + 1..] == field
            && Upper5("FILE:" + file) && ("FILE:" + file)[5..] == file
  {
    var path := FieldPath(file, field);
    var a := "FILE:" + file;
    assert path == a + "#" + field;
    assert forall k :: 0 <= k < 5 ==> a[k] == "FILE:"[k];
    assert forall k :: 5 <= k < |a| ==> a[k] == file[k - 5];
    assert forall k :: 0 <= k < |a| ==> path[k] == a[k];
    assert path[|a|] == '#';
    UptoIs(path, 0, '#', |a|);
    FileStart(a);
  }

  // ---------------------------------------------------------------- appending rows

  lemma {:induction false} ParseLinesConcat(a: seq<string>, b: seq<string>)
    ensures ParseLines(a + b) == ParseLines(a) + ParseLines(b)
    decreases |b|
  {
    hide ParseRow;
    if b == [] {
      assert a + b == a;
    } else {
      assert (a + b)[..|a + b| - 1] == a + b[..|b| - 1];
      ParseLinesConcat(a, b[..|b| - 1]);
    }
  }

  lemma {:induction false} OneLine(line: string)
    ensures ParseLines([line]) == (match ParseRow(line) case None => [] case Some(row) => [row])
    ensures ParseRow("") == None && ParseLines([""]) == []
  {
    assert Skipped(Strip(""));
    hide ParseRow;
    assert [line][..0] == [] && [""][..0] == [];
  }

  /** Appending one printed line adds what it parses to, at the end, for either reader. */
  lemma {:induction false} AppendLine(text: string, line: string)
    requires WholeLines(text) && BreakFree(line)
    ensures WholeLines(text + line + "\n")
    ensures ParseLog(text + line + "\n") ==
            ParseLog(text) + (match ParseRow(line) case None => [] case Some(row) => [row])
    ensures forall run :: ReplayLog(text + line + "\n", run) ==
                          ReplayLog(text, run) + (match ReplayRow(line, run) case None => [] case Some(e) => [e])
  {
    hide ParseRow;
    hide ReplayRow;
    hide ReplayLog;
    NoNewline(line);
    AppendRow(text, line);
    forall run ensures ReplayLog(text + line + "\n", run) ==
                       ReplayLog(text, run) + (match ReplayRow(line, run) case None => [] case Some(e) => [e]) {
      AppendEvent(text, line, run);
    }
  }

  lemma NoNewline(line: string)
    requires BreakFree(line)
    ensures '\n' !in line
  {}

  lemma {:induction false} AppendRow(text: string, line: string)
    requires WholeLines(text) && '\n' !in line
    ensures ParseLog(text + line + "\n") ==
            ParseLog(text) + (match ParseRow(line) case None => [] case Some(row) => [row])
  {
    hide ParseRow;
    hide ParseLines;
    OneLine(line);
    assert Split("", '\n') == [""];
    SplitConcat(line, "", '\n');
    assert line + ['\n'] + "" == line + "\n";
    assert Split(line + "\n", '\n') == [line] + [""];
    ParseLinesConcat([line], [""]);
    if text == "" {
      assert text + line + "\n" == line + "\n";
      assert ParseLog(text) == [];
    } else {
      var a := text[..|text| - 1];
      assert text == a + ['\n'] + "";
      assert text + line + "\n" == a + ['\n'] + (line + "\n");
      SplitConcat(a, "", '\n');
      SplitConcat(a, line + "\n", '\n');
      ParseLinesConcat(Split(a, '\n'), [""]);
      ParseLinesConcat(Split(a, '\n'), [line] + [""]);
    }
  }

  lemma {:induction false} AppendEvent(text: string, line: string, run: string)
    requires WholeLines(text) && BreakFree(line)
    ensures ReplayLog(text + line + "\n", run) ==
            ReplayLog(text, run) + (match ReplayRow(line, run) case None => [] case Some(e) => [e])
  {
    hide ReplayRow;
    assert SplitLines("") == [];
    SplitFirst(line, "");
    assert line + "\n" + "" == line + "\n" && text + (line + "\n") == text + line + "\n";
    SplitLinesConcat(text, line + "\n");
    hide SplitLines;
    var lines := SplitLines(text);
    assert [line] + [] == [line] && (lines + [line])[..|lines|] == lines;
  }

  /** A printed row is one line, for either reader. */
  lemma {:induction false} RowIsLine(path: string, old_: string, new_: string, run: string, now: string, bundle: string)
    requires Cell(path) && Cell(old_) && Cell(new_) && Cell(run) && Cell(now)
    requires Cell("bundle-" + bundle) && Cell("BUNDLE:" + bundle)
    ensures BreakFree(RowText(path, old_, new_, run, now, bundle))
  {
    Worker();
    var parts := RowParts(path, old_, new_, run, now, bundle);
    forall k | 0 <= k < |parts| ensures BreakFree(parts[k]) { assert Cell(parts[k]); }
    hide Cell;
    PipeBreakFree();
    JoinBreakFree(parts, "|");
  }

  lemma PipeBreakFree()
    ensures BreakFree("|")
  {}
}
