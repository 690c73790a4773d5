/** The executor's log of dispatch-table changes: replayed and undone, row by row. */
module DispatchLog {
  import opened Text
  import opened Wrappers
  import Longrunner
  import YamlLine
  import opened Store
  import opened Bundles
  import opened Executor
  import opened ExecutorLaws
  import opened Tables
  import opened PrintedLog
  import opened ChangeLog

  function TableLines(files: Files): seq<string> { if DISPATCH in files then SplitLines(files[DISPATCH]) else [] }

  function TableRows(files: Files): seq<Record> { RowsOf(TableLines(files), |TableLines(files)|) }

  /** The columns have distinct names. */
  ghost predicate TableOk(lines: seq<string>) {
    HeadersAt(lines, |lines|).Some? ==> Distinct(HeadersAt(lines, |lines|).value)
  }

  /** The first row of the slug, or the number of rows. */
  function FirstRow(rows: seq<Record>, slug: string, i: nat): (r: nat)
    requires i <= |rows|
    ensures i <= r <= |rows| && (r < |rows| ==> SlugOf(rows[r]) == slug)
    ensures forall j :: i <= j < r ==> SlugOf(rows[j]) != slug
    decreases |rows| - i
  {
    if i < |rows| && SlugOf(rows[i]) != slug then FirstRow(rows, slug, i + 1) else i
  }

  lemma FirstRowIs(rows: seq<Record>, slug: string, k: nat)
    requires k < |rows| && SlugOf(rows[k]) == slug && forall j :: 0 <= j < k ==> SlugOf(rows[j]) != slug
    ensures FirstRow(rows, slug, 0) == k
  {
    hide SlugOf;
  }

  // ---------------------------------------------------------------- broken lines

  lemma PartBreakFree(s: string, i: nat, j: nat)
    requires i <= j <= |s| && BreakFree(s)
    ensures BreakFree(s[i..j])
  {
    hide IsBreak;
  }

  lemma {:induction false} SplitBreakFree(s: string, c: char)
    requires BreakFree(s)
    ensures AllBreakFree(Split(s, c))
    decreases |s|
  {
    hide Split;
    hide BreakFree;
    var j := SplitStep(s, c);
    if j < |s| {
      PartBreakFree(s, 0, j);
      assert s[0..j] == s[..j];
      PartBreakFree(s, j + 1, |s|);
      assert s[j + 1..|s|] == s[j + 1..];
      SplitBreakFree(s[j + 1..], c);
    }
  }

  lemma StripBreakFree(s: string)
    requires BreakFree(s)
    ensures BreakFree(Strip(s))
  {
    hide IsBreak;
    hide IsSpace;
  }

  lemma {:induction false} CellsBreakFree(line: string)
    requires BreakFree(line)
    ensures AllBreakFree(Cells(line))
  {
    SplitBreakFree(line, '|');
    hide BreakFree;
    hide Split;
    hide Strip;
    var parts := Split(line, '|');
    forall k | 0 <= k < |parts| ensures BreakFree(Strip(parts[k])) { StripBreakFree(parts[k]); }
  }

  lemma {:induction false} NewRowBreakFree(cells: seq<string>)
    requires AllBreakFree(cells)
    ensures BreakFree(NewRow(cells))
  {
    EmptyBreakFree();
    hide BreakFree;
    JoinBreakFree(cells, " | ");
    hide Join;
    Concat("| ", Join(cells, " | "));
    Concat("| " + Join(cells, " | "), " |");
  }

  // ---------------------------------------------------------------- one write

  lemma {:induction false} HeadersLast(lines: seq<string>, i: nat, n: nat)
    requires i <= n <= |lines| && HeadersAt(lines, i).Some?
    ensures HeadersAt(lines, n) == HeadersAt(lines, i)
  {
    hide IsTableLine;
    hide Keys;
    hide Cells;
    if i < n { HeadersLast(lines, i, n - 1); }
  }

  /** A write the table can hold, to a column other than the slug's. */
  ghost predicate CellWrite(slug: string, field: string, v: string) {
    CellText(v) && SlugLike(slug) && Key(field) != "slug" && Key(field) != "project_slug"
  }

  /** Row k has got the value in that column, and nothing else has changed. */
  ghost predicate OneCell(rows: seq<Record>, after: seq<Record>, k: nat, key: string, old_: string, v: string) {
    k < |rows| && key in rows[k] && rows[k][key] == old_ && after == rows[k := rows[k][key := v]]
  }

  lemma {:induction false} TableWrite(lines: seq<string>, slug: string, field: string, v: string)
    requires TableOk(lines) && CellWrite(slug, field, v) && AllBreakFree(lines)
    ensures var r := MutateDispatch(lines, slug, field, v);
            r.Some? ==>
              && TableOk(r.value.0) && AllBreakFree(r.value.0) && r.value.0 != []
              && OneCell(RowsOf(lines, |lines|), RowsOf(r.value.0, |r.value.0|), FirstRow(RowsOf(lines, |lines|), slug, 0),
                         Key(field), r.value.1, v)
  {
    hide CellText;
    hide SlugLike;
    hide RowsOf;
    hide SlugOf;
    hide HeadersAt;
    hide NewRow;
    hide BreakFree;
    hide DataCells;
    hide IsSpot;
    hide FirstRow;
    var key := Key(field);
    if Tables.Find(lines, slug, key, 0).Some? {
      SpotIs(lines, slug, key, 0);
      var s := Tables.Find(lines, slug, key, 0).value;
      hide Tables.Find;
      HeadersLast(lines, s.line, |lines|);
      SpotCells(lines, s, slug, key);
      WriteCell(lines, slug, field, v);
      SameHeaders(lines, s.line, NewRow(s.cells[s.col := v]), |lines|);
      ValueBreakFree(v);
      NewRowBreakFree(s.cells[s.col := v]);
      FirstRowIs(RowsOf(lines, |lines|), slug, |RowsOf(lines, s.line)|);
    }
  }

  lemma ValueBreakFree(v: string)
    requires CellText(v)
    ensures BreakFree(v)
  {}

  lemma SpotCells(lines: seq<string>, s: Spot, slug: string, key: string)
    requires AllBreakFree(lines) && s.line < |lines|
    requires DataCells(HeadersAt(lines, s.line), lines[s.line]) == Some(s.cells)
    ensures AllBreakFree(s.cells)
  {
    hide HeadersAt;
    hide BreakFree;
    hide Cells;
    hide Strip;
    StripBreakFree(lines[s.line]);
    CellsBreakFree(Strip(lines[s.line]));
  }

  // ---------------------------------------------------------------- a run of writes

  predicate ToTable(target: string) { KindOfTarget(target).DispatchTarget? }

  /** Replaying the table's changes forward on a row. */
  function RedoRow(cs: seq<Change>, row: Record): Record {
    if cs == [] then row else
    var before := RedoRow(cs[..|cs| - 1], row);
    var c := cs[|cs| - 1];
    if ToTable(c.target) then before[Key(c.field) := c.newVal] else before
  }

  /** Undoing them, the last one first. */
  function UndoRow(cs: seq<Change>, row: Record): Record
    decreases |cs|
  {
    if cs == [] then row else
    var c := cs[|cs| - 1];
    UndoRow(cs[..|cs| - 1], if ToTable(c.target) then row[Key(c.field) := c.oldVal] else row)
  }

  /** The changes lead from one table to the other, in the row of the slug, and back. */
  ghost predicate RowTraced(cs: seq<Change>, before: seq<Record>, after: seq<Record>, slug: string) {
    var k := FirstRow(before, slug, 0);
    && |after| == |before| && FirstRow(after, slug, 0) == k
    && (forall j :: 0 <= j < |before| && j != k ==> after[j] == before[j])
    && (k < |before| ==> RedoRow(cs, before[k]) == after[k] && UndoRow(cs, after[k]) == before[k])
  }

  lemma TracedOther(cs: seq<Change>, c: Change, before: seq<Record>, after: seq<Record>, slug: string)
    requires RowTraced(cs, before, after, slug) && !ToTable(c.target)
    ensures RowTraced(cs + [c], before, after, slug)
  {
    hide KindOfTarget;
    hide SlugOf;
    hide FirstRow;
    assert (cs + [c])[..|cs|] == cs;
  }

  lemma TracedCell(cs: seq<Change>, c: Change, before: seq<Record>, after: seq<Record>, then_: seq<Record>, slug: string)
    requires RowTraced(cs, before, after, slug) && ToTable(c.target)
    requires Key(c.field) != "slug" && Key(c.field) != "project_slug"
    requires OneCell(after, then_, FirstRow(after, slug, 0), Key(c.field), c.oldVal, c.newVal)
    ensures RowTraced(cs + [c], before, then_, slug)
    ensures c.oldVal == c.newVal ==> then_ == after
  {
    hide ToTable;
    hide Key;
    hide SlugOf;
    hide FirstRow;
    hide RedoRow;
    hide UndoRow;
    var k, key := FirstRow(after, slug, 0), Key(c.field);
    SameSlug(after[k], key, c.newVal);
    FirstRowKept(after, k, then_[k], slug);
    assert then_[k][key := c.oldVal] == after[k];
    if c.oldVal == c.newVal { assert then_[k] == after[k]; }
    Snoc(cs, c, before[k], then_[k]);
  }

  lemma FirstRowKept(rows: seq<Record>, k: nat, row: Record, slug: string)
    requires k < |rows| && FirstRow(rows, slug, 0) == k && SlugOf(row) == slug
    ensures FirstRow(rows[k := row], slug, 0) == k
  {
    hide SlugOf;
    FirstRowIs(rows[k := row], slug, k);
  }

  lemma Snoc(cs: seq<Change>, c: Change, row: Record, after: Record)
    requires ToTable(c.target)
    ensures RedoRow(cs + [c], row) == RedoRow(cs, row)[Key(c.field) := c.newVal]
    ensures UndoRow(cs + [c], after) == UndoRow(cs, after[Key(c.field) := c.oldVal])
  {
    hide ToTable;
    hide Key;
    assert (cs + [c])[..|cs|] == cs;
  }

  lemma SameSlug(row: Record, key: string, v: string)
    requires key != "slug" && key != "project_slug"
    ensures SlugOf(row[key := v]) == SlugOf(row)
  {
    hide Strip;
  }

  /** Every write of the run to the table stores a cell the table can hold. */
  ghost predicate CellsWritable(files: Files, ws: seq<FieldWrite>, args: Args, clock: Clock) {
    forall n :: 0 <= n < |ws| && ToTable(ws[n].target) ==>
      CellWrite(Slug(args), ws[n].field, StoredValue(files, ws, args, clock, n))
  }

  ghost predicate TableRan(files: Files, s: State, slug: string) {
    && (DISPATCH in s.files <==> DISPATCH in files) && TableOk(TableLines(s.files))
    && RowTraced(s.changes, TableRows(files), TableRows(s.files), slug)
  }

  lemma TableElsewhere(files: Files, w: FieldWrite, v: string, args: Args)
    requires !ToTable(w.target)
    ensures var after := Apply(files, w.target, w.field, v, args).0;
            (DISPATCH in after <==> DISPATCH in files) && (DISPATCH in files ==> after[DISPATCH] == files[DISPATCH])
  {
    hide KindOfTarget;
    hide IsValidSlug;
    hide Longrunner.LongrunnerPath;
    hide Longrunner.Mutate;
    hide SplitLines;
    hide LockLine;
    hide ManifestLines;
    hide YamlLine.MatchField;
    hide Strip;
    PathsApart(Slug(args), Slug(args));
  }

  lemma {:induction false} TableStep(files: Files, s: State, w: FieldWrite, args: Args, clock: Clock, v: string)
    requires TableRan(files, s, Slug(args)) && v == Resolve(w.expr, args, clock, s.files, false).text
    requires ToTable(w.target) ==> CellWrite(Slug(args), w.field, v)
    ensures TableRan(files, OneWrite(s, w, args, clock), Slug(args))
  {
    hide KindOfTarget;
    hide Resolve;
    hide RowTraced;
    hide TableOk;
    hide RowsOf;
    hide PutLongrunner;
    hide PutLock;
    hide PutManifest;
    hide MutateDispatch;
    hide CellWrite;
    hide SplitLines;
    hide Written;
    hide BreakFree;
    var slug := Slug(args);
    var (files', old_) := Apply(s.files, w.target, w.field, v, args);
    var c := Change(w.target, w.field, if old_.Some? then old_.value else "", v);
    var before, after := TableRows(files), TableRows(s.files);
    if !ToTable(w.target) {
      TableElsewhere(s.files, w, v, args);
      TracedOther(s.changes, c, before, after, slug);
    } else if old_.Some? {
      var lines := TableLines(s.files);
      TableWrite(lines, slug, w.field, v);
      NotSlug(slug, w.field, v);
      var r := MutateDispatch(lines, slug, w.field, v).value;
      ReadWritten(r.0);
      TracedCell(s.changes, c, before, after, TableRows(files'), slug);
    }
  }

  lemma NotSlug(slug: string, field: string, v: string)
    requires CellWrite(slug, field, v)
    ensures Key(field) != "slug" && Key(field) != "project_slug"
  {
    hide Key;
    hide CellText;
    hide SlugLike;
  }

  /** Replaying a run's table changes on the slug's row gives the row after it, undoing them gives the row
      before it, and no other row has changed: unconditionally, since a column the table lacks is not logged. */
  lemma {:induction false} TableLogFaithful(files: Files, ws: seq<FieldWrite>, args: Args, clock: Clock)
    requires TableOk(TableLines(files)) && CellsWritable(files, ws, args, clock)
    ensures TableRan(files, RunWrites(files, ws, args, clock), Slug(args))
    decreases |ws|
  {
    hide KindOfTarget;
    hide CellWrite;
    hide OneWrite;
    hide Resolve;
    hide TableRows;
    hide TableOk;
    hide SlugOf;
    if ws == [] {
      assert RedoRow([], map[]) == map[];
    } else {
      var n := |ws| - 1;
      forall k | 0 <= k < n && ToTable(ws[..n][k].target)
        ensures CellWrite(Slug(args), ws[..n][k].field, StoredValue(files, ws[..n], args, clock, k))
      {
        assert ws[..n][..k] == ws[..k];
        assert StoredValue(files, ws[..n], args, clock, k) == StoredValue(files, ws, args, clock, k);
      }
      hide TableRan;
      TableLogFaithful(files, ws[..n], args, clock);
      TableStep(files, RunWrites(files, ws[..n], args, clock), ws[n], args, clock, StoredValue(files, ws, args, clock, n));
    }
  }

  // ---------------------------------------------------------------- the printed log

  /** A row of the change log about the slug's row of the table. */
  predicate About(row: Row, slug: string) { row.file == DISPATCH && slug + "." <= row.field }

  function Column(row: Row, slug: string): string
    requires About(row, slug)
  {
    Key(row.field[|slug| + 1..])
  }

  /** Replaying the log's rows about the slug. */
  function RedoLog(rows: seq<Row>, slug: string, r: Record): Record {
    if rows == [] then r else
    var before, row := RedoLog(rows[..|rows| - 1], slug, r), rows[|rows| - 1];
    if About(row, slug) then before[Column(row, slug) := row.newVal] else before
  }

  /** Undoing them, the newest first. */
  function UndoLog(rows: seq<Row>, slug: string, r: Record): Record
    decreases |rows|
  {
    if rows == [] then r else
    var row := rows[|rows| - 1];
    UndoLog(rows[..|rows| - 1], slug, if About(row, slug) then r[Column(row, slug) := row.oldVal] else r)
  }

  /** Changes of the table are logged. */
  predicate TableLogged(cs: seq<Change>) {
    forall k :: 0 <= k < |cs| && ToTable(cs[k].target) ==> !Contains(cs[k].target, "MANIFEST")
  }

  lemma AboutChange(c: Change, run: Run)
    requires !KindOfTarget(c.target).OtherTarget? && !KindOfTarget(c.target).ManifestTarget?
    ensures var row, slug := LoggedRow(c, run), Slug(run.args);
            (About(row, slug) <==> ToTable(c.target)) && (ToTable(c.target) ==> Column(row, slug) == Key(c.field))
  {
    hide KindOfTarget;
    hide Longrunner.LongrunnerPath;
    hide Key;
    var slug := Slug(run.args);
    PathsApart(slug, slug);
    assert LOCK[0] == 'L' && DISPATCH[0] == 'A';
    if ToTable(c.target) { assert (slug + "." + c.field)[|slug| + 1..] == c.field; }
  }

  lemma {:induction false} ChecksElsewhere(rows: seq<Row>, slug: string, r: Record)
    requires Checks(rows)
    ensures RedoLog(rows, slug, r) == r && UndoLog(rows, slug, r) == r
  {
    hide Key;
    if rows != [] {
      ChecksElsewhere(rows[..|rows| - 1], slug, r);
      NoDot(slug);
    }
  }

  lemma NoDot(slug: string)
    ensures !(slug + "." <= "CASCADE_CHECK")
  {
    var p := slug + ".";
    assert p[|slug|] == '.' && '.' !in "CASCADE_CHECK";
  }

  /** The rows tell what the changes tell. */
  lemma {:induction false} LogTells(checks: seq<Row>, cs: seq<Change>, run: Run, r: Record)
    requires Checks(checks) && Loggable(cs, Slug(run.args)) && TableLogged(cs)
    ensures RedoLog(checks + LoggedRows(cs, run), Slug(run.args), r) == RedoRow(cs, r)
    ensures UndoLog(checks + LoggedRows(cs, run), Slug(run.args), r) == UndoRow(cs, r)
    decreases |cs|
  {
    hide KindOfTarget;
    hide IsValidSlug;
    hide Contains;
    hide Key;
    hide About;
    hide Column;
    hide LoggedRow;
    hide Checks;
    var slug := Slug(run.args);
    if cs == [] {
      assert checks + [] == checks;
      ChecksElsewhere(checks, slug, r);
    } else {
      var rest, c := cs[..|cs| - 1], cs[|cs| - 1];
      assert Loggable(rest, slug) && TableLogged(rest);
      LogTells(checks, rest, run, r);
      LogTells(checks, rest, run, r[Key(c.field) := c.oldVal]);
      if KindOfTarget(c.target).ManifestTarget? { ManifestNamed(c); }
      if Contains(c.target, "MANIFEST") {
        assert cs[|cs| - 1] == c && LoggedRows(rest, run) + [] == LoggedRows(rest, run);
      } else {
        OneRow(checks, rest, c, run, r);
      }
    }
  }

  lemma OneRow(checks: seq<Row>, rest: seq<Change>, c: Change, run: Run, r: Record)
    requires !KindOfTarget(c.target).OtherTarget? && !KindOfTarget(c.target).ManifestTarget?
    ensures var slug := Slug(run.args);
            var rows := checks + LoggedRows(rest, run);
            var all := checks + (LoggedRows(rest, run) + [LoggedRow(c, run)]);
            && RedoLog(all, slug, r) ==
               (if ToTable(c.target) then RedoLog(rows, slug, r)[Key(c.field) := c.newVal] else RedoLog(rows, slug, r))
            && UndoLog(all, slug, r) == UndoLog(rows, slug, if ToTable(c.target) then r[Key(c.field) := c.oldVal] else r)
  {
    hide KindOfTarget;
    hide Key;
    hide About;
    hide Column;
    AboutChange(c, run);
    var rows := checks + LoggedRows(rest, run);
    var all := checks + (LoggedRows(rest, run) + [LoggedRow(c, run)]);
    assert all == rows + [LoggedRow(c, run)] && all[..|all| - 1] == rows;
  }

  /** The same from what was printed: replaying the log's rows about the slug on its row of the table gives the
      row after the run, undoing them gives the row before. */
  lemma {:induction false} TableLogRead(files: Files, run: Run, schema: Policy)
    requires TableOk(TableLines(files)) && CellsWritable(files, FieldWrites(run.spec.writes), run.args, run.clock)
    requires var cs := RunWrites(files, FieldWrites(run.spec.writes), run.args, run.clock).changes;
             CleanRows(cs, run, schema) && TableLogged(cs)
    ensures var s := RunWrites(files, FieldWrites(run.spec.writes), run.args, run.clock);
            var rows := ParseLines(LogRows(s.changes, run.args, run.clock.now, run.name, schema));
            var slug := Slug(run.args);
            var k := FirstRow(TableRows(files), slug, 0);
            && |TableRows(s.files)| == |TableRows(files)|
            && (k < |TableRows(files)| ==>
                  && RedoLog(rows, slug, TableRows(files)[k]) == TableRows(s.files)[k]
                  && UndoLog(rows, slug, TableRows(s.files)[k]) == TableRows(files)[k])
  {
    hide CellsWritable;
    hide CleanRows;
    hide TableLogged;
    hide RunWrites;
    hide LogRows;
    hide ParseLines;
    hide ReplayLines;
    hide Events;
    hide Checks;
    hide Loggable;
    hide TableRows;
    hide TableOk;
    hide FirstRow;
    hide RedoRow;
    hide UndoRow;
    hide RedoLog;
    hide UndoLog;
    hide FieldWrites;
    hide LoggedRows;
    hide AllBreakFree;
    hide OwnRows;
    var ws := FieldWrites(run.spec.writes);
    var s := RunWrites(files, ws, run.args, run.clock);
    TableLogFaithful(files, ws, run.args, run.clock);
    ChangesLoggable(files, ws, run.args, run.clock);
    var checks := PrintedRows(s.changes, run, schema);
    var k := FirstRow(TableRows(files), Slug(run.args), 0);
    if k < |TableRows(files)| {
      LogTells(checks, s.changes, run, TableRows(files)[k]);
      LogTells(checks, s.changes, run, TableRows(s.files)[k]);
    }
  }
}
