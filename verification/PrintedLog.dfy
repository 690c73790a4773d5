/** What a bundle run prints to the change log, and what both readers of the log make of it. */
module PrintedLog {
  import opened Text
  import opened Wrappers
  import opened Longrunner
  import opened Store
  import opened Bundles
  import opened ChangeLog
  import opened Executor
  import opened ExecutorLaws
  import Gates

  datatype Run = Run(name: string, spec: Spec, args: Args, clock: Clock)

  type Policy = Option<Gates.Schema>

  function LoggedFile(c: Change, slug: string): string {
    match KindOfTarget(c.target)
    case LongrunnerTarget => LongrunnerPath(slug)
    case DispatchTarget => DISPATCH
    case LockTarget => LOCK
    case _ => c.target
  }

  function LoggedField(c: Change, slug: string): string {
    if KindOfTarget(c.target).DispatchTarget? then slug + "." + c.field else c.field
  }

  /** The row of a change. */
  function LoggedRow(c: Change, run: Run): Row {
    Row(LoggedFile(c, Slug(run.args)), LoggedField(c, Slug(run.args)), c.oldVal, c.newVal, run.clock.now,
        "bundle-" + run.name, "BUNDLE:" + run.name, RunId(run.args))
  }

  /** One row per change, in order; changes of the integrity manifest have none. */
  function LoggedRows(cs: seq<Change>, run: Run): seq<Row> {
    if cs == [] then [] else
    var c := cs[|cs| - 1];
    LoggedRows(cs[..|cs| - 1], run) + if Contains(c.target, "MANIFEST") then [] else [LoggedRow(c, run)]
  }

  /** A change whose target is none of the executor's files is never logged. */
  predicate Loggable(cs: seq<Change>, slug: string) {
    forall k :: 0 <= k < |cs| ==>
      !KindOfTarget(cs[k].target).OtherTarget? && (LrTarget(cs[k].target) ==> IsValidSlug(slug))
  }

  lemma {:induction false} ChangesLoggable(files: Files, ws: seq<FieldWrite>, args: Args, clock: Clock)
    ensures Loggable(RunWrites(files, ws, args, clock).changes, Slug(args))
  {
    hide KindOfTarget;
    hide IsValidSlug;
    hide Resolve;
    hide PutDispatch;
    hide PutLock;
    hide PutManifest;
    if ws != [] {
      ChangesLoggable(files, ws[..|ws| - 1], args, clock);
      hide RunWrites;
    }
  }

  lemma ManifestNamed(c: Change)
    requires KindOfTarget(c.target).ManifestTarget?
    ensures Contains(c.target, "MANIFEST")
  {
    hide Contains;
  }

  // ---------------------------------------------------------------- clean runs

  /** The change survives the pipe format; LONGRUNNER changes are logged at all. */
  ghost predicate CleanChange(c: Change, run: Run) {
    if Contains(c.target, "MANIFEST") then !KindOfTarget(c.target).LongrunnerTarget?
    else RowCells(LoggedFile(c, Slug(run.args)), LoggedField(c, Slug(run.args)), c.oldVal, c.newVal,
                  RunId(run.args), run.clock.now, run.name)
  }

  ghost predicate CleanEdge(source: string, e: Gates.Edge, run: Run) {
    RowCells(source, "CASCADE_CHECK", e.kind, e.target, RunId(run.args), run.clock.now, run.name)
  }

  ghost predicate CleanSource(source: string, schema: Gates.Schema, run: Run) {
    forall k :: 0 <= k < |Gates.Edges(schema.edges, source)| ==> CleanEdge(source, Gates.Edges(schema.edges, source)[k], run)
  }

  ghost predicate CleanRows(changes: seq<Change>, run: Run, schema: Policy) {
    && (forall k :: 0 <= k < |changes| ==> CleanChange(changes[k], run))
    && (schema.Some? ==> var sources := Sources(changes, Slug(run.args));
                         forall k :: 0 <= k < |sources| ==> CleanSource(sources[k], schema.value, run))
  }

  // ---------------------------------------------------------------- rows and their two readers

  /** A printed row of a run. */
  ghost predicate RowLine(line: string, run: string) {
    exists file, field, old_, new_, now, bundle ::
      RowCells(file, field, old_, new_, run, now, bundle) && line == RowText(FieldPath(file, field), old_, new_, run, now, bundle)
  }

  ghost predicate RowLines(lines: seq<string>, run: string) { forall k :: 0 <= k < |lines| ==> RowLine(lines[k], run) }

  /** The event the engine's replay makes of a row. */
  function Event(row: Row): (string, string, string, string) { (row.ts, FieldPath(row.file, row.field), row.oldVal, row.newVal) }

  /** The events of a run, in order. */
  function Events(rows: seq<Row>, run: string): seq<(string, string, string, string)> {
    if rows == [] then [] else
    Events(rows[..|rows| - 1], run) + if rows[|rows| - 1].run == run then [Event(rows[|rows| - 1])] else []
  }

  lemma {:induction false} EventsConcat(a: seq<Row>, b: seq<Row>, run: string)
    ensures Events(a + b, run) == Events(a, run) + Events(b, run)
    decreases |b|
  {
    hide Event;
    if b == [] {
      assert a + b == a;
    } else {
      assert (a + b)[..|a + b| - 1] == a + b[..|b| - 1];
      EventsConcat(a, b[..|b| - 1], run);
    }
  }

  /** The rows are the run's own. */
  ghost predicate OwnRows(rows: seq<Row>, run: string) { forall k :: 0 <= k < |rows| ==> rows[k].run == run }

  lemma {:induction false} RowLineRead(line: string, run: string)
    requires RowLine(line, run)
    ensures BreakFree(line) && ParseRow(line).Some? && ParseRow(line).value.run == run
    ensures forall r :: ReplayRow(line, r) == if r == run then Some(Event(ParseRow(line).value)) else None
  {
    hide RowCells;
    hide RowText;
    hide ParseRow;
    hide ReplayRow;
    hide BreakFree;
    var file, field, old_, new_, now, bundle :|
      RowCells(file, field, old_, new_, run, now, bundle) && line == RowText(FieldPath(file, field), old_, new_, run, now, bundle);
    RowRoundTrip(file, field, old_, new_, run, now, bundle);
    CellsBreakFree(file, field, old_, new_, run, now, bundle);
  }

  lemma CellsBreakFree(file: string, field: string, old_: string, new_: string, run: string, now: string, bundle: string)
    requires RowCells(file, field, old_, new_, run, now, bundle)
    ensures BreakFree(RowText(FieldPath(file, field), old_, new_, run, now, bundle))
  {
    hide Cell;
    hide BreakFree;
    RowIsLine(FieldPath(file, field), old_, new_, run, now, bundle);
  }

  /** From printed rows of one run the bridge's reader gets rows of that run, and the engine's replay gets the
      events of just these rows for that run, and nothing for any other. */
  lemma {:induction false} RowLinesRead(lines: seq<string>, run: string)
    requires RowLines(lines, run)
    ensures AllBreakFree(lines) && OwnRows(ParseLines(lines), run) && |ParseLines(lines)| == |lines|
    ensures forall r :: ReplayLines(lines, r) == Events(ParseLines(lines), r)
  {
    hide RowLine;
    hide ParseRow;
    hide ReplayRow;
    hide Event;
    hide BreakFree;
    if lines != [] {
      var n := |lines| - 1;
      RowLinesRead(lines[..n], run);
      RowLineRead(lines[n], run);
      var rest := ParseLines(lines[..n]);
      assert (rest + [ParseRow(lines[n]).value])[..|rest|] == rest;
    }
  }

  // ---------------------------------------------------------------- cascade checks

  /** Rows that are cascade checks, not changes of a field. */
  ghost predicate Checks(rows: seq<Row>) { forall k :: 0 <= k < |rows| ==> rows[k].field == "CASCADE_CHECK" }

  ghost predicate CheckLine(line: string, run: string) {
    RowLine(line, run) && ParseRow(line).Some? && ParseRow(line).value.field == "CASCADE_CHECK"
  }

  ghost predicate AllCheckLines(lines: seq<string>, run: string) { forall k :: 0 <= k < |lines| ==> CheckLine(lines[k], run) }

  lemma CheckLinesConcat(a: seq<string>, b: seq<string>, run: string)
    requires AllCheckLines(a, run) && AllCheckLines(b, run)
    ensures AllCheckLines(a + b, run)
  {
    hide CheckLine;
  }

  lemma {:induction false} CheckLines(lines: seq<string>, run: string)
    requires AllCheckLines(lines, run)
    ensures Checks(ParseLines(lines)) && RowLines(lines, run)
  {
    hide ParseRow;
    hide RowLine;
    if lines != [] { CheckLines(lines[..|lines| - 1], run); }
  }

  lemma {:induction false} EdgeLine(source: string, e: Gates.Edge, run: Run)
    requires CleanEdge(source, e, run)
    ensures CheckLine(CascadeRow(source, e, run.args, run.clock.now, run.name), RunId(run.args))
  {
    hide ParseRow;
    hide ReplayRow;
    hide RowCells;
    hide RowText;
    RowRoundTrip(source, "CASCADE_CHECK", e.kind, e.target, RunId(run.args), run.clock.now, run.name);
  }

  lemma {:induction false} CascadeLines(sources: seq<string>, schema: Gates.Schema, run: Run)
    requires forall k :: 0 <= k < |sources| ==> CleanSource(sources[k], schema, run)
    ensures AllCheckLines(CascadeRows(sources, schema, run.args, run.clock.now, run.name), RunId(run.args))
  {
    hide CascadeRow;
    hide CheckLine;
    hide CleanEdge;
    hide Gates.Edges;
    if sources != [] {
      var n := |sources| - 1;
      CascadeLines(sources[..n], schema, run);
      assert CleanSource(sources[n], schema, run);
      var edges := Gates.Edges(schema.edges, sources[n]);
      var b := EdgeRows(sources[n], edges, run.args, run.clock.now, run.name);
      forall k | 0 <= k < |b| ensures CheckLine(b[k], RunId(run.args)) { EdgeLine(sources[n], edges[k], run); }
      hide EdgeRows;
      CheckLinesConcat(CascadeRows(sources[..n], schema, run.args, run.clock.now, run.name), b, RunId(run.args));
    }
  }

  // ---------------------------------------------------------------- changes

  lemma {:induction false} ChangeLine(c: Change, run: Run)
    requires CleanChange(c, run) && !Contains(c.target, "MANIFEST")
    ensures RowLine(ChangeRow(c, run.args, run.clock.now, run.name), RunId(run.args))
    ensures ParseRow(ChangeRow(c, run.args, run.clock.now, run.name)) == Some(LoggedRow(c, run))
  {
    hide ParseRow;
    hide ReplayRow;
    hide RowCells;
    hide RowText;
    hide KindOfTarget;
    var slug := Slug(run.args);
    var file, field := LoggedFile(c, slug), LoggedField(c, slug);
    assert LoggedPath(c, slug) == FieldPath(file, field);
    RowRoundTrip(file, field, c.oldVal, c.newVal, RunId(run.args), run.clock.now, run.name);
  }

  lemma {:induction false} ChangeLines(cs: seq<Change>, run: Run)
    requires forall k :: 0 <= k < |cs| ==> CleanChange(cs[k], run)
    ensures var lines := ChangeRows(cs, run.args, run.clock.now, run.name);
            ParseLines(lines) == LoggedRows(cs, run) && RowLines(lines, RunId(run.args))
  {
    hide ParseRow;
    hide RowLine;
    hide ChangeRow;
    hide LoggedRow;
    hide CleanChange;
    hide Contains;
    if cs != [] {
      var n := |cs| - 1;
      ChangeLines(cs[..n], run);
      if !Contains(cs[n].target, "MANIFEST") {
        ChangeLine(cs[n], run);
        var rest, line := ChangeRows(cs[..n], run.args, run.clock.now, run.name), ChangeRow(cs[n], run.args, run.clock.now, run.name);
        assert (rest + [line])[..|rest|] == rest;
      }
    }
  }

  /** What a run prints, read again: cascade checks, and then one row for every logged change, telling file,
      field, old and new value; the engine's replay sees the same rows as events of that run only. */
  lemma {:induction false} PrintedRows(cs: seq<Change>, run: Run, schema: Policy) returns (checks: seq<Row>)
    requires CleanRows(cs, run, schema)
    ensures Checks(checks)
    ensures var lines := LogRows(cs, run.args, run.clock.now, run.name, schema);
            && ParseLines(lines) == checks + LoggedRows(cs, run)
            && AllBreakFree(lines) && OwnRows(ParseLines(lines), RunId(run.args))
            && forall r :: ReplayLines(lines, r) == Events(ParseLines(lines), r)
  {
    hide CleanChange;
    hide CleanSource;
    hide CascadeRows;
    hide ChangeRows;
    hide LoggedRows;
    hide ParseLines;
    hide ReplayLines;
    hide Events;
    hide RowLine;
    hide CheckLine;
    hide Sources;
    hide AllBreakFree;
    var b := ChangeRows(cs, run.args, run.clock.now, run.name);
    ChangeLines(cs, run);
    var a: seq<string> := [];
    if schema.Some? {
      var sources := Sources(cs, Slug(run.args));
      a := CascadeRows(sources, schema.value, run.args, run.clock.now, run.name);
      CascadeLines(sources, schema.value, run);
    }
    CheckLines(a, RunId(run.args));
    checks := ParseLines(a);
    ParseLinesConcat(a, b);
    RowLinesRead(a + b, RunId(run.args));
  }
}
