/** Histories of bundle executions: write, log, print, parse, rewind. */
module History {
  import opened Text
  import opened Wrappers
  import opened YamlLine
  import opened Longrunner
  import opened LensLaws
  import opened Store
  import opened Bundles
  import opened BridgeParser
  import opened BridgeLaws
  import opened ChangeLog
  import opened Executor
  import opened PrintedLog
  import opened ExecutorLaws
  import opened Rewind
  import Gates

  // ---------------------------------------------------------------- runs

  function Step(files: Files, run: Run, schema: Policy): Files {
    Exec(files, run.name, run.spec, run.args, run.clock, schema).0
  }

  function After(files: Files, runs: seq<Run>, schema: Policy): Files {
    if runs == [] then files else Step(After(files, runs[..|runs| - 1], schema), runs[|runs| - 1], schema)
  }

  /** The lines a run prints to the change log. */
  function Printed(files: Files, run: Run, schema: Policy): seq<string> {
    match Exec(files, run.name, run.spec, run.args, run.clock, schema).1
    case Refuse(_) => []
    case Done(changes) => LogRows(changes, run.args, run.clock.now, run.name, schema)
  }

  /** The rows a history adds to the change log. */
  function Rows(files: Files, runs: seq<Run>, schema: Policy): seq<Row> {
    if runs == [] then [] else
    var rest := runs[..|runs| - 1];
    Rows(files, rest, schema) + ParseLines(Printed(After(files, rest, schema), runs[|runs| - 1], schema))
  }

  function LogOf(files: Files): string { if CHANGE_LOG in files then files[CHANGE_LOG] else "" }

  // ---------------------------------------------------------------- clean runs

  /** The bundle's own appends keep away from the change log and from the project's LONGRUNNER. */
  ghost predicate AppendsElsewhere(files: Files, appends: seq<AppendTo>, run: Run, schema: Policy, slug: string) {
    forall k :: 0 <= k < |appends| ==>
      Resolve(appends[k].file, run.args, run.clock, Appends(files, appends[..k], run.args, run.clock, schema), true).text
      !in {CHANGE_LOG, LongrunnerPath(slug)}
  }

  /** A run the change log can tell about, for the project of that slug; a refused run always is one. */
  ghost predicate CleanRun(files: Files, run: Run, schema: Policy, slug: string) {
    Refused(files, run.spec, run.args, schema).None? ==>
      var ws := FieldWrites(run.spec.writes);
      var s := RunWrites(files, ws, run.args, run.clock);
      && (Slug(run.args) == slug ==> RunWritable(files, ws, run.args, run.clock))
      && CleanRows(s.changes, run, schema)
      && AppendsElsewhere(AppendAll(s.files, CHANGE_LOG, LogRows(s.changes, run.args, run.clock.now, run.name, schema), schema),
                          run.spec.appends, run, schema, slug)
  }

  ghost predicate CleanRuns(files: Files, runs: seq<Run>, schema: Policy, slug: string) {
    forall k :: 0 <= k < |runs| ==> CleanRun(After(files, runs[..k], schema), runs[k], schema, slug)
  }

  /** A project with a well-formed document, and a change log that ends where a row ends. */
  ghost predicate Readable(files: Files, slug: string) {
    && SlugText(slug) && LongrunnerPath(slug) in files && WholeLines(LogOf(files))
    && WellFormed(LrLines(files, slug))
  }

  /** A run that stores no back-ticks in the project's document. */
  ghost predicate TickFreeRun(files: Files, run: Run, schema: Policy, slug: string) {
    Refused(files, run.spec, run.args, schema).None? && Slug(run.args) == slug ==>
      TickFree(files, FieldWrites(run.spec.writes), run.args, run.clock)
  }

  ghost predicate TickFreeRuns(files: Files, runs: seq<Run>, schema: Policy, slug: string) {
    forall k :: 0 <= k < |runs| ==> TickFreeRun(After(files, runs[..k], schema), runs[k], schema, slug)
  }

  // ---------------------------------------------------------------- paths in paths

  lemma AtIndex(s: string, k: nat, p: string, j: nat)
    requires At(s, k, p) && j < |p|
    ensures k + j < |s| && s[k + j] == p[j]
  {
    assert s[k..k + |p|][j] == s[k + j];
  }

  lemma PathPlace(a: string, b: string, k: nat)
    requires '/' !in a && '/' !in b && At(LongrunnerPath(a), k, LongrunnerPath(b))
    ensures k == 0 && |a| == |b|
  {
    Slashes(a);
    Slashes(b);
    hide LongrunnerPath;
    AtIndex(LongrunnerPath(a), k, LongrunnerPath(b), 8);
    AtIndex(LongrunnerPath(a), k, LongrunnerPath(b), 9 + |b|);
  }

  /** The path of one project's LONGRUNNER occurs in the path of another's only if they are the same. */
  lemma {:induction false} PathInPath(a: string, b: string)
    requires '/' !in a && '/' !in b
    ensures Contains(LongrunnerPath(a), LongrunnerPath(b)) <==> a == b
  {
    var big, small := LongrunnerPath(a), LongrunnerPath(b);
    hide LongrunnerPath;
    if a == b {
      assert At(big, 0, small);
      ContainsAt(big, small);
    } else if Contains(big, small) {
      var k := Text.Find(big, small, 0);
      PathPlace(a, b, k);
      assert big[0..|small|] == big[..|small|];
      PathEqual(a, b);
    }
  }

  lemma Slashes(a: string)
    requires '/' !in a
    ensures var p := LongrunnerPath(a);
            |p| == 23 + |a| && forall j :: 0 <= j < |p| ==> (p[j] == '/' <==> j == 8 || j == 9 + |a|)
  {
    var p := LongrunnerPath(a);
    var s, e := "PROJECTS/", "/LONGRUNNER.md";
    assert p == s + a + e;
    assert |s| == 9 && |e| == 14;
    assert forall j :: 0 <= j < |s| ==> (s[j] == '/' <==> j == 8);
    assert forall j :: 0 <= j < |e| ==> (e[j] == '/' <==> j == 0);
    assert forall j :: 0 <= j < |a| ==> p[9 + j] == a[j];
  }

  lemma PathEqual(a: string, b: string)
    requires |a| == |b| && LongrunnerPath(b) <= LongrunnerPath(a)
    ensures a == b
  {
    var s, e := "PROJECTS/", "/LONGRUNNER.md";
    assert LongrunnerPath(a)[..9 + |a|][9..] == a;
    assert LongrunnerPath(b)[..9 + |a|][9..] == b;
  }

  // ---------------------------------------------------------------- the rows of one run

  lemma CountingStep(rows: seq<Row>, slug: string)
    requires rows != []
    ensures Counting(rows, slug) == (if Counts(rows[0], slug) then [rows[0]] else []) + Counting(rows[1..], slug)
  {
    hide Counts;
  }

  lemma {:induction false} CountingConcat(a: seq<Row>, b: seq<Row>, slug: string)
    ensures Counting(a + b, slug) == Counting(a, slug) + Counting(b, slug)
  {
    hide Counts;
    if a == [] {
      assert a + b == b;
    } else {
      assert (a + b)[1..] == a[1..] + b;
      CountingStep(a, slug);
      CountingStep(a + b, slug);
      hide Counting;
      CountingConcat(a[1..], b, slug);
    }
  }

  /** The old value of the first row that counts for a field. */
  function FirstRow(rows: seq<Row>, slug: string, f: string): Option<string> { First(Counting(rows, slug), f) }

  lemma {:induction false} FirstRowConcat(a: seq<Row>, b: seq<Row>, slug: string, f: string)
    ensures FirstRow(a + b, slug, f) == if FirstRow(a, slug, f).Some? then FirstRow(a, slug, f) else FirstRow(b, slug, f)
  {
    hide Counting;
    hide First;
    CountingConcat(a, b, slug);
    FirstConcat(Counting(a, slug), Counting(b, slug), f);
  }

  lemma {:induction false} FirstRowOne(row: Row, slug: string, f: string)
    ensures FirstRow([row], slug, f) == if Counts(row, slug) && row.field == f then Some(row.oldVal) else None
  {
    hide Counts;
    assert [row][1..] == [];
    assert Counting([row], slug) == if Counts(row, slug) then [row] else [];
    hide Counting;
    assert [row][1..] == [] && First([], f) == None;
  }

  /** A cascade check is never taken for a change of a field. */
  lemma CascadeNeverCounts(row: Row, slug: string)
    requires row.field == "CASCADE_CHECK"
    ensures !Counts(row, slug)
  {
    hide Contains;
    hide LongrunnerPath;
    CascadeIsNoField();
  }

  lemma CascadeIsNoField()
    ensures "CASCADE_CHECK" !in LR_FIELDS
  {
    assert "CASCADE_CHECK"[0] == 'C';
    FieldStarts("CASCADE_CHECK");
  }

  lemma FieldStarts(f: string)
    ensures f in LR_FIELDS ==> f != "" && f[0] in {'p', 'n', 'l', 'r'}
  {}

  lemma NoRows(slug: string, f: string)
    ensures FirstRow([], slug, f) == None
  {}

  lemma {:induction false} ChecksNeverCount(rows: seq<Row>, slug: string)
    requires Checks(rows)
    ensures Counting(rows, slug) == []
  {
    hide Counts;
    if rows != [] {
      CascadeNeverCounts(rows[0], slug);
      ChecksNeverCount(rows[1..], slug);
    }
  }

  lemma NothingParsed()
    ensures ParseLines([]) == [] && forall r :: ReplayLines([], r) == [] == Events([], r)
  {}

  /** How a parsed change row counts. */
  lemma {:induction false} ChangeCounts(c: Change, run: Run, row: Row, slug: string)
    requires SlugText(slug)
    requires LrTarget(c.target) ==> IsValidSlug(Slug(run.args))
    requires KindOfTarget(c.target) in {LongrunnerTarget, DispatchTarget, LockTarget}
    requires row.file == LoggedFile(c, Slug(run.args)) && row.field == LoggedField(c, Slug(run.args))
    ensures Counts(row, slug) <==> LrTarget(c.target) && Slug(run.args) == slug && c.field in LR_FIELDS
  {
    hide KindOfTarget;
    hide IsValidSlug;
    hide SlugText;
    hide Contains;
    SlugHasNoSlash(slug);
    if LrTarget(c.target) {
      SlugLetters(Slug(run.args));
      PathInPath(Slug(run.args), slug);
    } else {
      ShortPath(row.file, slug);
    }
  }

  lemma SlugHasNoSlash(s: string)
    requires SlugText(s)
    ensures '/' !in s && s != "" && IsValidSlug(s)
  {}

  lemma ShortPath(file: string, slug: string)
    requires |file| < 23
    ensures !Contains(file, LongrunnerPath(slug))
  {
    assert |LongrunnerPath(slug)| > |file|;
  }

  /** The logged rows that count for the project tell exactly what the run's changes tell. */
  lemma {:induction false} LoggedCount(cs: seq<Change>, run: Run, slug: string, f: string)
    requires SlugText(slug) && Loggable(cs, Slug(run.args)) && f in LR_FIELDS
    requires forall k :: 0 <= k < |cs| ==> CleanChange(cs[k], run)
    ensures FirstRow(LoggedRows(cs, run), slug, f) == if Slug(run.args) == slug then FirstOld(cs, f) else None
  {
    hide LoggedRow;
    hide CleanChange;
    hide KindOfTarget;
    hide IsValidSlug;
    hide SlugText;
    hide FirstRow;
    hide Counts;
    hide Contains;
    if cs == [] {
      NoRows(slug, f);
    } else {
      var rest, c := cs[..|cs| - 1], cs[|cs| - 1];
      LoggedCount(rest, run, slug, f);
      var a := LoggedRows(rest, run);
      if Contains(c.target, "MANIFEST") {
        NotLogged(c, run);
        assert a + [] == a;
      } else {
        OneChangeCounts(c, run, slug);
        FirstRowConcat(a, [LoggedRow(c, run)], slug, f);
        FirstRowOne(LoggedRow(c, run), slug, f);
      }
    }
  }

  lemma NotLogged(c: Change, run: Run)
    requires CleanChange(c, run) && Contains(c.target, "MANIFEST")
    ensures !LrTarget(c.target)
  {
    hide KindOfTarget;
    hide Contains;
  }

  lemma {:induction false} OneChangeCounts(c: Change, run: Run, slug: string)
    requires !Contains(c.target, "MANIFEST") && SlugText(slug)
    requires !KindOfTarget(c.target).OtherTarget? && (LrTarget(c.target) ==> IsValidSlug(Slug(run.args)))
    ensures var row := LoggedRow(c, run);
            && row.oldVal == c.oldVal
            && (Counts(row, slug) && row.field == c.field <==>
                LrTarget(c.target) && Slug(run.args) == slug && c.field in LR_FIELDS)
            && (Counts(row, slug) ==> row.field == c.field)
  {
    hide KindOfTarget;
    hide IsValidSlug;
    hide SlugText;
    hide Counts;
    hide Contains;
    if KindOfTarget(c.target).ManifestTarget? { ManifestNamed(c); }
    ChangeCounts(c, run, LoggedRow(c, run), slug);
  }

  /** Everything a clean run prints: rows of its own, telling for the project what its changes tell. */
  lemma {:induction false} PrintedTell(cs: seq<Change>, run: Run, schema: Policy, slug: string)
    requires SlugText(slug) && Loggable(cs, Slug(run.args)) && CleanRows(cs, run, schema)
    ensures var lines := LogRows(cs, run.args, run.clock.now, run.name, schema);
            && AllBreakFree(lines) && OwnRows(ParseLines(lines), RunId(run.args))
            && (forall r :: ReplayLines(lines, r) == Events(ParseLines(lines), r))
            && forall f :: f in LR_FIELDS ==>
                 FirstRow(ParseLines(lines), slug, f) == if Slug(run.args) == slug then FirstOld(cs, f) else None
  {
    hide Loggable;
    hide CleanChange;
    hide CleanSource;
    hide ParseLines;
    hide ReplayLines;
    hide Events;
    hide LogRows;
    hide LoggedRows;
    hide Sources;
    hide Counting;
    hide FirstOld;
    hide SlugText;
    hide AllBreakFree;
    var checks := PrintedRows(cs, run, schema);
    ChecksNeverCount(checks, slug);
    forall f | f in LR_FIELDS
      ensures FirstRow(checks + LoggedRows(cs, run), slug, f) == if Slug(run.args) == slug then FirstOld(cs, f) else None
    {
      LoggedCount(cs, run, slug, f);
      FirstRowConcat(checks, LoggedRows(cs, run), slug, f);
    }
  }

  // ---------------------------------------------------------------- the files after one run

  lemma LogMayGrow(schema: Policy)
    ensures MayAppend(CHANGE_LOG, schema)
  {
    assert Gates.Slashes(CHANGE_LOG) == CHANGE_LOG;
    assert Trimmed(CHANGE_LOG, {'/'});
    StripTrimmed(CHANGE_LOG);
    assert APPEND_ALLOWED[2] == CHANGE_LOG;
  }

  lemma StripTrimmed(s: string)
    requires Trimmed(s, {'/'})
    ensures StripOf(s, {'/'}) == s
  {
    StripPadded("", s, "", {'/'});
    assert "" + s + "" == s;
  }

  lemma {:induction false} AppendLogged(files: Files, line: string, schema: Policy)
    requires WholeLines(LogOf(files)) && BreakFree(line)
    ensures AppendOne(files, CHANGE_LOG, line, schema) == files[CHANGE_LOG := LogOf(files) + line + "\n"]
  {
    hide MayAppend;
    LogMayGrow(schema);
    NoNewline(line);
    SkipBackIs(line, |line|, {'\n'}, |line|);
    assert line[..|line|] == line;
  }

  lemma {:induction false} AppendedLog(files: Files, lines: seq<string>, schema: Policy)
    requires WholeLines(LogOf(files)) && AllBreakFree(lines)
    ensures var files' := AppendAll(files, CHANGE_LOG, lines, schema);
            && WholeLines(LogOf(files')) && ParseLog(LogOf(files')) == ParseLog(LogOf(files)) + ParseLines(lines)
            && (forall r :: ReplayLog(LogOf(files'), r) == ReplayLog(LogOf(files), r) + ReplayLines(lines, r))
            && (forall p :: p != CHANGE_LOG ==> (p in files' <==> p in files) && (p in files ==> files'[p] == files[p]))
  {
    hide ParseRow;
    hide ReplayRow;
    hide ParseLog;
    hide ReplayLog;
    hide AppendOne;
    hide WholeLines;
    hide BreakFree;
    if lines == [] {
      NothingParsed();
    } else {
      var rest, line := lines[..|lines| - 1], lines[|lines| - 1];
      assert AllBreakFree(rest);
      AppendedLog(files, rest, schema);
      var before := AppendAll(files, CHANGE_LOG, rest, schema);
      AppendLogged(before, line, schema);
      AppendLine(LogOf(before), line);
    }
  }

  /** Same change log, same LONGRUNNER. */
  ghost predicate SameFor(a: Files, b: Files, slug: string) {
    && (CHANGE_LOG in a <==> CHANGE_LOG in b) && (CHANGE_LOG in a ==> a[CHANGE_LOG] == b[CHANGE_LOG])
    && (LongrunnerPath(slug) in a <==> LongrunnerPath(slug) in b)
    && (LongrunnerPath(slug) in a ==> a[LongrunnerPath(slug)] == b[LongrunnerPath(slug)])
  }

  lemma AppendElsewhere(files: Files, path: string, line: string, schema: Policy, slug: string)
    requires path !in {CHANGE_LOG, LongrunnerPath(slug)}
    ensures SameFor(files, AppendOne(files, path, line, schema), slug)
  {
    hide MayAppend;
    hide LongrunnerPath;
  }

  lemma {:induction false} AppendsSame(files: Files, appends: seq<AppendTo>, run: Run, schema: Policy, slug: string)
    requires AppendsElsewhere(files, appends, run, schema, slug)
    ensures SameFor(files, Appends(files, appends, run.args, run.clock, schema), slug)
  {
    hide AppendOne;
    hide Resolve;
    hide LongrunnerPath;
    if appends != [] {
      var n := |appends| - 1;
      forall k | 0 <= k < n
        ensures Resolve(appends[..n][k].file, run.args, run.clock,
                        Appends(files, appends[..n][..k], run.args, run.clock, schema), true).text
                !in {CHANGE_LOG, LongrunnerPath(slug)}
      {
        assert appends[..n][..k] == appends[..k];
      }
      AppendsSame(files, appends[..n], run, schema, slug);
      var before := Appends(files, appends[..n], run.args, run.clock, schema);
      var a := appends[n];
      AppendElsewhere(before, Resolve(a.file, run.args, run.clock, before, true).text,
                      Resolve(a.line, run.args, run.clock, before, true).text, schema, slug);
    }
  }

  /** A run for one project writes no other project's LONGRUNNER, and never the change log. */
  lemma {:induction false} OtherProject(files: Files, ws: seq<FieldWrite>, args: Args, clock: Clock, slug: string)
    requires Slug(args) != slug
    ensures SameFor(files, RunWrites(files, ws, args, clock).files, slug)
  {
    hide KindOfTarget;
    hide Resolve;
    hide Apply;
    hide LongrunnerPath;
    if ws != [] {
      OtherProject(files, ws[..|ws| - 1], args, clock, slug);
      var s := RunWrites(files, ws[..|ws| - 1], args, clock);
      var w := ws[|ws| - 1];
      OtherApply(s.files, w, Resolve(w.expr, args, clock, s.files, false).text, args, slug);
    }
  }

  lemma OtherApply(files: Files, w: FieldWrite, v: string, args: Args, slug: string)
    requires Slug(args) != slug
    ensures SameFor(files, Apply(files, w.target, w.field, v, args).0, slug)
  {
    hide KindOfTarget;
    hide LongrunnerPath;
    hide IsValidSlug;
    hide Mutate;
    hide SplitLines;
    hide PutDispatch;
    hide PutLock;
    hide PutManifest;
    PathsApart(Slug(args), slug);
    PathsApart(slug, Slug(args));
    if !LrTarget(w.target) { OtherWrite(files, w.target, w.field, v, args); }
  }

  /** The first of the rows undoes to the value before them; a field without a row has kept its value. */
  ghost predicate Undoes(rows: seq<Row>, slug: string, before: map<string, string>, after: map<string, string>) {
    forall f :: f in LR_FIELDS ==>
      Val(before, f) == if FirstRow(rows, slug, f).Some? then FirstRow(rows, slug, f).value else Val(after, f)
  }

  /** Comments stand behind the same fields. */
  ghost predicate SameComments(a: seq<string>, b: seq<string>) { forall g :: Uncommented(a, g) == Uncommented(b, g) }

  /** The files after a run, as far as one project and the change log are concerned. */
  ghost predicate Stepped(files: Files, after: Files, rows: seq<Row>, slug: string) {
    && Readable(after, slug)
    && ParseLog(LogOf(after)) == ParseLog(LogOf(files)) + rows
    && (forall r :: ReplayLog(LogOf(after), r) == ReplayLog(LogOf(files), r) + Events(rows, r))
    && Undoes(rows, slug, Doc(LrLines(files, slug)), Doc(LrLines(after, slug)))
    && SameComments(LrLines(files, slug), LrLines(after, slug))
  }

  lemma {:induction false} WrittenRun(files: Files, run: Run, slug: string)
    requires Readable(files, slug)
    requires var ws := FieldWrites(run.spec.writes);
             Slug(run.args) == slug ==> RunWritable(files, ws, run.args, run.clock)
    ensures var s := RunWrites(files, FieldWrites(run.spec.writes), run.args, run.clock);
            && LongrunnerPath(slug) in s.files && WellFormed(LrLines(s.files, slug)) && LogOf(s.files) == LogOf(files)
            && SameComments(LrLines(files, slug), LrLines(s.files, slug))
            && (forall f :: Val(Doc(LrLines(files, slug)), f) ==
                 if Slug(run.args) == slug && FirstOld(s.changes, f).Some? then FirstOld(s.changes, f).value
                 else Val(Doc(LrLines(s.files, slug)), f))
  {
    hide SlugText;
    hide WellFormed;
    hide WholeLines;
    hide RunWrites;
    hide RunWritable;
    hide FieldWrites;
    hide FirstOld;
    hide LongrunnerPath;
    hide Cells;
    hide SplitLines;
    hide Slot;
    hide Uncommented;
    hide Redo;
    hide Present;
    var ws := FieldWrites(run.spec.writes);
    if Slug(run.args) == slug {
      SlugHasNoSlash(slug);
      PathsApart(slug, slug);
      RunLaw(files, ws, run.args, run.clock);
    } else {
      OtherProject(files, ws, run.args, run.clock, slug);
    }
  }

  lemma LaidOutWell(lines: seq<string>)
    requires BridgeOk(lines)
    ensures WellFormed(lines)
  {
    hide WellFormed;
    hide NoDecoys;
    hide LaidOut;
  }

  /** A run that is not refused: the log has grown by what it printed, and appending and notifying
      have left the project's document as the writes left it. */
  lemma {:induction false} FilesAfter(files: Files, run: Run, schema: Policy, slug: string)
    requires Readable(files, slug) && CleanRun(files, run, schema, slug)
    requires Refused(files, run.spec, run.args, schema).None?
    ensures var s := RunWrites(files, FieldWrites(run.spec.writes), run.args, run.clock);
            var lines := LogRows(s.changes, run.args, run.clock.now, run.name, schema);
            var after := Step(files, run, schema);
            && Readable(after, slug) && LrLines(after, slug) == LrLines(s.files, slug)
            && Printed(files, run, schema) == lines
            && ParseLog(LogOf(after)) == ParseLog(LogOf(files)) + ParseLines(lines)
            && (forall r :: ReplayLog(LogOf(after), r) == ReplayLog(LogOf(files), r) + Events(ParseLines(lines), r))
  {
    hide SlugText;
    hide WellFormed;
    hide WholeLines;
    hide Refused;
    hide RunWritable;
    hide SameComments;
    hide CleanRows;
    hide AppendsElsewhere;
    hide Appends;
    hide FieldWrites;
    hide LongrunnerPath;
    hide FirstRow;
    hide FirstOld;
    hide ParseLog;
    hide ReplayLog;
    hide Events;
    hide ParseLines;
    hide ReplayLines;
    hide LogRows;
    hide AppendOne;
    hide AppendAll;
    hide Cells;
    hide SplitLines;
    hide Notification;
    hide Loggable;
    var s := RunWrites(files, FieldWrites(run.spec.writes), run.args, run.clock);
    WrittenRun(files, run, slug);
    ChangesLoggable(files, FieldWrites(run.spec.writes), run.args, run.clock);
    hide RunWrites;
    PrintedTell(s.changes, run, schema, slug);
    var lines := LogRows(s.changes, run.args, run.clock.now, run.name, schema);
    AppendedLog(s.files, lines, schema);
    var logged := AppendAll(s.files, CHANGE_LOG, lines, schema);
    AppendsSame(logged, run.spec.appends, run, schema, slug);
    var appended := Appends(logged, run.spec.appends, run.args, run.clock, schema);
    PathsApart(slug, slug);
    if run.spec.notify.Some? {
      AppendElsewhere(appended, "NOTIFICATIONS.md", Notification(run.spec.notify.value, run.args, run.clock, appended), schema, slug);
    }
  }

  /** A document laid out for the bridge stays so. */
  lemma {:induction false} StepLayout(files: Files, run: Run, schema: Policy, slug: string)
    requires Readable(files, slug) && CleanRun(files, run, schema, slug) && TickFreeRun(files, run, schema, slug)
    requires BridgeOk(LrLines(files, slug))
    ensures BridgeOk(LrLines(Step(files, run, schema), slug))
  {
    hide SlugText;
    hide WellFormed;
    hide BridgeOk;
    hide WholeLines;
    hide Refused;
    hide RunWritable;
    hide TickFree;
    hide CleanRows;
    hide AppendsElsewhere;
    hide FieldWrites;
    hide LongrunnerPath;
    hide RunWrites;
    hide SplitLines;
    hide Events;
    hide ParseLog;
    hide ReplayLog;
    hide ParseLines;
    var ws := FieldWrites(run.spec.writes);
    if Refused(files, run.spec, run.args, schema).None? {
      FilesAfter(files, run, schema, slug);
      hide Step;
      if Slug(run.args) == slug {
        SlugHasNoSlash(slug);
        RunLayout(files, ws, run.args, run.clock);
      } else {
        OtherProject(files, ws, run.args, run.clock, slug);
      }
    }
  }

  lemma {:induction false} RunStep(files: Files, run: Run, schema: Policy, slug: string)
    requires Readable(files, slug) && CleanRun(files, run, schema, slug)
    ensures var rows := ParseLines(Printed(files, run, schema));
            Stepped(files, Step(files, run, schema), rows, slug) && OwnRows(rows, RunId(run.args))
  {
    hide Readable;
    hide CleanRun;
    hide Refused;
    hide ParseLines;
    hide Stepped;
    hide Step;
    hide Printed;
    hide OwnRows;
    if Refused(files, run.spec, run.args, schema).Some? {
      RefusedStep(files, run, schema, slug);
    } else {
      DoneStep(files, run, schema, slug);
    }
  }

  /** A refused run changes nothing and prints nothing. */
  lemma {:induction false} RefusedStep(files: Files, run: Run, schema: Policy, slug: string)
    requires Readable(files, slug) && Refused(files, run.spec, run.args, schema).Some?
    ensures var rows := ParseLines(Printed(files, run, schema));
            Stepped(files, Step(files, run, schema), rows, slug) && OwnRows(rows, RunId(run.args))
  {
    hide Readable;
    hide Refused;
    hide SameComments;
    hide Undoes;
    hide ParseLog;
    hide ReplayLog;
    hide Cells;
    hide LrLines;
    NothingParsed();
    SameCommentsSelf(LrLines(files, slug));
    Start(files, slug);
  }

  lemma {:induction false} DoneStep(files: Files, run: Run, schema: Policy, slug: string)
    requires Readable(files, slug) && CleanRun(files, run, schema, slug)
    requires Refused(files, run.spec, run.args, schema).None?
    ensures var rows := ParseLines(Printed(files, run, schema));
            Stepped(files, Step(files, run, schema), rows, slug) && OwnRows(rows, RunId(run.args))
  {
    hide Readable;
    hide Refused;
    hide SameComments;
    hide Undoes;
    hide FirstRow;
    hide FirstOld;
    hide ParseLog;
    hide ReplayLog;
    hide Events;
    hide ParseLines;
    hide ReplayLines;
    hide LogRows;
    hide Cells;
    hide LrLines;
    hide Step;
    hide Printed;
    hide RunWrites;
    hide RunWritable;
    hide AppendsElsewhere;
    hide Loggable;
    hide CleanRows;
    hide AllBreakFree;
    hide OwnRows;
    var s := RunWrites(files, FieldWrites(run.spec.writes), run.args, run.clock);
    FilesAfter(files, run, schema, slug);
    WrittenRun(files, run, slug);
    ChangesLoggable(files, FieldWrites(run.spec.writes), run.args, run.clock);
    ReadableSlug(files, slug);
    PrintedTell(s.changes, run, schema, slug);
    var rows := ParseLines(Printed(files, run, schema));
    UndoesChanges(rows, slug, s.changes, Slug(run.args) == slug, Doc(LrLines(files, slug)), Doc(LrLines(s.files, slug)));
  }

  lemma UndoesChanges(rows: seq<Row>, slug: string, cs: seq<Change>, own: bool, before: map<string, string>, after: map<string, string>)
    requires forall f :: f in LR_FIELDS ==> FirstRow(rows, slug, f) == if own then FirstOld(cs, f) else None
    requires forall f :: Val(before, f) == if own && FirstOld(cs, f).Some? then FirstOld(cs, f).value else Val(after, f)
    ensures Undoes(rows, slug, before, after)
  {
    hide FirstRow;
    hide FirstOld;
    hide Val;
  }

  lemma SameCommentsSelf(lines: seq<string>)
    ensures SameComments(lines, lines)
  {
    hide Uncommented;
  }

  lemma SameCommentsTwice(a: seq<string>, b: seq<string>, c: seq<string>)
    requires SameComments(a, b) && SameComments(b, c)
    ensures SameComments(a, c)
  {
    hide Uncommented;
  }

  lemma ReadableSlug(files: Files, slug: string)
    requires Readable(files, slug)
    ensures SlugText(slug)
  {
    hide SlugText;
    hide WellFormed;
    hide WholeLines;
  }

  // ---------------------------------------------------------------- histories

  lemma UndoesConcat(a: seq<Row>, b: seq<Row>, slug: string, d0: map<string, string>, d1: map<string, string>, d2: map<string, string>)
    requires Undoes(a, slug, d0, d1) && Undoes(b, slug, d1, d2)
    ensures Undoes(a + b, slug, d0, d2)
  {
    hide FirstRow;
    hide Val;
    forall f | f in LR_FIELDS
      ensures Val(d0, f) == if FirstRow(a + b, slug, f).Some? then FirstRow(a + b, slug, f).value else Val(d2, f)
    {
      FirstRowConcat(a, b, slug, f);
    }
  }

  lemma {:induction false} SteppedTwice(f0: Files, f1: Files, f2: Files, a: seq<Row>, b: seq<Row>, slug: string)
    requires Stepped(f0, f1, a, slug) && Stepped(f1, f2, b, slug)
    ensures Stepped(f0, f2, a + b, slug)
  {
    hide Readable;
    hide ParseLog;
    hide ReplayLog;
    hide Events;
    hide Undoes;
    hide Cells;
    hide SameComments;
    hide LogOf;
    hide LrLines;
    SameCommentsTwice(LrLines(f0, slug), LrLines(f1, slug), LrLines(f2, slug));
    forall r ensures ReplayLog(LogOf(f2), r) == ReplayLog(LogOf(f0), r) + Events(a + b, r) { EventsConcat(a, b, r); }
    UndoesConcat(a, b, slug, Doc(LrLines(f0, slug)), Doc(LrLines(f1, slug)), Doc(LrLines(f2, slug)));
  }

  lemma CleanPrefix(files: Files, runs: seq<Run>, schema: Policy, slug: string)
    requires CleanRuns(files, runs, schema, slug) && runs != []
    ensures CleanRuns(files, runs[..|runs| - 1], schema, slug)
    ensures CleanRun(After(files, runs[..|runs| - 1], schema), runs[|runs| - 1], schema, slug)
  {
    hide CleanRun;
    hide After;
    var n := |runs| - 1;
    forall k | 0 <= k < n ensures CleanRun(After(files, runs[..n][..k], schema), runs[..n][k], schema, slug) {
      assert runs[..n][..k] == runs[..k];
    }
  }

  /** After any number of runs the log has grown by rows that undo to the project's document before them. */
  lemma {:induction false} HistoryLaw(files: Files, runs: seq<Run>, schema: Policy, slug: string)
    requires Readable(files, slug) && CleanRuns(files, runs, schema, slug)
    ensures Stepped(files, After(files, runs, schema), Rows(files, runs, schema), slug)
  {
    hide Readable;
    hide Step;
    hide CleanRun;
    hide CleanRuns;
    hide ParseLog;
    hide ReplayLog;
    hide Events;
    hide ParseLines;
    hide Printed;
    if runs == [] {
      Start(files, slug);
      SameCommentsSelf(LrLines(files, slug));
      hide SameComments;
      NothingParsed();
      hide Undoes;
      hide Cells;
      assert ParseLog(LogOf(files)) + [] == ParseLog(LogOf(files));
    } else {
      hide Undoes;
      hide SameComments;
      hide Cells;
      var n := |runs| - 1;
      CleanPrefix(files, runs, schema, slug);
      HistoryLaw(files, runs[..n], schema, slug);
      var before := After(files, runs[..n], schema);
      StillReadable(files, runs[..n], schema, slug);
      RunStep(before, runs[n], schema, slug);
      hide Stepped;
      SteppedTwice(files, before, Step(before, runs[n], schema), Rows(files, runs[..n], schema),
                   ParseLines(Printed(before, runs[n], schema)), slug);
    }
  }

  lemma TickFreePrefixRuns(files: Files, runs: seq<Run>, schema: Policy, slug: string)
    requires TickFreeRuns(files, runs, schema, slug) && runs != []
    ensures TickFreeRuns(files, runs[..|runs| - 1], schema, slug)
    ensures TickFreeRun(After(files, runs[..|runs| - 1], schema), runs[|runs| - 1], schema, slug)
  {
    hide TickFreeRun;
    hide After;
    var n := |runs| - 1;
    forall k | 0 <= k < n ensures TickFreeRun(After(files, runs[..n][..k], schema), runs[..n][k], schema, slug) {
      assert runs[..n][..k] == runs[..k];
    }
  }

  /** And a document laid out for the bridge stays so, if no run stores back-ticks in it. */
  lemma {:induction false} HistoryLayout(files: Files, runs: seq<Run>, schema: Policy, slug: string)
    requires Readable(files, slug) && CleanRuns(files, runs, schema, slug) && TickFreeRuns(files, runs, schema, slug)
    requires BridgeOk(LrLines(files, slug))
    ensures BridgeOk(LrLines(After(files, runs, schema), slug))
  {
    hide Readable;
    hide Step;
    hide CleanRun;
    hide CleanRuns;
    hide TickFreeRun;
    hide TickFreeRuns;
    hide BridgeOk;
    hide Stepped;
    hide LrLines;
    if runs != [] {
      var n := |runs| - 1;
      CleanPrefix(files, runs, schema, slug);
      TickFreePrefixRuns(files, runs, schema, slug);
      HistoryLayout(files, runs[..n], schema, slug);
      HistoryLaw(files, runs[..n], schema, slug);
      StillReadable(files, runs[..n], schema, slug);
      StepLayout(After(files, runs[..n], schema), runs[n], schema, slug);
    }
  }

  lemma Start(files: Files, slug: string)
    ensures Undoes([], slug, Doc(LrLines(files, slug)), Doc(LrLines(files, slug)))
  {
    hide Cells;
    hide FirstRow;
    forall f ensures FirstRow([], slug, f) == None { NoRows(slug, f); }
  }

  /** The rows of a history belong to its runs. */
  lemma {:induction false} RowOwners(files: Files, runs: seq<Run>, schema: Policy, slug: string, run: string, own: bool)
    requires Readable(files, slug) && CleanRuns(files, runs, schema, slug)
    requires forall k :: 0 <= k < |runs| ==> (RunId(runs[k].args) == run <==> own)
    ensures forall i :: 0 <= i < |Rows(files, runs, schema)| ==> (Rows(files, runs, schema)[i].run == run <==> own)
  {
    hide Readable;
    hide Step;
    hide CleanRun;
    hide CleanRuns;
    hide ParseLines;
    hide Printed;
    hide Stepped;
    hide RunId;
    if runs != [] {
      var n := |runs| - 1;
      CleanPrefix(files, runs, schema, slug);
      RowOwners(files, runs[..n], schema, slug, run, own);
      HistoryLaw(files, runs[..n], schema, slug);
      StillReadable(files, runs[..n], schema, slug);
      RunStep(After(files, runs[..n], schema), runs[n], schema, slug);
    }
  }

  lemma StillReadable(files: Files, runs: seq<Run>, schema: Policy, slug: string)
    requires Stepped(files, After(files, runs, schema), Rows(files, runs, schema), slug)
    ensures Readable(After(files, runs, schema), slug)
  {
    hide Readable;
    hide After;
    hide Undoes;
    hide ParseLog;
    hide ReplayLog;
    hide Events;
  }

  // ---------------------------------------------------------------- what the monitor shows

  /** The list of tools as it is shown: without brackets at its ends and without quotes. */
  function Tools(t: string): string { Unquoted(StripOf(t, {'[', ']'})) }

  function Unquoted(s: string): string {
    if s == "" then "" else (if s[0] in QUOTES then "" else [s[0]]) + Unquoted(s[1..])
  }

  function Display(f: string, text: string): string { if f == "next_pass.tools_required" then Tools(text) else text }

  /** A field of _parse_longrunner_md's result; routing is always empty there. */
  function Shown(lines: seq<string>, f: string): string {
    match TargetOf(f)
    case None => ""
    case Some(sec) => Display(f, Get(lines, sec, YamlKey(f)))
  }

  function Quality(lines: seq<string>): string {
    if Lowered(Get(lines, LastPass, "weak_pass")) == "true" then "weak"
    else if Lowered(Get(lines, LastPass, "validation_passed")) == "true" then "ok" else ""
  }

  const UI_KEYS: set<string> := {
    "phase_name", "phase_objective", "phase_stop", "phase_status", "phase_successor", "next_pass", "next_tier",
    "next_budget", "next_tools", "last_objective", "last_output", "last_date", "routing"}

  /** The part of the snapshot that shows fields of the document. */
  function SnapshotOf(lines: seq<string>): Snapshot {
    (map k | k in UI_KEYS :: Shown(lines, FieldOf(k)))["last_quality" := Quality(lines)]
  }

  /** What the monitor shows for a field of a document. */
  function Visible(d: map<string, string>, f: string): string {
    if TargetOf(f).None? then "" else Display(f, Show(d, f))
  }

  lemma PlaceIs(sec: Section, f: string)
    requires Name(sec) + "." <= f && |f| > |Name(sec)| + 1
    requires sec == Phase ==> f[6] != 't'
    ensures TargetOf(f) == Some(sec) && Canon(sec, YamlKey(f)) == f
  {
    var p := Name(sec) + ".";
    assert p == "phase." || p == "next_pass." || p == "last_pass.";
    Prefixes(f);
    assert p[0] == f[0];
    assert f == p + f[|p|..];
    if sec == Phase { assert f[6..][0] != 't'; }
  }

  lemma UiPrefix(f: string)
    requires f in UI_FIELDS && f != "routing"
    ensures || ("phase." <= f && |f| > 6 && f[6] != 't') || ("next_pass." <= f && |f| > 10)
            || ("last_pass." <= f && |f| > 10)
  {}

  lemma UiFieldPlace(f: string)
    requires f in UI_FIELDS && f != "routing"
    ensures TargetOf(f).Some? && Canon(TargetOf(f).value, YamlKey(f)) == f
  {
    UiPrefix(f);
    assert Name(Phase) + "." == "phase." && Name(NextPass) + "." == "next_pass." && Name(LastPass) + "." == "last_pass.";
    hide TargetOf;
    hide YamlKey;
    hide Canon;
    if "phase." <= f {
      PlaceIs(Phase, f);
    } else if "last_pass." <= f {
      PlaceIs(LastPass, f);
    } else {
      PlaceIs(NextPass, f);
    }
  }

  lemma RoutingNowhere()
    ensures TargetOf("routing").None?
  {
    assert "routing"[0] == 'r' && "phase."[0] == 'p' && "next_pass."[0] == 'n' && "last_pass."[0] == 'l' && "transition_"[0] == 't';
  }

  lemma UiFieldKey(f: string)
    requires f in UI_FIELDS
    ensures UiKey(f).Some? && UiKey(f).value in UI_KEYS && UiKey(f).value != "last_quality" && FieldOf(UiKey(f).value) == f
    ensures f in LR_FIELDS
  {}

  /** Only fields that the mutator can address are ever in a document. */
  lemma RoutingAbsent(lines: seq<string>)
    requires WellFormed(lines)
    ensures "routing" !in Doc(lines) && Uncommented(lines, "routing")
  {
    hide WellFormed;
    hide Cells;
    hide TargetOf;
    hide Uncommented;
    RoutingNowhere();
    UnaddressedWrite(lines, "routing", "");
    NoField(lines, "routing");
  }

  /** The snapshot shows a field as the document says it, unless a comment stands behind the value: then the
      comment is shown as well. */
  lemma {:induction false} SnapshotShows(lines: seq<string>, f: string)
    requires BridgeOk(lines) && f in UI_FIELDS
    ensures UiKey(f).Some? && UiKey(f).value in SnapshotOf(lines)
    ensures var shown := SnapshotOf(lines)[UiKey(f).value];
            if Uncommented(lines, f) then shown == Visible(Doc(lines), f) else Contains(shown, "  #")
  {
    hide BridgeOk;
    hide Get;
    hide Show;
    hide Display;
    hide Quality;
    hide FieldOf;
    hide UiKey;
    hide Cells;
    hide Contains;
    hide Uncommented;
    UiFieldKey(f);
    assert SnapshotOf(lines)[UiKey(f).value] == Shown(lines, f);
    RoutingNowhere();
    LaidOutWell(lines);
    hide WellFormed;
    RoutingAbsent(lines);
    if f != "routing" {
      UiFieldPlace(f);
      hide TargetOf;
      hide YamlKey;
      hide Canon;
      ReadsField(lines, f);
      if !Uncommented(lines, f) { DisplayKeeps(f, Get(lines, TargetOf(f).value, YamlKey(f))); }
    }
  }

  lemma {:induction false} ReadsField(lines: seq<string>, f: string)
    requires BridgeOk(lines) && TargetOf(f).Some? && Canon(TargetOf(f).value, YamlKey(f)) == f
    ensures var seen := Get(lines, TargetOf(f).value, YamlKey(f));
            if Uncommented(lines, f) then seen == Show(Doc(lines), f) else Contains(seen, "  #")
  {
    hide WellFormed;
    hide NoDecoys;
    hide Layout;
    hide Get;
    hide Show;
    hide TargetOf;
    hide YamlKey;
    hide Canon;
    hide Cells;
    hide Contains;
    hide Uncommented;
    var sec := TargetOf(f).value;
    assert LaidOut(lines, sec);
    var p, m, n :| Layout(lines, sec, p, m, n);
    BridgeReads(lines, sec, YamlKey(f), p, m, n);
  }

  // ---------------------------------------------------------------- what display does to a value

  lemma {:induction false} UnquotedConcat(a: string, b: string)
    ensures Unquoted(a + b) == Unquoted(a) + Unquoted(b)
  {
    if a == [] {
      assert a + b == b;
    } else {
      assert (a + b)[1..] == a[1..] + b;
      UnquotedConcat(a[1..], b);
    }
  }

  lemma {:induction false} UnquotedSame(s: string)
    ensures |Unquoted(s)| <= |s|
    ensures Unquoted(s) == s <==> forall k :: 0 <= k < |s| ==> s[k] !in QUOTES
  {
    if s != "" {
      UnquotedSame(s[1..]);
      if s[0] !in QUOTES { assert s == [s[0]] + s[1..]; }
    }
  }

  /** What contains a comment contains it after brackets and quotes are taken off. */
  lemma {:induction false} DisplayKeeps(f: string, text: string)
    requires Contains(text, "  #")
    ensures Contains(Display(f, text), "  #")
  {
    hide Unquoted;
    hide StripOf;
    hide Contains;
    StripKeeps(text, {'[', ']'});
    UnquotedKeeps(StripOf(text, {'[', ']'}));
  }

  lemma {:induction false} UnquotedKeeps(s: string)
    requires Contains(s, "  #")
    ensures Contains(Unquoted(s), "  #")
  {
    hide Contains;
    hide At;
    var h := CommentPlace(s);
    var a, p, b := s[..h], "  #", s[h + 3..];
    UnquotedConcat(a, p + b);
    UnquotedConcat(p, b);
    UnquotedSame(p);
    hide Unquoted;
    CommentBetween(Unquoted(a), Unquoted(b));
  }

  lemma CommentPlace(s: string) returns (h: nat)
    requires Contains(s, "  #")
    ensures h + 3 <= |s| && s == s[..h] + ("  #" + s[h + 3..])
  {
    h := Text.Find(s, "  #", 0);
    assert s == s[..h] + (s[h..h + 3] + s[h + 3..]);
  }

  lemma CommentBetween(a: string, b: string)
    ensures Contains(a + ("  #" + b), "  #")
  {
    var p := "  #";
    var t := a + (p + b);
    assert t[|a|..|a| + 3] == p;
    assert At(t, |a|, p);
    ContainsAt(t, p);
  }

  /** The monitor shows the value as it is: it is none of its null markers, and the list of tools loses
      neither brackets nor quotes. */
  predicate Verbatim(f: string, v: string) {
    && v !in {"~", "null", "[]"}
    && (f == "next_pass.tools_required" ==> Trimmed(v, {'[', ']'}) && forall k :: 0 <= k < |v| ==> v[k] !in QUOTES)
  }

  lemma {:induction false} ToolsSame(t: string)
    ensures Tools(t) == t <==> Trimmed(t, {'[', ']'}) && forall k :: 0 <= k < |t| ==> t[k] !in QUOTES
  {
    hide Unquoted;
    UnquotedSame(StripOf(t, {'[', ']'}));
  }

  lemma {:induction false} VerbatimShown(d: map<string, string>, f: string)
    requires f in UI_FIELDS && ("routing" in d ==> f != "routing")
    ensures Val(d, f) == Visible(d, f) <==> Verbatim(f, Val(d, f))
  {
    hide Tools;
    ToolsSame(Val(d, f));
    ToolsSame("");
    if f == "routing" {
      RoutingNowhere();
    } else {
      UiFieldPlace(f);
    }
    hide TargetOf;
  }

  // ---------------------------------------------------------------- the rewind theorem

  /** What rewinding makes of one field: a field changed since shows the value it had, which is what the monitor
      showed then if and only if it shows that value as it is and no comment stood behind it; a field not
      changed since shows what the monitor showed then, up to the quotes of a commented value. */
  predicate Rewound(f: string, shown: string, before: string, changed: bool, value: string, uncommented: bool) {
    if changed then shown == value && (shown == before <==> uncommented && Verbatim(f, value))
    else if uncommented then shown == before
    else Contains(shown, "  #") && Contains(before, "  #")
  }

  /** Reconstructing run R after its successors. It is called exact if and only if R logged anything and
      all rows behind R's last are among those read; then every field the monitor has a key for is rewound to
      where it stood after R's last row. */
  lemma {:induction false} RewindExact(files: Files, earlier: seq<Run>, own: seq<Run>, later: seq<Run>, schema: Policy,
                                       slug: string, run: string, count: nat)
    requires Readable(files, slug) && BridgeOk(LrLines(files, slug)) && count > 0
    requires CleanRuns(files, earlier, schema, slug) && TickFreeRuns(files, earlier, schema, slug)
    requires var start := After(files, earlier, schema);
             CleanRuns(start, own, schema, slug) && TickFreeRuns(start, own, schema, slug)
    requires var there := After(After(files, earlier, schema), own, schema);
             CleanRuns(there, later, schema, slug) && TickFreeRuns(there, later, schema, slug)
    requires forall i :: 0 <= i < |ParseLog(LogOf(files))| ==> ParseLog(LogOf(files))[i].run != run
    requires forall k :: 0 <= k < |earlier| ==> RunId(earlier[k].args) != run
    requires forall k :: 0 <= k < |own| ==> RunId(own[k].args) == run
    requires forall k :: 0 <= k < |later| ==> RunId(later[k].args) != run
    ensures var there := After(After(files, earlier, schema), own, schema);
            var now := After(there, later, schema);
            var rows := Rows(there, later, schema);
            var lines := LrLines(there, slug);
            var current := SnapshotOf(LrLines(now, slug));
            var (snap, exact) := Reconstructed(Some(current), Newest(ParseLog(LogOf(now)), count), slug, run);
            && (exact <==> Rows(After(files, earlier, schema), own, schema) != [] && |rows| < count)
            && (if !exact then snap == Some(current) else
                snap.Some? && forall f :: f in UI_FIELDS ==>
                  && UiKey(f).Some? && UiKey(f).value in snap.value && UiKey(f).value in SnapshotOf(lines)
                  && Rewound(f, snap.value[UiKey(f).value], SnapshotOf(lines)[UiKey(f).value],
                             FirstRow(rows, slug, f).Some?, Val(Doc(lines), f), Uncommented(lines, f)))
  {
    hide CleanRuns;
    hide TickFreeRuns;
    hide BridgeOk;
    hide Readable;
    hide After;
    hide Rows;
    hide ParseLog;
    hide ReplayLog;
    hide Events;
    hide Reconstructed;
    hide Undo;
    hide Counting;
    hide FirstRow;
    hide Cells;
    hide SnapshotOf;
    hide Rewound;
    hide SameComments;
    hide UiKey;
    var start := After(files, earlier, schema);
    var there := After(start, own, schema);
    var now := After(there, later, schema);
    HistoryLayout(files, earlier, schema, slug);
    HistoryLaw(files, earlier, schema, slug);
    RowOwners(files, earlier, schema, slug, run, false);
    HistoryLayout(start, own, schema, slug);
    HistoryLaw(start, own, schema, slug);
    RowOwners(start, own, schema, slug, run, true);
    HistoryLayout(there, later, schema, slug);
    HistoryLaw(there, later, schema, slug);
    RowOwners(there, later, schema, slug, run, false);
    var a := ParseLog(LogOf(files)) + Rows(files, earlier, schema);
    var b := Rows(start, own, schema);
    var c := Rows(there, later, schema);
    assert ParseLog(LogOf(now)) == a + b + c;
    assert Contiguous(a, b, c, run);
    var current := SnapshotOf(LrLines(now, slug));
    TruncationSafe(current, a, b, c, slug, run, count);
    ReconstructedContiguous(current, a, b, c, slug, run);
    if b != [] && |c| < count {
      forall f | f in UI_FIELDS
        ensures UiKey(f).Some? && UiKey(f).value in Undo(current, Counting(c, slug))
        ensures UiKey(f).value in SnapshotOf(LrLines(there, slug))
        ensures Rewound(f, Undo(current, Counting(c, slug))[UiKey(f).value], SnapshotOf(LrLines(there, slug))[UiKey(f).value],
                        FirstRow(c, slug, f).Some?, Val(Doc(LrLines(there, slug)), f), Uncommented(LrLines(there, slug), f))
      {
        FieldRewound(there, now, c, slug, f);
      }
    }
  }

  lemma {:induction false} FieldRewound(there: Files, now: Files, rows: seq<Row>, slug: string, f: string)
    requires BridgeOk(LrLines(there, slug)) && BridgeOk(LrLines(now, slug))
    requires Stepped(there, now, rows, slug) && f in UI_FIELDS
    ensures var current := SnapshotOf(LrLines(now, slug));
            var lines := LrLines(there, slug);
            && UiKey(f).Some? && UiKey(f).value in Undo(current, Counting(rows, slug)) && UiKey(f).value in SnapshotOf(lines)
            && Rewound(f, Undo(current, Counting(rows, slug))[UiKey(f).value], SnapshotOf(lines)[UiKey(f).value],
                       FirstRow(rows, slug, f).Some?, Val(Doc(lines), f), Uncommented(lines, f))
  {
    hide BridgeOk;
    hide Undo;
    hide Counting;
    hide First;
    hide Cells;
    hide SnapshotOf;
    hide UiKey;
    hide ParseLog;
    hide ReplayLog;
    hide Events;
    hide WholeLines;
    hide Visible;
    hide SlugText;
    hide Uncommented;
    hide Contains;
    hide Verbatim;
    hide WellFormed;
    UiFieldKey(f);
    var lines, after := LrLines(there, slug), LrLines(now, slug);
    SnapshotShows(lines, f);
    SnapshotShows(after, f);
    UndoShows(SnapshotOf(after), Counting(rows, slug), f);
    SameVisible(Doc(lines), Doc(after), f);
    LaidOutWell(lines);
    RoutingAbsent(lines);
    VerbatimShown(Doc(lines), f);
    if f in Doc(lines) { DocLacks(lines, f); } else { NothingHides(); }
  }

  lemma NothingHides()
    ensures !Contains("", "  #")
  {}

  lemma SameVisible(a: map<string, string>, b: map<string, string>, f: string)
    ensures Val(a, f) == Val(b, f) ==> Visible(a, f) == Visible(b, f)
  {
    hide Display;
    hide TargetOf;
  }
}
