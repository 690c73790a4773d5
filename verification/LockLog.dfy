/** The executor's log of LOCK.md changes: replayed and undone, field by field. */
module LockLog {
  import opened Text
  import opened Wrappers
  import opened YamlLine
  import opened Store
  import opened Bundles
  import opened Executor
  import opened ExecutorLaws
  import opened PrintedLog
  import opened ChangeLog
  import Longrunner
  import Tables

  function LockLines(files: Files): seq<string> { if LOCK in files then SplitLines(files[LOCK]) else [] }

  /** What mutate_lock_field reports for a field: the text behind the colon of the first line that carries it. */
  function Reading(lines: seq<string>, f: string): Option<string> {
    var i := LockLine(lines, f, 0);
    if i == |lines| then None else Some(Strip(lines[i][MatchField(lines[i], f).value.1 + 1..]))
  }

  // ---------------------------------------------------------------- one write

  /** A field name that is one word, and a value that is one trimmed line. */
  ghost predicate LockWrite(f: string, v: string) { WordKey(f) && Trimmed(v, SPACES) && BreakFree(v) }

  function Replaced(line: string, f: string, v: string): string
    requires MatchField(line, f).Some?
  {
    line[..MatchField(line, f).value.0] + f + ": " + v
  }

  /** A rewritten line carries its old field and no other, with the new value. */
  lemma {:induction false} ReplacedReads(line: string, f: string, v: string)
    requires MatchField(line, f).Some? && WordKey(f) && Trimmed(v, SPACES)
    ensures var nl := Replaced(line, f, v);
            && (forall g :: WordKey(g) ==> (MatchField(nl, g).Some? <==> MatchField(line, g).Some?))
            && MatchField(nl, f).Some? && Strip(nl[MatchField(nl, f).value.1 + 1..]) == v
  {
    hide IsSpace;
    hide IsWord;
    MatchIsLoose(line, f);
    var a := MatchField(line, f).value.0;
    var ind := line[..a];
    assert a == Skip(line, 0, SPACES);
    var nl := Replaced(line, f, v);
    Joined(ind, f, v);
    KvOf(ind, f, " " + v, nl);
    hide Skip;
    Padded(v);
    forall g | WordKey(g) ensures MatchField(nl, g).Some? <==> MatchField(line, g).Some? {
      MatchIsLoose(line, g);
      MatchIsLoose(nl, g);
    }
  }

  lemma Joined(ind: string, f: string, v: string)
    ensures ind + f + ": " + v == ind + f + ":" + (" " + v)
  {
    assert ": " == ":" + " ";
  }

  lemma Padded(v: string)
    requires Trimmed(v, SPACES)
    ensures Strip(" " + v) == v
  {
    CharClasses();
    hide IsSpace;
    StripPadded(" ", v, "", SPACES);
    assert " " + v + "" == " " + v;
  }

  lemma {:induction false} ReplacedBreakFree(line: string, f: string, v: string)
    requires MatchField(line, f).Some? && BreakFree(line) && BreakFree(v) && WordKey(f)
    ensures BreakFree(Replaced(line, f, v))
  {
    KeyBreakFree(f);
    var a := MatchField(line, f).value.0;
    assert BreakFree(line[..a]) && BreakFree(": ");
    hide BreakFree;
    Concat(line[..a], f);
    Concat(line[..a] + f, ": ");
    Concat(line[..a] + f + ": ", v);
  }

  lemma KeyBreakFree(f: string)
    requires WordKey(f)
    ensures BreakFree(f)
  {
    forall k | 0 <= k < |f| ensures !IsBreak(f[k]) { assert f[k] in KEY_CHARS; }
  }

  /** The search for a field is the search for the first line that carries it. */
  lemma {:induction false} LockLineIs(lines: seq<string>, f: string, i: nat, r: nat)
    requires i <= r <= |lines| && (r < |lines| ==> MatchField(lines[r], f).Some?)
    requires forall k :: i <= k < r ==> MatchField(lines[k], f).None?
    ensures LockLine(lines, f, i) == r
    decreases r - i
  {
    hide MatchField;
    if i < r { LockLineIs(lines, f, i + 1, r); }
  }

  lemma {:induction false} LockLineFirst(lines: seq<string>, f: string, i: nat)
    requires i <= |lines|
    ensures forall k :: i <= k < LockLine(lines, f, i) ==> MatchField(lines[k], f).None?
    decreases |lines| - i
  {
    hide MatchField;
    if i < |lines| { LockLineFirst(lines, f, i + 1); }
  }

  /** A write changes what one field reads and nothing else; a field no line carries is reported as None. */
  lemma {:induction false} LineWrite(lines: seq<string>, f: string, v: string, g: string)
    requires LockWrite(f, v) && WordKey(g) && LockLine(lines, f, 0) < |lines|
    ensures var i := LockLine(lines, f, 0);
            Reading(lines[i := Replaced(lines[i], f, v)], g) == if g == f then Some(v) else Reading(lines, g)
  {
    hide MatchField;
    hide Replaced;
    hide WordKey;
    hide BreakFree;
    hide Strip;
    hide LockLine;
    var i, j := LockLine(lines, f, 0), LockLine(lines, g, 0);
    var after := lines[i := Replaced(lines[i], f, v)];
    ReplacedReads(lines[i], f, v);
    LockLineFirst(lines, f, 0);
    LockLineFirst(lines, g, 0);
    LockLineIs(after, g, 0, j);
    if g != f && j == i { OneKey(lines[i], f, g); }
  }

  lemma OneKey(line: string, f: string, g: string)
    requires WordKey(f) && WordKey(g) && MatchField(line, f).Some? && MatchField(line, g).Some?
    ensures f == g
  {
    MatchIsLoose(line, f);
    MatchIsLoose(line, g);
    hide MatchField;
    hide LooseKey;
  }

  /** The same through the file. */
  lemma {:induction false} FileWrite(files: Files, f: string, v: string, g: string)
    requires LockWrite(f, v) && WordKey(g)
    ensures var (after, old_) := PutLock(files, f, v);
            && old_ == Reading(LockLines(files), f)
            && (if old_.None? then Reading(LockLines(after), g) == Reading(LockLines(files), g)
                else Reading(LockLines(after), g) == if g == f then Some(v) else Reading(LockLines(files), g))
  {
    hide MatchField;
    hide WordKey;
    hide BreakFree;
    hide Strip;
    hide SplitLines;
    hide Written;
    hide LockLine;
    if LOCK in files {
      var lines := LockLines(files);
      var i := LockLine(lines, f, 0);
      if i < |lines| {
        LineWrite(lines, f, v, g);
        ReplacedBreakFree(lines[i], f, v);
        ReadWritten(lines[i := Replaced(lines[i], f, v)]);
      } else {
        ReadWritten(lines);
        if lines == [] { NoLines(g); }
      }
    }
  }

  lemma NoLines(g: string)
    requires WordKey(g)
    ensures Reading([], g) == None && Reading([""], g) == None
  {
    assert At("", 0, g) ==> g == "";
    assert LockLine([""], g, 1) == 1;
  }

  // ---------------------------------------------------------------- a run of writes

  predicate ToLock(target: string) { KindOfTarget(target).LockTarget? }

  /** The new value of the last change of a field, and the old value of its first. */
  function LastNew(cs: seq<Change>, g: string): Option<string> {
    if cs == [] then None else
    var c := cs[|cs| - 1];
    if ToLock(c.target) && c.field == g then Some(c.newVal) else LastNew(cs[..|cs| - 1], g)
  }

  function FirstOldOf(cs: seq<Change>, g: string): Option<string> {
    if cs == [] then None else
    var before := FirstOldOf(cs[..|cs| - 1], g);
    var c := cs[|cs| - 1];
    if before.Some? then before else if ToLock(c.target) && c.field == g then Some(c.oldVal) else None
  }

  /** Replaying the changes leads from one reading to the other, and undoing them leads back. */
  predicate FieldTraced(cs: seq<Change>, g: string, before: Option<string>, after: Option<string>) {
    && after == (if LastNew(cs, g).Some? then LastNew(cs, g) else before)
    && before == (if FirstOldOf(cs, g).Some? then FirstOldOf(cs, g) else after)
  }

  lemma TracedMore(cs: seq<Change>, c: Change, g: string, before: Option<string>, after: Option<string>)
    requires FieldTraced(cs, g, before, after)
    requires ToLock(c.target) && c.field == g ==> after == Some(c.oldVal)
    ensures FieldTraced(cs + [c], g, before, if ToLock(c.target) && c.field == g then Some(c.newVal) else after)
  {
    hide ToLock;
    assert (cs + [c])[..|cs|] == cs;
  }

  ghost predicate LockWritable(files: Files, ws: seq<FieldWrite>, args: Args, clock: Clock) {
    forall n :: 0 <= n < |ws| && ToLock(ws[n].target) ==> LockWrite(ws[n].field, StoredValue(files, ws, args, clock, n))
  }

  lemma LockElsewhere(files: Files, w: FieldWrite, v: string, args: Args)
    requires !ToLock(w.target)
    ensures LockLines(Apply(files, w.target, w.field, v, args).0) == LockLines(files)
  {
    hide KindOfTarget;
    hide IsValidSlug;
    hide Longrunner.LongrunnerPath;
    hide Longrunner.Mutate;
    hide SplitLines;
    hide Tables.MutateDispatch;
    hide ManifestLines;
    PathsApart(Slug(args), Slug(args));
  }

  lemma {:induction false} LockStep(s: State, w: FieldWrite, args: Args, clock: Clock, v: string, g: string, before: Option<string>)
    requires FieldTraced(s.changes, g, before, Reading(LockLines(s.files), g)) && WordKey(g)
    requires v == Resolve(w.expr, args, clock, s.files, false).text && (ToLock(w.target) ==> LockWrite(w.field, v))
    ensures var t := OneWrite(s, w, args, clock); FieldTraced(t.changes, g, before, Reading(LockLines(t.files), g))
  {
    hide KindOfTarget;
    hide Resolve;
    hide FieldTraced;
    hide Reading;
    hide LockLines;
    hide LockWrite;
    hide WordKey;
    hide PutLongrunner;
    hide PutDispatch;
    hide PutLock;
    hide PutManifest;
    var (files', old_) := Apply(s.files, w.target, w.field, v, args);
    var c := Change(w.target, w.field, if old_.Some? then old_.value else "", v);
    var now := Reading(LockLines(s.files), g);
    if !ToLock(w.target) {
      LockElsewhere(s.files, w, v, args);
      TracedMore(s.changes, c, g, before, now);
    } else {
      FileWrite(s.files, w.field, v, g);
      if old_.Some? { TracedMore(s.changes, c, g, before, now); }
    }
  }

  /** For every field of LOCK.md that is one word: replaying a run's logged changes gives what the file reads
      after it, and undoing them gives what it read before. */
  lemma {:induction false} LockLogFaithful(files: Files, ws: seq<FieldWrite>, args: Args, clock: Clock, g: string)
    requires LockWritable(files, ws, args, clock) && WordKey(g)
    ensures var s := RunWrites(files, ws, args, clock);
            FieldTraced(s.changes, g, Reading(LockLines(files), g), Reading(LockLines(s.files), g))
    decreases |ws|
  {
    hide KindOfTarget;
    hide LockWrite;
    hide OneWrite;
    hide Resolve;
    hide Reading;
    hide WordKey;
    if ws != [] {
      var n := |ws| - 1;
      forall k | 0 <= k < n && ToLock(ws[..n][k].target)
        ensures LockWrite(ws[..n][k].field, StoredValue(files, ws[..n], args, clock, k))
      {
        assert ws[..n][..k] == ws[..k];
        assert StoredValue(files, ws[..n], args, clock, k) == StoredValue(files, ws, args, clock, k);
      }
      LockLogFaithful(files, ws[..n], args, clock, g);
      LockStep(RunWrites(files, ws[..n], args, clock), ws[n], args, clock, StoredValue(files, ws, args, clock, n), g,
               Reading(LockLines(files), g));
    }
  }

  // ---------------------------------------------------------------- the printed log

  predicate OfField(row: Row, g: string) { row.file == LOCK && row.field == g }

  /** The new value of the field's last row, and the old value of its first. */
  function NewestNew(rows: seq<Row>, g: string): Option<string> {
    if rows == [] then None else
    var row := rows[|rows| - 1];
    if OfField(row, g) then Some(row.newVal) else NewestNew(rows[..|rows| - 1], g)
  }

  function OldestOld(rows: seq<Row>, g: string): Option<string> {
    if rows == [] then None else
    var before := OldestOld(rows[..|rows| - 1], g);
    var row := rows[|rows| - 1];
    if before.Some? then before else if OfField(row, g) then Some(row.oldVal) else None
  }

  /** Changes of the lock are logged. */
  predicate LockLogged(cs: seq<Change>) {
    forall k :: 0 <= k < |cs| && ToLock(cs[k].target) ==> !Contains(cs[k].target, "MANIFEST")
  }

  lemma OfChange(c: Change, run: Run, g: string)
    requires !KindOfTarget(c.target).OtherTarget? && !KindOfTarget(c.target).ManifestTarget?
    ensures OfField(LoggedRow(c, run), g) <==> ToLock(c.target) && c.field == g
  {
    hide KindOfTarget;
    hide Longrunner.LongrunnerPath;
    var slug := Slug(run.args);
    PathsApart(slug, slug);
    assert LOCK[0] == 'L' && DISPATCH[0] == 'A';
  }

  lemma {:induction false} ChecksElsewhere(rows: seq<Row>, g: string)
    requires Checks(rows) && g != "CASCADE_CHECK"
    ensures NewestNew(rows, g) == None && OldestOld(rows, g) == None
  {
    if rows != [] { ChecksElsewhere(rows[..|rows| - 1], g); }
  }

  lemma OneRow(checks: seq<Row>, rest: seq<Change>, c: Change, run: Run, g: string)
    requires !KindOfTarget(c.target).OtherTarget? && !KindOfTarget(c.target).ManifestTarget?
    ensures var rows := checks + LoggedRows(rest, run); var all := checks + (LoggedRows(rest, run) + [LoggedRow(c, run)]);
            var hit := ToLock(c.target) && c.field == g;
            && NewestNew(all, g) == (if hit then Some(c.newVal) else NewestNew(rows, g))
            && OldestOld(all, g) ==
               (if OldestOld(rows, g).Some? then OldestOld(rows, g) else if hit then Some(c.oldVal) else None)
  {
    hide KindOfTarget;
    hide OfField;
    OfChange(c, run, g);
    var rows := checks + LoggedRows(rest, run);
    var all := checks + (LoggedRows(rest, run) + [LoggedRow(c, run)]);
    assert all == rows + [LoggedRow(c, run)] && all[..|all| - 1] == rows;
  }

  /** The rows tell what the changes tell. */
  lemma {:induction false} LogTells(checks: seq<Row>, cs: seq<Change>, run: Run, g: string)
    requires Checks(checks) && Loggable(cs, Slug(run.args)) && LockLogged(cs) && g != "CASCADE_CHECK"
    ensures NewestNew(checks + LoggedRows(cs, run), g) == LastNew(cs, g)
    ensures OldestOld(checks + LoggedRows(cs, run), g) == FirstOldOf(cs, g)
    decreases |cs|
  {
    hide KindOfTarget;
    hide IsValidSlug;
    hide Contains;
    hide OfField;
    hide LoggedRow;
    hide Checks;
    if cs == [] {
      assert checks + [] == checks;
      ChecksElsewhere(checks, g);
    } else {
      var rest, c := cs[..|cs| - 1], cs[|cs| - 1];
      assert Loggable(rest, Slug(run.args)) && LockLogged(rest);
      LogTells(checks, rest, run, g);
      if KindOfTarget(c.target).ManifestTarget? { ManifestNamed(c); }
      if Contains(c.target, "MANIFEST") {
        assert cs[|cs| - 1] == c && LoggedRows(rest, run) + [] == LoggedRows(rest, run);
      } else {
        OneRow(checks, rest, c, run, g);
      }
    }
  }

  /** The same from what was printed. */
  lemma {:induction false} LockLogRead(files: Files, run: Run, schema: Policy, g: string)
    requires LockWritable(files, FieldWrites(run.spec.writes), run.args, run.clock) && WordKey(g) && g != "CASCADE_CHECK"
    requires var cs := RunWrites(files, FieldWrites(run.spec.writes), run.args, run.clock).changes;
             CleanRows(cs, run, schema) && LockLogged(cs)
    ensures var s := RunWrites(files, FieldWrites(run.spec.writes), run.args, run.clock);
            var rows := ParseLines(LogRows(s.changes, run.args, run.clock.now, run.name, schema));
            var before, after := Reading(LockLines(files), g), Reading(LockLines(s.files), g);
            && after == (if NewestNew(rows, g).Some? then NewestNew(rows, g) else before)
            && before == (if OldestOld(rows, g).Some? then OldestOld(rows, g) else after)
  {
    hide LockWritable;
    hide CleanRows;
    hide LockLogged;
    hide RunWrites;
    hide LogRows;
    hide ParseLines;
    hide ReplayLines;
    hide Events;
    hide Checks;
    hide Loggable;
    hide Reading;
    hide LockLines;
    hide WordKey;
    hide LastNew;
    hide FirstOldOf;
    hide NewestNew;
    hide OldestOld;
    hide FieldWrites;
    hide LoggedRows;
    hide AllBreakFree;
    hide OwnRows;
    var ws := FieldWrites(run.spec.writes);
    var s := RunWrites(files, ws, run.args, run.clock);
    LockLogFaithful(files, ws, run.args, run.clock, g);
    ChangesLoggable(files, ws, run.args, run.clock);
    var checks := PrintedRows(s.changes, run, schema);
    LogTells(checks, s.changes, run, g);
  }
}
