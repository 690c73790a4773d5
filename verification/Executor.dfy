/** bundle-exec: check everything, then write fields in place, log every change, append and notify. */
module Executor {
  import opened Text
  import opened Wrappers
  import opened YamlLine
  import opened Longrunner
  import opened Store
  import opened Bundles
  import Tables
  import Gates
  import ChangeLog

  const CHANGE_LOG := "audit/CHANGE-LOG.md"
  const DISPATCH := "ACTIVE-PROJECTS.md"
  const LOCK := "LOCK.md"
  const MANIFEST := "audit/INTEGRITY-MANIFEST.md"

  // ---------------------------------------------------------------- the other mutators, on files

  function PutDispatch(files: Files, slug: string, field: string, v: string): (Files, Option<string>) {
    if DISPATCH !in files then (files, None) else
    match Tables.MutateDispatch(SplitLines(files[DISPATCH]), slug, field, v)
    case None => (files, None)
    case Some((lines, old_)) => (files[DISPATCH := Written(lines)], Some(old_))
  }

  function LockLine(lines: seq<string>, field: string, i: nat): (r: nat)
    requires i <= |lines|
    ensures i <= r <= |lines| && (r < |lines| ==> MatchField(lines[r], field).Some?)
    decreases |lines| - i
  {
    if i < |lines| && MatchField(lines[i], field).None? then LockLine(lines, field, i + 1) else i
  }

  /** mutate_lock_field: the file is written back even when no line carries the field. */
  function PutLock(files: Files, field: string, v: string): (Files, Option<string>) {
    if LOCK !in files then (files, None) else
    var lines := SplitLines(files[LOCK]);
    var i := LockLine(lines, field, 0);
    if i == |lines| then (files[LOCK := Written(lines)], None) else
    var (a, c) := MatchField(lines[i], field).value;
    (files[LOCK := Written(lines[i := lines[i][..a] + field + ": " + v])], Some(Strip(lines[i][c + 1..])))
  }

  function ManifestHeader(field: string): string {
    var f := Lowered(field);
    if f == "last_verified" then "last verified" else if f == "verified_by" then "verified by" else f
  }

  /** The loop of mutate_manifest_field over the lines from i on. */
  function ManifestLines(lines: seq<string>, i: nat, headers: Option<seq<string>>, header: string, v: string,
                         old_: Option<string>): (seq<string>, Option<string>)
    requires i <= |lines|
    decreases |lines| - i
  {
    if i == |lines| then ([], old_) else
    var s := Strip(lines[i]);
    var cells := Tables.Cells(s);
    if !Tables.IsTableLine(s) then
      var (rest, o) := ManifestLines(lines, i + 1, headers, header, v, old_);
      ([lines[i]] + rest, o)
    else if headers.None? then
      var hs := seq(|cells|, k requires 0 <= k < |cells| => Strip(Lowered(cells[k])));
      var (rest, o) := ManifestLines(lines, i + 1, Some(hs), header, v, old_);
      ([lines[i]] + rest, o)
    else
      var col := Tables.IndexOf(headers.value, header, 0);
      if !Tables.IsSeparator(cells) && col < |headers.value| <= |cells| then
        var (rest, o) := ManifestLines(lines, i + 1, headers, header, v, if old_.None? then Some(cells[col]) else old_);
        ([Tables.NewRow(cells[col := Strip(v)])] + rest, o)
      else
        var (rest, o) := ManifestLines(lines, i + 1, headers, header, v, old_);
        ([lines[i]] + rest, o)
  }

  function PutManifest(files: Files, field: string, v: string): (Files, Option<string>) {
    if MANIFEST !in files then (files, None) else
    var (lines, old_) := ManifestLines(SplitLines(files[MANIFEST]), 0, None, ManifestHeader(field), v, None);
    (files[MANIFEST := Written(lines)], Some(if old_.Some? then old_.value else ""))
  }

  datatype Kind = LongrunnerTarget | DispatchTarget | LockTarget | ManifestTarget | OtherTarget

  function KindOfTarget(target: string): Kind {
    if Contains(target, "LONGRUNNER") then LongrunnerTarget
    else if Contains(target, "DISPATCH") then DispatchTarget
    else if Contains(target, "LOCK") then LockTarget
    else if Contains(target, "MANIFEST") then ManifestTarget
    else OtherTarget
  }

  /** apply_mutate */
  function Apply(files: Files, target: string, field: string, v: string, args: Args): (Files, Option<string>) {
    match KindOfTarget(target)
    case LongrunnerTarget => PutLongrunner(files, Slug(args), field, v)
    case DispatchTarget => PutDispatch(files, Slug(args), field, v)
    case LockTarget => PutLock(files, field, v)
    case ManifestTarget => PutManifest(files, field, v)
    case OtherTarget => (files, None)
  }

  // ---------------------------------------------------------------- checks

  datatype Refusal = MissingArg(arg: string) | InvalidSlug | ProtectedWrite(path: string) | GuardFailed(guard: string)

  const PROTECTED: seq<string> := [
    "SOUL.md", "USER.md", "IDENTITY.md", "MEMORY.md", "AGENTS-CORE.md",
    "orchestration-os/CRON-WORKER-PROMPT.md", "orchestration-os/CRON-MANAGER-PROMPT.md",
    "orchestration-os/OPS-PREAPPROVAL.md", "orchestration-os/OPS-AUTONOMOUS-SAFETY.md",
    "orchestration-os/CRON-HARDLINES.md", "orchestration-os/REGISTRY.md"]

  /** What stands behind the first colon, or the whole text. */
  function AfterColon(target: string): string {
    var c := Upto(target, 0, ':');
    if c < |target| then target[c + 1..] else target
  }

  /** The slug filled in wherever {slug} stands, from position i on. */
  function FillSlug(s: string, i: nat, slug: string): string
    requires i <= |s|
    decreases |s| - i
  {
    if i == |s| then ""
    else if At(s, i, "{slug}") then slug + FillSlug(s, i + 6, slug)
    else [s[i]] + FillSlug(s, i + 1, slug)
  }

  predicate EndsWith(s: string, t: string) { |t| <= |s| && s[|s| - |t|..] == t }

  predicate BlockedPath(path: string, schema: Option<Gates.Schema>) {
    (schema.Some? && Gates.IsProtected(schema.value, path)) || exists k :: 0 <= k < |PROTECTED| && EndsWith(path, PROTECTED[k])
  }

  function WritePath(target: string, args: Args): string { FillSlug(AfterColon(target), 0, Slug(args)) }

  predicate NeedsSlug(writes: seq<Write>) {
    exists k :: 0 <= k < |writes| && Contains(AfterColon(writes[k].target), "{slug}")
  }

  function FirstMissing(names: seq<string>, args: Args, i: nat): Option<Refusal>
    requires i <= |names|
    decreases |names| - i
  {
    if i == |names| then None
    else if names[i] !in args then Some(MissingArg(names[i]))
    else FirstMissing(names, args, i + 1)
  }

  function FirstBlocked(writes: seq<Write>, args: Args, schema: Option<Gates.Schema>, i: nat): Option<Refusal>
    requires i <= |writes|
    decreases |writes| - i
  {
    if i == |writes| then None
    else if BlockedPath(WritePath(writes[i].target, args), schema) then Some(ProtectedWrite(WritePath(writes[i].target, args)))
    else FirstBlocked(writes, args, schema, i + 1)
  }

  function FirstFailed(guards: seq<string>, args: Args, files: Files, i: nat): Option<Refusal>
    requires i <= |guards|
    decreases |guards| - i
  {
    if i == |guards| then None
    else if !Passes(Guard(guards[i], args, files)) then Some(GuardFailed(guards[i]))
    else FirstFailed(guards, args, files, i + 1)
  }

  /** Everything that is checked before the first write, in the order it is checked. */
  function Refused(files: Files, spec: Spec, args: Args, schema: Option<Gates.Schema>): Option<Refusal> {
    var missing := FirstMissing(spec.args, args, 0);
    if missing.Some? then missing
    else if NeedsSlug(spec.writes) && !IsValidSlug(Slug(args)) then Some(InvalidSlug)
    else
      var blocked := FirstBlocked(spec.writes, args, schema, 0);
      if blocked.Some? then blocked else FirstFailed(spec.validates, args, files, 0)
  }

  // ---------------------------------------------------------------- writes

  datatype FieldWrite = FieldWrite(target: string, field: string, expr: string)
  datatype Change = Change(target: string, field: string, oldVal: string, newVal: string)

  function FieldsOf(target: string, fields: seq<(string, string)>): (r: seq<FieldWrite>)
    ensures |r| == |fields|
  {
    seq(|fields|, k requires 0 <= k < |fields| => FieldWrite(target, fields[k].0, fields[k].1))
  }

  /** The field writes of the groups, in order. */
  function FieldWrites(writes: seq<Write>): seq<FieldWrite> {
    if writes == [] then [] else
    FieldWrites(writes[..|writes| - 1]) + FieldsOf(writes[|writes| - 1].target, writes[|writes| - 1].fields)
  }

  datatype State = State(files: Files, changes: seq<Change>)

  function OneWrite(s: State, w: FieldWrite, args: Args, clock: Clock): State {
    var v := Resolve(w.expr, args, clock, s.files, false).text;
    var (files, old_) := Apply(s.files, w.target, w.field, v, args);
    State(files, if old_.Some? && old_.value != v then s.changes + [Change(w.target, w.field, old_.value, v)] else s.changes)
  }

  function RunWrites(files: Files, ws: seq<FieldWrite>, args: Args, clock: Clock): State {
    if ws == [] then State(files, []) else
    OneWrite(RunWrites(files, ws[..|ws| - 1], args, clock), ws[|ws| - 1], args, clock)
  }

  // ---------------------------------------------------------------- appends

  const APPEND_ALLOWED: seq<string> := [
    "audit/AUDIT-LOG.md", "audit/SESSION-REGISTRY.md", CHANGE_LOG, "audit/APPROVAL-CHAIN.md",
    "NOTIFICATIONS.md", "NOTIFICATIONS-ARCHIVE.md", "AGENTS-LESSONS.md",
    "orchestration-os/OPS-FAILURE-MODES-ARCHIVE.md", "AGENTS-LESSONS-ARCHIVE.md",
    "orchestration-os/OPS-TOOL-REGISTRY-ARCHIVE.md"]

  /** A daily memory file, memory/YYYY-MM-DD.md; one trailing newline is tolerated. */
  predicate MemoryFile(s: string) {
    var t := if |s| == 21 && s[20] == '\n' then s[..20] else s;
    && |t| == 20 && t[..7] == "memory/" && ChangeLog.Digits(t, 7, 4) && t[11] == '-' && ChangeLog.Digits(t, 12, 2)
    && t[14] == '-' && ChangeLog.Digits(t, 15, 2) && t[17..] == ".md"
  }

  predicate MayAppend(path: string, schema: Option<Gates.Schema>) {
    var p := StripOf(Gates.Slashes(path), {'/'});
    || p in APPEND_ALLOWED || MemoryFile(p)
    || (schema.Some? && var r := Gates.RouteOf(schema.value, p);
        r.Some? && Uppered(r.value.tier) in ["APPEND", "APPEND-ONLY"])
  }

  /** do_append */
  function AppendOne(files: Files, path: string, line: string, schema: Option<Gates.Schema>): Files {
    if !MayAppend(path, schema) then files else
    var before := if path in files then files[path] else "";
    files[path := before + line[..SkipBack(line, |line|, {'\n'})] + "\n"]
  }

  function AppendAll(files: Files, path: string, lines: seq<string>, schema: Option<Gates.Schema>): Files {
    if lines == [] then files else
    AppendOne(AppendAll(files, path, lines[..|lines| - 1], schema), path, lines[|lines| - 1], schema)
  }

  // ---------------------------------------------------------------- log rows

  function RunId(args: Args): string { if "run_id" in args then args["run_id"] else "UNKNOWN" }

  /** The file and field a change is logged under. */
  function LoggedPath(c: Change, slug: string): string {
    match KindOfTarget(c.target)
    case LongrunnerTarget => ChangeLog.FieldPath(LongrunnerPath(slug), c.field)
    case DispatchTarget => ChangeLog.FieldPath(DISPATCH, slug + "." + c.field)
    case LockTarget => ChangeLog.FieldPath(LOCK, c.field)
    case _ => ChangeLog.FieldPath(c.target, c.field)
  }

  function ChangeRow(c: Change, args: Args, now: string, bundle: string): string {
    ChangeLog.RowText(LoggedPath(c, Slug(args)), c.oldVal, c.newVal, RunId(args), now, bundle)
  }

  /** One row per change, integrity-manifest changes left out. */
  function ChangeRows(changes: seq<Change>, args: Args, now: string, bundle: string): seq<string> {
    if changes == [] then [] else
    var c := changes[|changes| - 1];
    var rest := ChangeRows(changes[..|changes| - 1], args, now, bundle);
    if Contains(c.target, "MANIFEST") then rest else rest + [ChangeRow(c, args, now, bundle)]
  }

  predicate TextLess(a: string, b: string)
    decreases |a|
  {
    b != "" && (a == "" || a[0] < b[0] || (a[0] == b[0] && TextLess(a[1..], b[1..])))
  }

  /** Insert into an ascending list without duplicates. */
  function InsertSorted(s: seq<string>, x: string): seq<string> {
    if s == [] then [x] else if s[0] == x then s
    else if TextLess(x, s[0]) then [x] + s else [s[0]] + InsertSorted(s[1..], x)
  }

  /** The targets of the changes with the slug filled in, sorted and without duplicates. */
  function Sources(changes: seq<Change>, slug: string): seq<string> {
    if changes == [] then [] else
    InsertSorted(Sources(changes[..|changes| - 1], slug), FillSlug(changes[|changes| - 1].target, 0, slug))
  }

  function CascadeRow(source: string, e: Gates.Edge, args: Args, now: string, bundle: string): string {
    ChangeLog.RowText(ChangeLog.FieldPath(source, "CASCADE_CHECK"), e.kind, e.target, RunId(args), now, bundle)
  }

  function EdgeRows(source: string, edges: seq<Gates.Edge>, args: Args, now: string, bundle: string): (r: seq<string>)
    ensures |r| == |edges|
  {
    seq(|edges|, k requires 0 <= k < |edges| => CascadeRow(source, edges[k], args, now, bundle))
  }

  function CascadeRows(sources: seq<string>, schema: Gates.Schema, args: Args, now: string, bundle: string): seq<string> {
    if sources == [] then [] else
    CascadeRows(sources[..|sources| - 1], schema, args, now, bundle)
      + EdgeRows(sources[|sources| - 1], Gates.Edges(schema.edges, sources[|sources| - 1]), args, now, bundle)
  }

  /** Everything the bundle appends to the change log: cascade checks first, then the changes. */
  function LogRows(changes: seq<Change>, args: Args, now: string, bundle: string, schema: Option<Gates.Schema>): seq<string> {
    (if schema.Some? then CascadeRows(Sources(changes, Slug(args)), schema.value, args, now, bundle) else [])
      + ChangeRows(changes, args, now, bundle)
  }

  function Appends(files: Files, appends: seq<AppendTo>, args: Args, clock: Clock, schema: Option<Gates.Schema>): Files {
    if appends == [] then files else
    var before := Appends(files, appends[..|appends| - 1], args, clock, schema);
    var a := appends[|appends| - 1];
    AppendOne(before, Resolve(a.file, args, clock, before, true).text, Resolve(a.line, args, clock, before, true).text, schema)
  }

  function Notification(n: Notify, args: Args, clock: Clock, files: Files): string {
    var slug := if "slug" in args then args["slug"] else "system";
    var context := Resolve(n.context, args, clock, files, true).text;
    var action := Resolve(n.actionText, args, clock, files, true).text;
    clock.now + " | Priority: " + Resolve(n.priority, args, clock, files, true).text + " | Project: " + slug
      + " | Status: " + Resolve(n.status, args, clock, files, true).text
      + (if context != "" then "\n" + context else "")
      + (if action != "" then "\nAction required: " + action else "")
  }

  datatype Outcome = Refuse(why: Refusal) | Done(changes: seq<Change>)

  /** cmd_bundle_exec on the files, as one atomic step at one instant. */
  function Exec(files: Files, name: string, spec: Spec, args: Args, clock: Clock, schema: Option<Gates.Schema>): (Files, Outcome) {
    var refusal := Refused(files, spec, args, schema);
    if refusal.Some? then (files, Refuse(refusal.value)) else
    var s := RunWrites(files, FieldWrites(spec.writes), args, clock);
    var logged := AppendAll(s.files, CHANGE_LOG, LogRows(s.changes, args, clock.now, name, schema), schema);
    var appended := Appends(logged, spec.appends, args, clock, schema);
    var final := if spec.notify.None? then appended
                 else AppendOne(appended, "NOTIFICATIONS.md", Notification(spec.notify.value, args, clock, appended), schema);
    (final, Done(s.changes))
  }
}
