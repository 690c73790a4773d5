/** bundle-exec as the program runs it: loops over a workspace whose files change under it. */
module ExecutorRun {
  import opened Text
  import opened Wrappers
  import opened YamlLine
  import opened Longrunner
  import opened Store
  import opened Bundles
  import opened Executor
  import Tables
  import Gates

  method MutateDispatchField(ws: Workspace, slug: string, field: string, value: string) returns (r: Option<string>)
    modifies ws
    ensures (ws.files, r) == PutDispatch(old(ws.files), slug, field, value)
  {
    if DISPATCH !in ws.files {
      return None;
    }
    var hit := Tables.MutateDispatchField(SplitLines(ws.files[DISPATCH]), slug, field, value);
    if hit.None? {
      return None;
    }
    ws.files := ws.files[DISPATCH := Written(hit.value.0)];
    return Some(hit.value.1);
  }

  method MutateLockField(ws: Workspace, field: string, value: string) returns (r: Option<string>)
    modifies ws
    ensures (ws.files, r) == PutLock(old(ws.files), field, value)
  {
    hide MatchField;
    hide Strip;
    hide SplitLines;
    hide Written;
    if LOCK !in ws.files {
      return None;
    }
    var lines := SplitLines(ws.files[LOCK]);
    var i := 0;
    r := None;
    while i < |lines|
      invariant 0 <= i <= |lines| && r == None && lines == SplitLines(old(ws.files)[LOCK])
      invariant LockLine(lines, field, 0) == LockLine(lines, field, i)
    {
      var m := MatchField(lines[i], field);
      if m.Some? {
        r := Some(Strip(lines[i][m.value.1 + 1..]));
        lines := lines[i := lines[i][..m.value.0] + field + ": " + value];
        break;
      }
      i := i + 1;
    }
    ws.files := ws.files[LOCK := Written(lines)];
  }

  method ApplyMutate(ws: Workspace, target: string, field: string, value: string, args: Args) returns (r: Option<string>)
    modifies ws
    ensures (ws.files, r) == Apply(old(ws.files), target, field, value, args)
  {
    hide PutLongrunner;
    hide PutDispatch;
    hide PutLock;
    hide PutManifest;
    hide Contains;
    var slug := Slug(args);
    if Contains(target, "LONGRUNNER") {
      r := ws.MutateLongrunnerField(slug, field, value);
    } else if Contains(target, "DISPATCH") {
      r := MutateDispatchField(ws, slug, field, value);
    } else if Contains(target, "LOCK") {
      r := MutateLockField(ws, field, value);
    } else if Contains(target, "MANIFEST") {
      var (files, o) := PutManifest(ws.files, field, value);
      ws.files := files;
      r := o;
    } else {
      r := None;
    }
  }

  method DoAppend(ws: Workspace, path: string, line: string, schema: Option<Gates.Schema>)
    modifies ws
    ensures ws.files == AppendOne(old(ws.files), path, line, schema)
  {
    hide MayAppend;
    if !MayAppend(path, schema) {
      return;
    }
    var before := if path in ws.files then ws.files[path] else "";
    ws.files := ws.files[path := before + line[..SkipBack(line, |line|, {'\n'})] + "\n"];
  }

  /** The checks: the first one that fails, and no file touched. */
  method Check(files: Files, spec: Spec, args: Args, schema: Option<Gates.Schema>) returns (r: Option<Refusal>)
    ensures r == Refused(files, spec, args, schema)
  {
    hide Guard;
    hide BlockedPath;
    hide Contains;
    hide IsValidSlug;
    hide WritePath;
    hide AfterColon;
    hide Passes;
    hide Slug;
    for i := 0 to |spec.args|
      invariant FirstMissing(spec.args, args, 0) == FirstMissing(spec.args, args, i)
    {
      if spec.args[i] !in args {
        return Some(MissingArg(spec.args[i]));
      }
    }
    var needsSlug := false;
    for i := 0 to |spec.writes|
      invariant needsSlug <==> exists k :: 0 <= k < i && Contains(AfterColon(spec.writes[k].target), "{slug}")
    {
      if Contains(AfterColon(spec.writes[i].target), "{slug}") {
        needsSlug := true;
      }
    }
    if needsSlug && !IsValidSlug(Slug(args)) {
      return Some(InvalidSlug);
    }
    for i := 0 to |spec.writes|
      invariant FirstBlocked(spec.writes, args, schema, 0) == FirstBlocked(spec.writes, args, schema, i)
    {
      var path := WritePath(spec.writes[i].target, args);
      if BlockedPath(path, schema) {
        return Some(ProtectedWrite(path));
      }
    }
    for i := 0 to |spec.validates|
      invariant FirstFailed(spec.validates, args, files, 0) == FirstFailed(spec.validates, args, files, i)
    {
      if !Passes(Guard(spec.validates[i], args, files)) {
        return Some(GuardFailed(spec.validates[i]));
      }
    }
    return None;
  }

  lemma RunSnoc(files: Files, ws: seq<FieldWrite>, w: FieldWrite, args: Args, clock: Clock)
    ensures RunWrites(files, ws + [w], args, clock) == OneWrite(RunWrites(files, ws, args, clock), w, args, clock)
  {
    hide OneWrite;
    assert (ws + [w])[..|ws|] == ws;
  }

  lemma GroupSnoc(writes: seq<Write>, g: Write)
    ensures FieldWrites(writes + [g]) == FieldWrites(writes) + FieldsOf(g.target, g.fields)
  {
    assert (writes + [g])[..|writes|] == writes;
  }

  /** Resolve and apply the fields of one write group, in order. */
  method WriteGroup(ws: Workspace, g: Write, changes0: seq<Change>, args: Args, clock: Clock,
                    ghost start: Files, ghost before: seq<FieldWrite>) returns (changes: seq<Change>)
    requires State(ws.files, changes0) == RunWrites(start, before, args, clock)
    modifies ws
    ensures State(ws.files, changes) == RunWrites(start, before + FieldsOf(g.target, g.fields), args, clock)
  {
    hide Resolve;
    hide Apply;
    hide RunWrites;
    changes := changes0;
    ghost var all := FieldsOf(g.target, g.fields);
    assert before + all[..0] == before;
    for j := 0 to |g.fields|
      invariant State(ws.files, changes) == RunWrites(start, before + all[..j], args, clock)
    {
      RunSnoc(start, before + all[..j], all[j], args, clock);
      assert before + all[..j] + [all[j]] == before + all[..j + 1];
      var (field, expr) := g.fields[j];
      var resolved := Resolve(expr, args, clock, ws.files, false).text;
      var oldValue := ApplyMutate(ws, g.target, field, resolved, args);
      if oldValue.Some? && oldValue.value != resolved {
        changes := changes + [Change(g.target, field, oldValue.value, resolved)];
      }
    }
    assert all[..|g.fields|] == all;
  }

  /** All write groups, in order. */
  method RunAll(ws: Workspace, writes: seq<Write>, args: Args, clock: Clock) returns (changes: seq<Change>)
    modifies ws
    ensures State(ws.files, changes) == RunWrites(old(ws.files), FieldWrites(writes), args, clock)
  {
    changes := [];
    for i := 0 to |writes|
      invariant State(ws.files, changes) == RunWrites(old(ws.files), FieldWrites(writes[..i]), args, clock)
    {
      assert writes[..i + 1] == writes[..i] + [writes[i]];
      GroupSnoc(writes[..i], writes[i]);
      changes := WriteGroup(ws, writes[i], changes, args, clock, old(ws.files), FieldWrites(writes[..i]));
    }
    assert writes[..|writes|] == writes;
  }

  lemma AppendSnoc(files: Files, path: string, lines: seq<string>, line: string, schema: Option<Gates.Schema>)
    ensures AppendAll(files, path, lines + [line], schema) == AppendOne(AppendAll(files, path, lines, schema), path, line, schema)
  {
    hide AppendOne;
    assert (lines + [line])[..|lines|] == lines;
  }

  /** Write the rows to the change log, one append each. */
  method AppendRows(ws: Workspace, rows: seq<string>, schema: Option<Gates.Schema>)
    modifies ws
    ensures ws.files == AppendAll(old(ws.files), CHANGE_LOG, rows, schema)
  {
    hide AppendOne;
    for i := 0 to |rows|
      invariant ws.files == AppendAll(old(ws.files), CHANGE_LOG, rows[..i], schema)
    {
      AppendSnoc(old(ws.files), CHANGE_LOG, rows[..i], rows[i], schema);
      assert rows[..i + 1] == rows[..i] + [rows[i]];
      DoAppend(ws, CHANGE_LOG, rows[i], schema);
    }
    assert rows[..|rows|] == rows;
  }

  /** cmd_bundle_exec: a refused bundle leaves every file as it was. */
  method BundleExec(ws: Workspace, name: string, spec: Spec, args: Args, clock: Clock, schema: Option<Gates.Schema>)
    returns (out: Outcome)
    modifies ws
    ensures (ws.files, out) == Exec(old(ws.files), name, spec, args, clock, schema)
    ensures out.Refuse? ==> ws.files == old(ws.files)
  {
    hide Refused;
    hide RunWrites;
    hide LogRows;
    hide AppendAll;
    hide AppendOne;
    hide Resolve;
    hide Notification;
    var refusal := Check(ws.files, spec, args, schema);
    if refusal.Some? {
      return Refuse(refusal.value);
    }
    var changes := RunAll(ws, spec.writes, args, clock);
    AppendRows(ws, LogRows(changes, args, clock.now, name, schema), schema);
    ghost var logged := ws.files;
    for i := 0 to |spec.appends|
      invariant ws.files == Appends(logged, spec.appends[..i], args, clock, schema)
    {
      var a := spec.appends[i];
      assert spec.appends[..i + 1][..i] == spec.appends[..i];
      var path := Resolve(a.file, args, clock, ws.files, true).text;
      var line := Resolve(a.line, args, clock, ws.files, true).text;
      DoAppend(ws, path, line, schema);
    }
    assert spec.appends[..|spec.appends|] == spec.appends;
    if spec.notify.Some? {
      DoAppend(ws, "NOTIFICATIONS.md", Notification(spec.notify.value, args, clock, ws.files), schema);
    }
    return Done(changes);
  }

  /** validate-bundles for one bundle: the number of errors it reports. */
  method ValidateBundle(spec: Spec) returns (errors: nat)
    ensures errors == 0 <==> Validated(spec) && forall i, k :: 0 <= i < |spec.writes| && 0 <= k < |PROTECTED| ==>
                                                  !Contains(spec.writes[i].target, PROTECTED[k])
  {
    hide Contains;
    hide GuardKnown;
    hide RefsDeclared;
    errors := 0;
    for i := 0 to |spec.writes|
      invariant errors == 0 <==> forall x, k :: 0 <= x < i && 0 <= k < |PROTECTED| ==> !Contains(spec.writes[x].target, PROTECTED[k])
    {
      ghost var before := errors;
      for k := 0 to |PROTECTED|
        invariant errors == 0 <==> before == 0 && forall y :: 0 <= y < k ==> !Contains(spec.writes[i].target, PROTECTED[y])
      {
        if Contains(spec.writes[i].target, PROTECTED[k]) {
          errors := errors + 1;
        }
      }
    }
    ghost var e0 := errors;
    for i := 0 to |spec.validates|
      invariant errors == 0 <==> e0 == 0 && forall x :: 0 <= x < i ==> GuardKnown(spec.validates[x])
    {
      if !GuardKnown(spec.validates[i]) {
        errors := errors + 1;
      }
    }
    ghost var e1 := errors;
    for i := 0 to |spec.writes|
      invariant errors == 0 <==> e1 == 0 && forall x, j :: 0 <= x < i && 0 <= j < |spec.writes[x].fields| ==>
                                                          RefsDeclared(spec.writes[x].fields[j].1, spec)
    {
      ghost var before := errors;
      var fields := spec.writes[i].fields;
      for j := 0 to |fields|
        invariant errors == 0 <==> before == 0 && forall y :: 0 <= y < j ==> RefsDeclared(fields[y].1, spec)
      {
        if !RefsDeclared(fields[j].1, spec) {
          errors := errors + 1;
        }
      }
    }
    ghost var e2 := errors;
    for i := 0 to |spec.appends|
      invariant errors == 0 <==> e2 == 0 && forall x :: 0 <= x < i ==> RefsDeclared(spec.appends[x].line, spec)
    {
      if !RefsDeclared(spec.appends[i].line, spec) {
        errors := errors + 1;
      }
    }
  }
}
