/** What a run of field writes does to a project's LONGRUNNER, and how faithful its log is. */
module ExecutorLaws {
  import opened Text
  import opened Wrappers
  import opened YamlLine
  import opened Longrunner
  import opened LensLaws
  import opened Store
  import StoreLaws
  import opened Bundles
  import opened BridgeLaws
  import opened Executor
  import Tables

  // ---------------------------------------------------------------- paths

  lemma PathsApart(a: string, b: string)
    ensures LongrunnerPath(a) == LongrunnerPath(b) ==> a == b
    ensures LongrunnerPath(a) !in {CHANGE_LOG, DISPATCH, LOCK, MANIFEST, "NOTIFICATIONS.md"}
    ensures CHANGE_LOG !in {DISPATCH, LOCK, MANIFEST, "NOTIFICATIONS.md"}
  {
    var p, s := "PROJECTS/", "/LONGRUNNER.md";
    assert LongrunnerPath(a) == p + a + s && LongrunnerPath(b) == p + b + s;
    if LongrunnerPath(a) == LongrunnerPath(b) {
      assert |a| == |b|;
      assert (p + a + s)[|p|..|p| + |a|] == a && (p + b + s)[|p|..|p| + |b|] == b;
    }
    assert LongrunnerPath(a)[0] == 'P';
    assert CHANGE_LOG[0] == 'a' && DISPATCH[0] == 'A' && LOCK[0] == 'L' && MANIFEST[0] == 'a' && "NOTIFICATIONS.md"[0] == 'N';
    assert CHANGE_LOG[6] == 'C' && MANIFEST[6] == 'I';
  }

  // ---------------------------------------------------------------- one write

  /** A value that is logged and stored under the same text. */
  predicate Plain(v: string) { Storable(v) && v != "\"\"" }

  /** A field name that leads the mutator nowhere in this document. */
  ghost predicate Unaddressed(lines: seq<string>, f: string) {
    TargetOf(f).None? ||
    exists sec, key :: Placed(sec, key) && f == Canon(sec, key) &&
                       forall i :: 0 <= i < |lines| ==> Slot(lines, i) != Some((sec, key))
  }

  ghost predicate Writable(lines: seq<string>, f: string, v: string) {
    (f in Doc(lines) && Plain(v)) || Unaddressed(lines, f)
  }

  /** The same fields on the same lines, with the same comments; lines added at the end carry nothing. */
  ghost predicate SameFrame(a: seq<string>, b: seq<string>) {
    && |a| <= |b| && (forall i :: 0 <= i < |a| ==> Slot(a, i) == Slot(b, i))
    && (forall i :: |a| <= i < |b| ==> Slot(b, i).None?)
    && Doc(a).Keys == Doc(b).Keys && (forall g :: Uncommented(a, g) == Uncommented(b, g))
  }

  lemma WritableSame(a: seq<string>, b: seq<string>, f: string, v: string)
    requires SameFrame(a, b) && Writable(a, f, v)
    ensures Writable(b, f, v)
  {
    hide Slot;
    hide Cells;
    hide Plain;
    hide Placed;
    hide TargetOf;
    hide Canon;
    if !(f in Doc(a) && Plain(v)) && TargetOf(f).Some? {
      var sec, key :| Placed(sec, key) && f == Canon(sec, key) &&
                      forall i :: 0 <= i < |a| ==> Slot(a, i) != Some((sec, key));
      assert forall i :: 0 <= i < |b| ==> Slot(b, i) != Some((sec, key));
    }
  }

  lemma {:induction false} UnaddressedWrite(lines: seq<string>, f: string, v: string)
    requires WellFormed(lines) && Unaddressed(lines, f)
    ensures Mutate(lines, f, v) == (lines, "") && f !in Doc(lines)
  {
    hide LinesOk;
    hide KeysDistinct;
    hide Slot;
    hide TargetOf;
    hide YamlKey;
    hide Canon;
    hide Placed;
    hide Cells;
    hide ValueAt;
    hide WordKey;
    hide CleanRaw;
    hide Kv;
    if f in Doc(lines) {
      var i := FieldLine(lines, |lines|, f);
      ValueSlot(lines, i);
      hide Mutate;
      if TargetOf(f).Some? {
        var sec, key :| Placed(sec, key) && f == Canon(sec, key) &&
                        forall i :: 0 <= i < |lines| ==> Slot(lines, i) != Some((sec, key));
        SlotOfName(lines, i, sec, key);
      }
    } else if TargetOf(f).Some? {
      var sec, key :| Placed(sec, key) && f == Canon(sec, key) &&
                      forall i :: 0 <= i < |lines| ==> Slot(lines, i) != Some((sec, key));
      WriteAbsent(lines, sec, key, v);
    }
  }

  lemma {:induction false} SlotOfName(lines: seq<string>, i: nat, sec: Section, key: string)
    requires LinesOk(lines) && i < |lines| && ValueAt(lines, i).Some? && Placed(sec, key)
    requires ValueAt(lines, i).value.0 == Canon(sec, key)
    ensures Slot(lines, i) == Some((sec, key))
  {
    hide LinesOk;
    hide Slot;
    hide TargetOf;
    hide YamlKey;
    hide Canon;
    hide ValueAt;
    hide WordKey;
    hide CleanRaw;
    hide Kv;
    hide Dotted;
    ValueSlot(lines, i);
    CanonInverse(sec, key);
    var s := Slot(lines, i).value;
    assert s.0 == sec && s.1 == key;
  }

  function Val(d: map<string, string>, f: string): string { if f in d then d[f] else "" }

  function LrLines(files: Files, slug: string): seq<string> {
    if LongrunnerPath(slug) in files then SplitLines(files[LongrunnerPath(slug)]) else []
  }

  /** A document without lines is written as one empty line, which says as little. */
  lemma NoLines()
    ensures WellFormed([]) && !BridgeOk([]) && WellFormed([""]) && SameFrame([], [""]) && Doc([""]) == Doc([])
  {
    hide Kv;
    assert CtrlAt([""], 0) == START && START.sec.None?;
    assert Slot([""], 0).None? && ValueAt([""], 0).None?;
    assert KindOf("") == Body;
    assert LineOkAt([""], 0);
    assert Cells([""], 1) == Cells([""], 0);
    LaidOutLines([], Phase);
    hide LaidOut;
  }

  lemma LaidOutLines(lines: seq<string>, sec: Section)
    ensures LaidOut(lines, sec) ==> lines != []
  {
    hide Marker;
    hide Blank;
    hide PlainValue;
    hide ValueAt;
  }

  lemma SameFrameSelf(lines: seq<string>)
    ensures SameFrame(lines, lines)
  {
    hide Slot;
    hide Cells;
    hide Uncommented;
  }

  /** One write through the file: the document's field becomes the value, if it has the field, and nothing
      else changes; the reported old value is what the document said, "" for a field it lacks. */
  lemma {:induction false} LrWrite(files: Files, slug: string, f: string, v: string)
    requires IsValidSlug(slug) && LongrunnerPath(slug) in files
    requires WellFormed(LrLines(files, slug)) && Writable(LrLines(files, slug), f, v)
    ensures var lines := LrLines(files, slug);
            var (files', old_) := PutLongrunner(files, slug, f, v);
            && files'.Keys == files.Keys && (forall p :: p in files && p != LongrunnerPath(slug) ==> files'[p] == files[p])
            && old_ == Some(Val(Doc(lines), f))
            && WellFormed(LrLines(files', slug)) && SameFrame(lines, LrLines(files', slug))
            && Doc(LrLines(files', slug)) == (if f in Doc(lines) then Doc(lines)[f := v] else Doc(lines))
            && (BridgeOk(lines) && !Contains(v, "```") ==> BridgeOk(LrLines(files', slug)))
  {
    hide IsValidSlug;
    hide LongrunnerPath;
    hide WellFormed;
    hide BridgeOk;
    hide Contains;
    hide Cells;
    hide Slot;
    hide Mutate;
    hide Storable;
    hide SplitLines;
    hide Written;
    hide BreakFree;
    hide TargetOf;
    hide Unaddressed;
    hide Uncommented;
    var lines := LrLines(files, slug);
    if f in Doc(lines) && Plain(v) {
      PlainWrite(lines, f, v);
      ReadWritten(Mutate(lines, f, v).0);
    } else {
      UnaddressedWrite(lines, f, v);
      ReadWritten(lines);
      if lines == [] { NoLines(); } else { SameFrameSelf(lines); }
    }
  }

  lemma {:induction false} PlainWrite(lines: seq<string>, f: string, v: string)
    requires WellFormed(lines) && f in Doc(lines) && Plain(v) && forall k :: 0 <= k < |lines| ==> BreakFree(lines[k])
    ensures var (after, old_) := Mutate(lines, f, v);
            && after != [] && (forall k :: 0 <= k < |after| ==> BreakFree(after[k]))
            && WellFormed(after) && SameFrame(lines, after) && Doc(after) == Doc(lines)[f := v] && old_ == Doc(lines)[f]
            && (BridgeOk(lines) && !Contains(v, "```") ==> BridgeOk(after))
  {
    hide WellFormed;
    hide BridgeOk;
    hide Contains;
    hide Cells;
    hide Slot;
    hide Mutate;
    hide Storable;
    hide BreakFree;
    hide Uncommented;
    WriteField(lines, f, v);
    StoreLaws.MutateBreakFree(lines, f, v);
    forall g ensures Uncommented(Mutate(lines, f, v).0, g) <==> Uncommented(lines, g) { CommentsKept(lines, f, v, g); }
    if BridgeOk(lines) && !Contains(v, "```") { BridgePut(lines, f, v); }
  }

  // ---------------------------------------------------------------- a run of writes

  predicate LrTarget(target: string) { KindOfTarget(target).LongrunnerTarget? }

  /** The old value of the first logged change of a LONGRUNNER field. */
  function FirstOld(cs: seq<Change>, f: string): Option<string> {
    if cs == [] then None else
    var before := FirstOld(cs[..|cs| - 1], f);
    var c := cs[|cs| - 1];
    if before.Some? then before else if LrTarget(c.target) && c.field == f then Some(c.oldVal) else None
  }

  /** Replaying the LONGRUNNER changes forward. */
  function Redo(cs: seq<Change>, d: map<string, string>): map<string, string> {
    if cs == [] then d else
    var before := Redo(cs[..|cs| - 1], d);
    var c := cs[|cs| - 1];
    if LrTarget(c.target) then before[c.field := c.newVal] else before
  }

  /** Undoing the LONGRUNNER changes, the last one first. */
  function UndoAll(cs: seq<Change>, d: map<string, string>): map<string, string>
    decreases |cs|
  {
    if cs == [] then d else
    var c := cs[|cs| - 1];
    UndoAll(cs[..|cs| - 1], if LrTarget(c.target) then d[c.field := c.oldVal] else d)
  }

  /** Every logged LONGRUNNER field is one the document has. */
  predicate Present(cs: seq<Change>, d: map<string, string>) {
    forall k :: 0 <= k < |cs| && LrTarget(cs[k].target) ==> cs[k].field in d
  }

  /** The value the n-th write stores. */
  function StoredValue(files: Files, ws: seq<FieldWrite>, args: Args, clock: Clock, n: nat): string
    requires n < |ws|
  {
    Resolve(ws[n].expr, args, clock, RunWrites(files, ws[..n], args, clock).files, false).text
  }

  /** Every LONGRUNNER write of the run stores a value that reads back, or goes nowhere. */
  ghost predicate RunWritable(files: Files, ws: seq<FieldWrite>, args: Args, clock: Clock) {
    forall n :: 0 <= n < |ws| && LrTarget(ws[n].target) ==>
      Writable(LrLines(files, Slug(args)), ws[n].field, StoredValue(files, ws, args, clock, n))
  }

  /** What relates the files before a run, its state after some writes, and the changes it has logged. */
  ghost predicate Ran(files: Files, s: State, slug: string) {
    var path, before, after := LongrunnerPath(slug), LrLines(files, slug), LrLines(s.files, slug);
    && s.files.Keys == files.Keys
    && WellFormed(after) && SameFrame(before, after)
    && (forall p :: p in files && p !in {path, DISPATCH, LOCK, MANIFEST} ==> s.files[p] == files[p])
    && Traced(s.changes, Doc(before), Doc(after))
  }

  /** The logged changes lead from one document to the other. */
  ghost predicate Traced(cs: seq<Change>, before: map<string, string>, after: map<string, string>) {
    && (forall f :: Val(before, f) == if FirstOld(cs, f).Some? then FirstOld(cs, f).value else Val(after, f))
    && (Present(cs, before) ==> Redo(cs, before) == after)
  }

  lemma TracedSame(cs: seq<Change>, c: Change, before: map<string, string>, after: map<string, string>)
    requires Traced(cs, before, after) && !LrTarget(c.target)
    ensures Traced(cs + [c], before, after)
  {
    hide KindOfTarget;
    var all := cs + [c];
    assert all[..|all| - 1] == cs;
    if Present(all, before) { assert forall k :: 0 <= k < |cs| ==> cs[k] == all[k]; }
  }

  lemma TracedWrite(cs: seq<Change>, c: Change, before: map<string, string>, after: map<string, string>)
    requires Traced(cs, before, after) && before.Keys == after.Keys && LrTarget(c.target) && c.oldVal == Val(after, c.field)
    ensures Traced(cs + [c], before, if c.field in after then after[c.field := c.newVal] else after)
  {
    hide KindOfTarget;
    var all := cs + [c];
    assert all[..|all| - 1] == cs;
    if Present(all, before) {
      assert forall k :: 0 <= k < |cs| ==> cs[k] == all[k];
      assert all[|cs|] == c;
    }
  }

  lemma OtherWrite(files: Files, target: string, f: string, v: string, args: Args)
    requires !LrTarget(target)
    ensures var (files', _) := Apply(files, target, f, v, args);
            files'.Keys == files.Keys && forall p :: p in files && p !in {DISPATCH, LOCK, MANIFEST} ==> files'[p] == files[p]
  {
    hide Tables.MutateDispatch;
    hide ManifestLines;
    hide LockLine;
    hide SplitLines;
    hide MatchField;
    hide Strip;
    hide KindOfTarget;
  }

  lemma SameFrameTwice(a: seq<string>, b: seq<string>, c: seq<string>)
    requires SameFrame(a, b) && SameFrame(b, c)
    ensures SameFrame(a, c)
  {
    hide Slot;
    hide Cells;
    hide Uncommented;
  }

  lemma SameKeys(a: seq<string>, b: seq<string>)
    requires SameFrame(a, b)
    ensures Doc(a).Keys == Doc(b).Keys
  {
    hide Slot;
    hide Cells;
    hide Uncommented;
  }

  lemma {:induction false} OneWriteLaw(files: Files, s: State, w: FieldWrite, args: Args, clock: Clock, v: string)
    requires IsValidSlug(Slug(args)) && LongrunnerPath(Slug(args)) in files && Ran(files, s, Slug(args))
    requires v == Resolve(w.expr, args, clock, s.files, false).text
    requires LrTarget(w.target) ==> Writable(LrLines(files, Slug(args)), w.field, v)
    ensures Ran(files, OneWrite(s, w, args, clock), Slug(args))
  {
    hide IsValidSlug;
    hide KindOfTarget;
    hide WellFormed;
    hide BridgeOk;
    hide SameFrame;
    hide Cells;
    hide Resolve;
    hide Traced;
    hide Writable;
    hide PutLongrunner;
    hide PutDispatch;
    hide PutLock;
    hide PutManifest;
    hide SplitLines;
    hide LongrunnerPath;
    var slug := Slug(args);
    PathsApart(slug, slug);
    var before, after := LrLines(files, slug), LrLines(s.files, slug);
    var (files', old_) := Apply(s.files, w.target, w.field, v, args);
    var c := Change(w.target, w.field, if old_.Some? then old_.value else "", v);
    if LrTarget(w.target) {
      WritableSame(before, after, w.field, v);
      SameKeys(before, after);
      LrWrite(s.files, slug, w.field, v);
      SameFrameTwice(before, after, LrLines(files', slug));
      TracedWrite(s.changes, c, Doc(before), Doc(after));
      assert c.oldVal == v && w.field in Doc(after) ==> Doc(after)[w.field := v] == Doc(after);
    } else {
      OtherWrite(s.files, w.target, w.field, v, args);
      TracedSame(s.changes, c, Doc(before), Doc(after));
    }
  }

  lemma RanStart(files: Files, slug: string)
    requires LongrunnerPath(slug) in files && WellFormed(LrLines(files, slug))
    ensures Ran(files, State(files, []), slug)
  {
    hide WellFormed;
    hide SameFrame;
    hide Cells;
    SameFrameSelf(LrLines(files, slug));
  }

  lemma {:induction false} WritablePrefix(files: Files, ws: seq<FieldWrite>, args: Args, clock: Clock)
    requires RunWritable(files, ws, args, clock) && ws != []
    ensures RunWritable(files, ws[..|ws| - 1], args, clock)
  {
    hide KindOfTarget;
    hide Writable;
    hide Resolve;
    hide RunWrites;
    var n := |ws| - 1;
    forall k | 0 <= k < n && LrTarget(ws[..n][k].target)
      ensures Writable(LrLines(files, Slug(args)), ws[..n][k].field, StoredValue(files, ws[..n], args, clock, k))
    {
      assert ws[..n][..k] == ws[..k];
      assert StoredValue(files, ws[..n], args, clock, k) == StoredValue(files, ws, args, clock, k);
    }
  }

  lemma {:induction false} RunLaw(files: Files, ws: seq<FieldWrite>, args: Args, clock: Clock)
    requires IsValidSlug(Slug(args)) && LongrunnerPath(Slug(args)) in files && WellFormed(LrLines(files, Slug(args)))
    requires RunWritable(files, ws, args, clock)
    ensures Ran(files, RunWrites(files, ws, args, clock), Slug(args))
    decreases |ws|
  {
    hide IsValidSlug;
    hide KindOfTarget;
    hide WellFormed;
    hide Ran;
    hide Writable;
    hide OneWrite;
    hide Resolve;
    if ws == [] {
      RanStart(files, Slug(args));
    } else {
      var n := |ws| - 1;
      WritablePrefix(files, ws, args, clock);
      RunLaw(files, ws[..n], args, clock);
      OneWriteLaw(files, RunWrites(files, ws[..n], args, clock), ws[n], args, clock, StoredValue(files, ws, args, clock, n));
    }
  }

  /** No LONGRUNNER write of the run stores back-ticks, in which the bridge would see the end of the block. */
  ghost predicate TickFree(files: Files, ws: seq<FieldWrite>, args: Args, clock: Clock) {
    forall n :: 0 <= n < |ws| && LrTarget(ws[n].target) ==> !Contains(StoredValue(files, ws, args, clock, n), "```")
  }

  lemma {:induction false} TickFreePrefix(files: Files, ws: seq<FieldWrite>, args: Args, clock: Clock)
    requires TickFree(files, ws, args, clock) && ws != []
    ensures TickFree(files, ws[..|ws| - 1], args, clock)
  {
    hide KindOfTarget;
    hide Contains;
    hide Resolve;
    hide RunWrites;
    var n := |ws| - 1;
    forall k | 0 <= k < n && LrTarget(ws[..n][k].target)
      ensures !Contains(StoredValue(files, ws[..n], args, clock, k), "```")
    {
      assert ws[..n][..k] == ws[..k];
      assert StoredValue(files, ws[..n], args, clock, k) == StoredValue(files, ws, args, clock, k);
    }
  }

  lemma {:induction false} OneWriteLayout(files: Files, s: State, w: FieldWrite, args: Args, clock: Clock, v: string)
    requires IsValidSlug(Slug(args)) && LongrunnerPath(Slug(args)) in files && Ran(files, s, Slug(args))
    requires v == Resolve(w.expr, args, clock, s.files, false).text && BridgeOk(LrLines(s.files, Slug(args)))
    requires LrTarget(w.target) ==> Writable(LrLines(files, Slug(args)), w.field, v) && !Contains(v, "```")
    ensures BridgeOk(LrLines(OneWrite(s, w, args, clock).files, Slug(args)))
  {
    hide IsValidSlug;
    hide KindOfTarget;
    hide WellFormed;
    hide BridgeOk;
    hide Contains;
    hide SameFrame;
    hide Cells;
    hide Resolve;
    hide Traced;
    hide Writable;
    hide PutLongrunner;
    hide PutDispatch;
    hide PutLock;
    hide PutManifest;
    hide SplitLines;
    hide LongrunnerPath;
    var slug := Slug(args);
    PathsApart(slug, slug);
    if LrTarget(w.target) {
      WritableSame(LrLines(files, slug), LrLines(s.files, slug), w.field, v);
      LrWrite(s.files, slug, w.field, v);
    } else {
      OtherWrite(s.files, w.target, w.field, v, args);
    }
  }

  /** A document laid out for the bridge stays so. */
  lemma {:induction false} RunLayout(files: Files, ws: seq<FieldWrite>, args: Args, clock: Clock)
    requires IsValidSlug(Slug(args)) && LongrunnerPath(Slug(args)) in files && BridgeOk(LrLines(files, Slug(args)))
    requires RunWritable(files, ws, args, clock) && TickFree(files, ws, args, clock)
    ensures BridgeOk(LrLines(RunWrites(files, ws, args, clock).files, Slug(args)))
    decreases |ws|
  {
    hide IsValidSlug;
    hide KindOfTarget;
    hide WellFormed;
    hide NoDecoys;
    hide LaidOut;
    hide Contains;
    hide Ran;
    hide Writable;
    hide OneWrite;
    hide Resolve;
    if ws != [] {
      var n := |ws| - 1;
      WritablePrefix(files, ws, args, clock);
      TickFreePrefix(files, ws, args, clock);
      RunLaw(files, ws[..n], args, clock);
      RunLayout(files, ws[..n], args, clock);
      OneWriteLayout(files, RunWrites(files, ws[..n], args, clock), ws[n], args, clock, StoredValue(files, ws, args, clock, n));
    }
  }

  // ---------------------------------------------------------------- the log is faithful

  lemma {:induction false} UndoAllShows(cs: seq<Change>, d: map<string, string>, f: string)
    ensures Val(UndoAll(cs, d), f) == if FirstOld(cs, f).Some? then FirstOld(cs, f).value else Val(d, f)
    ensures f in UndoAll(cs, d) <==> f in d || FirstOld(cs, f).Some?
    decreases |cs|
  {
    hide KindOfTarget;
    if cs != [] {
      var c := cs[|cs| - 1];
      UndoAllShows(cs[..|cs| - 1], if LrTarget(c.target) then d[c.field := c.oldVal] else d, f);
    }
  }

  lemma {:induction false} FirstOldLogged(cs: seq<Change>, f: string)
    ensures FirstOld(cs, f).Some? <==> exists k :: 0 <= k < |cs| && LrTarget(cs[k].target) && cs[k].field == f
  {
    hide LrTarget;
    if cs != [] {
      var rest := cs[..|cs| - 1];
      FirstOldLogged(rest, f);
      if FirstOld(rest, f).Some? {
        var k :| 0 <= k < |rest| && LrTarget(rest[k].target) && rest[k].field == f;
        assert cs[k] == rest[k];
      }
      if k :| 0 <= k < |cs| && LrTarget(cs[k].target) && cs[k].field == f {
        if k < |rest| { assert rest[k] == cs[k]; }
      }
    }
  }

  lemma {:induction false} RedoKeys(cs: seq<Change>, d: map<string, string>, f: string)
    ensures f in Redo(cs, d) <==> f in d || FirstOld(cs, f).Some?
  {
    hide KindOfTarget;
    if cs != [] { RedoKeys(cs[..|cs| - 1], d, f); }
  }

  /** Replaying the logged changes leads from the document before a run to the one after it, and undoing
      them leads back, exactly when every change was logged for a field the document has: a write to an
      absent field changes nothing but is logged all the same. */
  lemma {:induction false} LogFaithful(files: Files, ws: seq<FieldWrite>, args: Args, clock: Clock)
    requires IsValidSlug(Slug(args)) && LongrunnerPath(Slug(args)) in files && WellFormed(LrLines(files, Slug(args)))
    requires RunWritable(files, ws, args, clock)
    ensures var s := RunWrites(files, ws, args, clock);
            var before, after := Doc(LrLines(files, Slug(args))), Doc(LrLines(s.files, Slug(args)));
            && (Redo(s.changes, before) == after <==> Present(s.changes, before))
            && (UndoAll(s.changes, after) == before <==> Present(s.changes, before))
  {
    hide IsValidSlug;
    hide KindOfTarget;
    hide WellFormed;
    hide Cells;
    hide RunWritable;
    hide RunWrites;
    hide SameFrame;
    RunLaw(files, ws, args, clock);
    var s := RunWrites(files, ws, args, clock);
    SameKeys(LrLines(files, Slug(args)), LrLines(s.files, Slug(args)));
    FaithfulFrom(s.changes, Doc(LrLines(files, Slug(args))), Doc(LrLines(s.files, Slug(args))));
  }

  lemma {:induction false} FaithfulFrom(cs: seq<Change>, before: map<string, string>, after: map<string, string>)
    requires Traced(cs, before, after) && before.Keys == after.Keys
    ensures Redo(cs, before) == after <==> Present(cs, before)
    ensures UndoAll(cs, after) == before <==> Present(cs, before)
  {
    hide KindOfTarget;
    hide FirstOld;
    hide Redo;
    hide UndoAll;
    if Present(cs, before) {
      forall f ensures (f in UndoAll(cs, after) <==> f in before) && Val(UndoAll(cs, after), f) == Val(before, f) {
        UndoAllShows(cs, after, f);
        FirstOldLogged(cs, f);
      }
      assert UndoAll(cs, after) == before by {
        forall f | f in before ensures UndoAll(cs, after)[f] == before[f] {
          assert Val(UndoAll(cs, after), f) == Val(before, f);
        }
      }
    } else {
      var k :| 0 <= k < |cs| && LrTarget(cs[k].target) && cs[k].field !in before;
      FirstOldLogged(cs, cs[k].field);
      UndoAllShows(cs, after, cs[k].field);
      RedoKeys(cs, before, cs[k].field);
    }
  }

  // ---------------------------------------------------------------- one row per change

  /** The n-th write finds a value that differs from the one it stores, in a file whose changes are logged. */
  predicate Differs(files: Files, ws: seq<FieldWrite>, args: Args, clock: Clock, n: nat)
    requires n < |ws|
  {
    var here := RunWrites(files, ws[..n], args, clock).files;
    var v := StoredValue(files, ws, args, clock, n);
    var old_ := Apply(here, ws[n].target, ws[n].field, v, args).1;
    old_.Some? && old_.value != v && !Contains(ws[n].target, "MANIFEST")
  }

  function Differing(files: Files, ws: seq<FieldWrite>, args: Args, clock: Clock, n: nat): set<nat>
    requires n <= |ws|
  {
    set k: nat | k < n && Differs(files, ws, args, clock, k)
  }

  /** The log gets exactly one row for every write that changed a value outside the integrity manifest. */
  lemma {:induction false} RowsCounted(files: Files, ws: seq<FieldWrite>, args: Args, clock: Clock, now: string, bundle: string)
    ensures |ChangeRows(RunWrites(files, ws, args, clock).changes, args, now, bundle)|
         == |Differing(files, ws, args, clock, |ws|)|
    decreases |ws|
  {
    hide Apply;
    hide Resolve;
    hide ChangeRow;
    hide Contains;
    if ws == [] {
      assert Differing(files, ws, args, clock, 0) == {};
    } else {
      var n := |ws| - 1;
      var rest := ws[..n];
      RowsCounted(files, rest, args, clock, now, bundle);
      DifferingGrows(files, ws, args, clock);
      var before := RunWrites(files, rest, args, clock);
      var after := RunWrites(files, ws, args, clock);
      hide Differing;
      hide RunWrites;
      if after.changes != before.changes { assert after.changes[..|after.changes| - 1] == before.changes; }
    }
  }

  lemma {:induction false} DifferingGrows(files: Files, ws: seq<FieldWrite>, args: Args, clock: Clock)
    requires ws != []
    ensures var n := |ws| - 1;
            |Differing(files, ws, args, clock, |ws|)| ==
            |Differing(files, ws[..n], args, clock, n)| + if Differs(files, ws, args, clock, n) then 1 else 0
  {
    var n := |ws| - 1;
    hide Differs;
    forall k: nat | k < n ensures Differs(files, ws[..n], args, clock, k) == Differs(files, ws, args, clock, k) {
      SameDiffers(files, ws, args, clock, n, k);
    }
    var more: set<nat> := if Differs(files, ws, args, clock, n) then {n} else {};
    assert Differing(files, ws, args, clock, |ws|) == Differing(files, ws[..n], args, clock, n) + more;
  }

  lemma {:induction false} SameDiffers(files: Files, ws: seq<FieldWrite>, args: Args, clock: Clock, n: nat, k: nat)
    requires k < n < |ws|
    ensures Differs(files, ws[..n], args, clock, k) == Differs(files, ws, args, clock, k)
  {
    hide RunWrites;
    hide Apply;
    hide Resolve;
    hide Contains;
    assert ws[..n][..k] == ws[..k];
  }
}
