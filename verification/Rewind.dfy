/** Recovering a past LONGRUNNER snapshot from the present one and the change log (bridge/runtime.py). */
module Rewind {
  import opened Text
  import opened Wrappers
  import opened Longrunner
  import opened BridgeParser
  import opened BridgeLaws
  import opened ChangeLog

  type Snapshot = map<string, string>

  /** The fields whose rows are considered at all. */
  const LR_FIELDS: set<string> := {
    "phase.name", "phase.objective", "phase.stop_condition", "phase.status", "phase.successor",
    "next_pass.objective", "next_pass.model_tier", "next_pass.context_budget", "next_pass.tools_required",
    "last_pass.objective", "last_pass.output_files", "last_pass.date", "last_pass.validation_passed",
    "last_pass.weak_pass", "routing"}

  /** The key under which the monitor shows a field. */
  function UiKey(f: string): Option<string> {
    if f == "phase.name" then Some("phase_name")
    else if f == "phase.objective" then Some("phase_objective")
    else if f == "phase.stop_condition" then Some("phase_stop")
    else if f == "phase.status" then Some("phase_status")
    else if f == "phase.successor" then Some("phase_successor")
    else if f == "next_pass.objective" then Some("next_pass")
    else if f == "next_pass.model_tier" then Some("next_tier")
    else if f == "next_pass.context_budget" then Some("next_budget")
    else if f == "next_pass.tools_required" then Some("next_tools")
    else if f == "last_pass.objective" then Some("last_objective")
    else if f == "last_pass.output_files" then Some("last_output")
    else if f == "last_pass.date" then Some("last_date")
    else if f == "routing" then Some("routing")
    else None
  }

  const UI_FIELDS: set<string> := {
    "phase.name", "phase.objective", "phase.stop_condition", "phase.status", "phase.successor",
    "next_pass.objective", "next_pass.model_tier", "next_pass.context_budget", "next_pass.tools_required",
    "last_pass.objective", "last_pass.output_files", "last_pass.date", "routing"}

  /** Rows that count as later mutations of the project's LONGRUNNER, from row i on. */
  function Newer(log: seq<Row>, i: nat, seen: bool, slug: string, run: string): seq<Row>
    requires i <= |log|
    decreases |log| - i
  {
    if i == |log| then [] else
    var row := log[i];
    if row.run == run then Newer(log, i + 1, true, slug, run)
    else if !seen || !Counts(row, slug) then Newer(log, i + 1, seen, slug, run)
    else [row] + Newer(log, i + 1, seen, slug, run)
  }

  predicate Counts(row: Row, slug: string) {
    Contains(row.file, LongrunnerPath(slug)) && row.field in LR_FIELDS
  }

  predicate Mentions(log: seq<Row>, run: string) { exists i :: 0 <= i < |log| && log[i].run == run }

  function UndoRow(snap: Snapshot, row: Row): Snapshot {
    match UiKey(row.field)
    case None => snap
    case Some(k) => snap[k := row.oldVal]
  }

  /** Undo the rows, the last one first. */
  function Undo(snap: Snapshot, rows: seq<Row>): Snapshot
    decreases |rows|
  {
    if rows == [] then snap else Undo(UndoRow(snap, rows[|rows| - 1]), rows[..|rows| - 1])
  }

  /** _reconstruct_longrunner_at, given the snapshot read from the file now. */
  function Reconstructed(current: Option<Snapshot>, log: seq<Row>, slug: string, run: string): (Option<Snapshot>, bool) {
    if current.None? then (None, false) else
    var newer := Newer(log, 0, false, slug, run);
    if !Mentions(log, run) && newer == [] then (current, false)
    else (Some(Undo(current.value, newer)), true)
  }

  method ReconstructLongrunnerAt(current: Option<Snapshot>, log: seq<Row>, slug: string, run: string)
    returns (snap: Option<Snapshot>, exact: bool)
    ensures (snap, exact) == Reconstructed(current, log, slug, run)
  {
    hide Counts;
    hide UndoRow;
    if current.None? {
      return None, false;
    }
    var newer: seq<Row> := [];
    var sawTarget := false;
    for i := 0 to |log|
      invariant sawTarget <==> exists k :: 0 <= k < i && log[k].run == run
      invariant newer + Newer(log, i, sawTarget, slug, run) == Newer(log, 0, false, slug, run)
    {
      var row := log[i];
      if row.run == run {
        sawTarget := true;
        continue;
      }
      if !sawTarget {
        continue;
      }
      if !Counts(row, slug) {
        continue;
      }
      newer := newer + [row];
    }
    assert newer + [] == newer;
    if !sawTarget && newer == [] {
      return current, false;
    }
    var s := current.value;
    var j := |newer|;
    assert newer[..|newer|] == newer;
    while j > 0
      invariant 0 <= j <= |newer| && Undo(s, newer[..j]) == Undo(current.value, newer)
    {
      j := j - 1;
      assert newer[..j + 1][..j] == newer[..j];
      s := UndoRow(s, newer[j]);
    }
    assert newer[..0] == [];
    return Some(s), true;
  }

  // ---------------------------------------------------------------- what undoing does

  /** The old value of the first row of a field. */
  function First(rows: seq<Row>, f: string): Option<string> {
    if rows == [] then None else if rows[0].field == f then Some(rows[0].oldVal) else First(rows[1..], f)
  }

  lemma {:induction false} FirstSnoc(rows: seq<Row>, row: Row, f: string)
    ensures First(rows + [row], f) ==
            if First(rows, f).Some? then First(rows, f) else if row.field == f then Some(row.oldVal) else None
  {
    if rows != [] {
      assert (rows + [row])[1..] == rows[1..] + [row];
      FirstSnoc(rows[1..], row, f);
    }
  }

  /** The field a key shows, told by the key's length and two of its letters. */
  function FieldOf(u: string): string {
    if |u| < 7 then "" else
    var (n, a, b) := (|u|, u[0], u[6]);
    if n == 10 && a == 'p' && b == 'n' then "phase.name"
    else if n == 15 && a == 'p' && b == 'o' then "phase.objective"
    else if n == 10 && a == 'p' && b == 's' then "phase.stop_condition"
    else if n == 12 && a == 'p' && b == 's' then "phase.status"
    else if n == 15 && a == 'p' && b == 's' then "phase.successor"
    else if n == 9 && a == 'n' && b == 'a' then "next_pass.objective"
    else if n == 9 && a == 'n' && b == 'i' then "next_pass.model_tier"
    else if n == 11 && a == 'n' && b == 'u' then "next_pass.context_budget"
    else if n == 10 && a == 'n' && b == 'o' then "next_pass.tools_required"
    else if n == 14 && a == 'l' && b == 'b' then "last_pass.objective"
    else if n == 11 && a == 'l' && b == 'u' then "last_pass.output_files"
    else if n == 9 && a == 'l' && b == 'a' then "last_pass.date"
    else if n == 7 && a == 'r' && b == 'g' then "routing"
    else ""
  }

  lemma FieldOfKey(f: string)
    requires UiKey(f).Some?
    ensures FieldOf(UiKey(f).value) == f
  {
    KeyFields(f);
    hide UiKey;
    hide FieldOf;
    PhaseKeys();
    NextKeys();
    LastKeys();
  }

  lemma KeyFields(f: string)
    requires UiKey(f).Some?
    ensures f in {"phase.name", "phase.objective", "phase.stop_condition", "phase.status", "phase.successor",
                  "next_pass.objective", "next_pass.model_tier", "next_pass.context_budget", "next_pass.tools_required",
                  "last_pass.objective", "last_pass.output_files", "last_pass.date", "routing"}
  {}

  predicate KeyLeadsBack(f: string) { UiKey(f).Some? && FieldOf(UiKey(f).value) == f }

  lemma PhaseKeys()
    ensures forall f :: f in {"phase.name", "phase.objective", "phase.stop_condition", "phase.status", "phase.successor"} ==>
              KeyLeadsBack(f)
  {}

  lemma NextKeys()
    ensures forall f ::
              f in {"next_pass.objective", "next_pass.model_tier", "next_pass.context_budget", "next_pass.tools_required"} ==>
                KeyLeadsBack(f)
  {}

  lemma LastKeys()
    ensures forall f :: f in {"last_pass.objective", "last_pass.output_files", "last_pass.date", "routing"} ==> KeyLeadsBack(f)
  {}

  /** Distinct fields are shown under distinct keys. */
  lemma UiKeyInjective(f: string, g: string)
    requires UiKey(f).Some? && UiKey(f) == UiKey(g)
    ensures f == g
  {
    hide UiKey;
    hide FieldOf;
    FieldOfKey(f);
    FieldOfKey(g);
  }

  /** Undoing rows shows, for every field with a key of its own, the old value of its first row. */
  lemma {:induction false} UndoShows(snap: Snapshot, rows: seq<Row>, f: string)
    requires UiKey(f).Some? && UiKey(f).value in snap
    ensures UiKey(f).value in Undo(snap, rows)
    ensures Undo(snap, rows)[UiKey(f).value] ==
            if First(rows, f).Some? then First(rows, f).value else snap[UiKey(f).value]
    decreases |rows|
  {
    if rows != [] {
      var last := rows[|rows| - 1];
      var rest := rows[..|rows| - 1];
      assert rows == rest + [last];
      FirstSnoc(rest, last, f);
      if UiKey(last.field) == UiKey(f) { UiKeyInjective(last.field, f); }
      hide UiKey;
      UndoShows(UndoRow(snap, last), rest, f);
    }
  }

  // ---------------------------------------------------------------- contiguous runs and truncation

  /** The rows of a run stand together: nothing of it before, nothing of it after. */
  ghost predicate Contiguous(a: seq<Row>, b: seq<Row>, c: seq<Row>, run: string) {
    Uninvolved(a, run) && (forall i :: 0 <= i < |b| ==> b[i].run == run) && Uninvolved(c, run)
  }

  ghost predicate Uninvolved(rows: seq<Row>, run: string) { forall i :: 0 <= i < |rows| ==> rows[i].run != run }

  function Counting(rows: seq<Row>, slug: string): seq<Row> {
    if rows == [] then [] else
    (if Counts(rows[0], slug) then [rows[0]] else []) + Counting(rows[1..], slug)
  }

  /** The counting rows of other runs. */
  function Foreign(rows: seq<Row>, slug: string, run: string): seq<Row> {
    if rows == [] then [] else
    (if rows[0].run != run && Counts(rows[0], slug) then [rows[0]] else []) + Foreign(rows[1..], slug, run)
  }

  lemma {:induction false} ForeignConcat(a: seq<Row>, b: seq<Row>, slug: string, run: string)
    ensures Foreign(a + b, slug, run) == Foreign(a, slug, run) + Foreign(b, slug, run)
  {
    hide Counts;
    if a == [] {
      assert a + b == b;
    } else {
      assert (a + b)[1..] == a[1..] + b;
      ForeignConcat(a[1..], b, slug, run);
    }
  }

  lemma {:induction false} ForeignOnly(rows: seq<Row>, slug: string, run: string)
    ensures (forall i :: 0 <= i < |rows| ==> rows[i].run != run) ==> Foreign(rows, slug, run) == Counting(rows, slug)
    ensures (forall i :: 0 <= i < |rows| ==> rows[i].run == run) ==> Foreign(rows, slug, run) == []
  {
    hide Counts;
    if rows != [] { ForeignOnly(rows[1..], slug, run); }
  }

  lemma {:induction false} FirstConcat(a: seq<Row>, b: seq<Row>, f: string)
    ensures First(a + b, f) == if First(a, f).Some? then First(a, f) else First(b, f)
  {
    if a == [] {
      assert a + b == b;
    } else {
      assert (a + b)[1..] == a[1..] + b;
      FirstConcat(a[1..], b, f);
    }
  }

  /** From a row of the run on, everything of other runs counts. */
  lemma {:induction false} NewerSeen(log: seq<Row>, i: nat, slug: string, run: string)
    requires i <= |log|
    ensures Newer(log, i, true, slug, run) == Foreign(log[i..], slug, run)
    decreases |log| - i
  {
    hide Counts;
    if i < |log| {
      NewerSeen(log, i + 1, slug, run);
      assert log[i..][1..] == log[i + 1..];
    }
  }

  /** Before that nothing does. */
  lemma {:induction false} NewerUnseen(log: seq<Row>, i: nat, n: nat, slug: string, run: string)
    requires i <= n <= |log| && forall k :: i <= k < n ==> log[k].run != run
    ensures Newer(log, i, false, slug, run) == Newer(log, n, false, slug, run)
    decreases n - i
  {
    hide Counts;
    if i < n { NewerUnseen(log, i + 1, n, slug, run); }
  }

  /** What is undone when the rows of the run start with b and none stand in c. */
  lemma {:induction false} ReconstructedFrom(current: Snapshot, a: seq<Row>, b: seq<Row>, c: seq<Row>, slug: string, run: string)
    requires Uninvolved(a, run) && Uninvolved(c, run) && b != [] && b[0].run == run
    ensures Reconstructed(Some(current), a + b + c, slug, run) ==
            (Some(Undo(current, Foreign(b, slug, run) + Counting(c, slug))), true)
  {
    hide Counts;
    hide Undo;
    var log := a + b + c;
    assert log[|a|] == b[0] == (b + c)[0] && (b + c)[1..] == log[|a| + 1..];
    NewerUnseen(log, 0, |a|, slug, run);
    NewerSeen(log, |a| + 1, slug, run);
    ForeignConcat(b, c, slug, run);
    ForeignOnly(c, slug, run);
    assert Newer(log, 0, false, slug, run) == Newer(log, |a|, false, slug, run);
    assert Newer(log, |a|, false, slug, run) == Newer(log, |a| + 1, true, slug, run);
    assert Foreign(b + c, slug, run) == [] + Foreign((b + c)[1..], slug, run);
    assert Newer(log, 0, false, slug, run) == Foreign(b + c, slug, run);
    assert Mentions(log, run);
  }

  lemma {:induction false} ReconstructedContiguous(current: Snapshot, a: seq<Row>, b: seq<Row>, c: seq<Row>, slug: string, run: string)
    requires Contiguous(a, b, c, run)
    ensures Reconstructed(Some(current), a + b + c, slug, run) ==
            if b == [] then (Some(current), false) else (Some(Undo(current, Counting(c, slug))), true)
  {
    hide Counts;
    hide Undo;
    var log := a + b + c;
    if b == [] {
      assert forall k :: 0 <= k < |log| ==> log[k].run != run;
      NewerUnseen(log, 0, |log|, slug, run);
    } else {
      ReconstructedFrom(current, a, b, c, slug, run);
      ForeignOnly(b, slug, run);
      assert [] + Counting(c, slug) == Counting(c, slug);
    }
  }

  /** Reading only the newest rows is safe: either the same snapshot comes out, or it is not called exact. */
  lemma {:induction false} TruncationSafe(current: Snapshot, a: seq<Row>, b: seq<Row>, c: seq<Row>,
                                          slug: string, run: string, count: nat)
    requires Contiguous(a, b, c, run) && count > 0
    ensures var full := Reconstructed(Some(current), a + b + c, slug, run);
            var cut := Reconstructed(Some(current), Newest(a + b + c, count), slug, run);
            if b != [] && |c| < count then cut == full && cut.1 else cut == (Some(current), false)
  {
    hide Counts;
    hide Undo;
    hide Reconstructed;
    var log := a + b + c;
    var drop := |log| - |Newest(log, count)|;
    var a1 := if drop <= |a| then a[drop..] else [];
    var b1 := if drop <= |a| then b else if drop <= |a| + |b| then b[drop - |a|..] else [];
    var c1 := if drop <= |a| + |b| then c else c[drop - |a| - |b|..];
    assert Newest(log, count) == log[drop..] == a1 + b1 + c1;
    ReconstructedContiguous(current, a, b, c, slug, run);
    ReconstructedContiguous(current, a1, b1, c1, slug, run);
  }

  // ---------------------------------------------------------------- interleaved runs

  /** Runs may interleave: of a log whose first row of R starts b and whose last stands in b, the snapshot is
      always called exact. It shows a field as it stood after R's last row if and only if no other run changed
      the field in b, or the first that did found it with that very value. */
  lemma {:induction false} InterleavedExact(current: Snapshot, a: seq<Row>, b: seq<Row>, c: seq<Row>, slug: string, run: string,
                                            f: string)
    requires Uninvolved(a, run) && Uninvolved(c, run) && b != [] && b[0].run == run
    requires UiKey(f).Some? && UiKey(f).value in current
    ensures var (snap, exact) := Reconstructed(Some(current), a + b + c, slug, run);
            var then_ := Undo(current, Counting(c, slug));
            var between := First(Foreign(b, slug, run), f);
            && exact && snap.Some? && UiKey(f).value in snap.value && UiKey(f).value in then_
            && (snap.value[UiKey(f).value] == then_[UiKey(f).value] <==>
                between.None? || between.value == then_[UiKey(f).value])
  {
    hide Counting;
    hide Foreign;
    hide First;
    hide Undo;
    hide UiKey;
    hide Reconstructed;
    ReconstructedFrom(current, a, b, c, slug, run);
    FirstConcat(Foreign(b, slug, run), Counting(c, slug), f);
    UndoShows(current, Foreign(b, slug, run) + Counting(c, slug), f);
    UndoShows(current, Counting(c, slug), f);
  }

  function StatusRow(run: string, old_: string, new_: string): Row {
    Row("PROJECTS/p/LONGRUNNER.md", "phase.status", old_, new_, "", "", "", run)
  }

  /** Contiguity is needed: when another run writes between two writes of R, the snapshot returned for R
      is called exact and shows R's first value, not the one R ended with. */
  lemma InterleavedIsWrong()
    ensures var log := [StatusRow("R", "w", "x"), StatusRow("S", "x", "y"), StatusRow("R", "y", "z")];
            var current := map["phase_status" := "z"];
            Reconstructed(Some(current), log, "p", "R") == (Some(map["phase_status" := "x"]), true)
  {
    var log := [StatusRow("R", "w", "x"), StatusRow("S", "x", "y"), StatusRow("R", "y", "z")];
    assert LongrunnerPath("p") == "PROJECTS/p/LONGRUNNER.md";
    assert At(log[1].file, 0, LongrunnerPath("p"));
    assert "R" != "S";
    assert Counts(log[1], "p");
    assert Newer(log, 3, true, "p", "R") == [];
    assert Newer(log, 2, true, "p", "R") == [];
    assert Newer(log, 1, true, "p", "R") == [log[1]];
    assert Newer(log, 0, false, "p", "R") == [log[1]];
    assert Undo(map["phase_status" := "z"], [log[1]]) == map["phase_status" := "x"] by {
      assert UiKey("phase.status") == Some("phase_status");
      assert [log[1]][..0] == [];
    }
  }
}
