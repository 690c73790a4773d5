/** dispatch: which project the next worker pass goes to (commands/dispatch.py). */
module Dispatch {
  import opened Text
  import opened Wrappers
  import opened Longrunner
  import opened Store
  import opened Tables
  import Executor

  // ---------------------------------------------------------------- rows

  function Cell(row: Record, key: string, missing: string): string { Strip(if key in row then row[key] else missing) }

  function Status(row: Record): string { Uppered(Cell(row, "status", "")) }
  function Escalation(row: Record): string { Lowered(Cell(row, "escalation_pending", "")) }

  /** Digits in groups joined by single underscores, read as a number. */
  function Grouped(s: string, acc: nat): Option<nat>
    decreases |s|
  {
    if s == "" then None
    else if !('0' <= s[0] <= '9') then None
    else
      var n := 10 * acc + (s[0] as int - '0' as int);
      if |s| == 1 then Some(n) else Grouped(if s[1] == '_' then s[2..] else s[1..], n)
  }

  function Signed(n: int, negative: bool): int { if negative then -n else n }

  /** A stripped text read as an integer, if it is one. */
  function IntOf(s: string): Option<int> {
    var negative := s != "" && s[0] == '-';
    var n := Grouped(if s != "" && (s[0] == '-' || s[0] == '+') then s[1..] else s, 0);
    if n.None? then None else Some(Signed(n.value, negative))
  }

  function Priority(row: Record): int {
    match IntOf(Cell(row, "priority", "999")) case None => 999 case Some(n) => n
  }

  /** An ACTIVE row without an open escalation. */
  predicate Eligible(row: Record) {
    var esc := Escalation(row);
    Status(row) == "ACTIVE" && (esc == "none" || esc == "" || "surfaced-" <= esc)
  }

  /** What the second loop looks at besides the table: whether phase-auto-advance is pre-approved, and the files. */
  datatype Context = Context(autoAdvance: bool, files: Files)

  function Successor(slug: string, files: Files): string {
    match ParseOf(files, slug)
    case None => ""
    case Some(f) =>
      var v := if "phase.successor" in f then f["phase.successor"] else "";
      if v == "~" || v == "null" || v == "None" || v == "none" then "" else v
  }

  /** A held row whose transition is approved, or completed under the pre-approval, and that has a successor. */
  predicate Advanceable(row: Record, c: Context) {
    var esc := Escalation(row);
    && Status(row) == "TRANSITION-HOLD"
    && (esc == "transition-approved" || ("phase-complete-" <= esc && c.autoAdvance))
    && Successor(SlugOf(row), c.files) != ""
  }

  // ---------------------------------------------------------------- candidates

  /** A row that qualifies, with its place in the table. */
  datatype Candidate = Candidate(priority: int, slug: string, at: nat)

  predicate Qualifies(row: Record, c: Context, advance: bool) { if advance then Advanceable(row, c) else Eligible(row) }

  function Candidates(rows: seq<Record>, c: Context, advance: bool, n: nat): seq<Candidate>
    requires n <= |rows|
  {
    if n == 0 then [] else
    var rest := Candidates(rows, c, advance, n - 1);
    if Qualifies(rows[n - 1], c, advance) then rest + [Candidate(Priority(rows[n - 1]), SlugOf(rows[n - 1]), n - 1)] else rest
  }

  /** Into a list sorted by priority, behind everything of the same priority. */
  function Insert(s: seq<Candidate>, x: Candidate): seq<Candidate> {
    if s == [] then [x] else if x.priority < s[0].priority then [x] + s else [s[0]] + Insert(s[1..], x)
  }

  /** The candidates by priority; sorting keeps the order of equals. */
  function Sorted(s: seq<Candidate>): seq<Candidate> {
    if s == [] then [] else Insert(Sorted(s[..|s| - 1]), s[|s| - 1])
  }

  datatype Answer = Idle | Dispatch(candidates: seq<Candidate>) | Advance(candidates: seq<Candidate>)

  /** cmd_dispatch on the rows of the table; the first candidate listed is the one dispatched. */
  function Decide(rows: seq<Record>, c: Context): Answer {
    var active := Candidates(rows, c, false, |rows|);
    if active != [] then Dispatch(Sorted(active)) else
    var held := Candidates(rows, c, true, |rows|);
    if held != [] then Advance(Sorted(held)) else Idle
  }

  method SortByPriority(s: seq<Candidate>) returns (r: seq<Candidate>)
    ensures r == Sorted(s)
  {
    r := [];
    for i := 0 to |s|
      invariant r == Sorted(s[..i])
    {
      assert s[..i + 1][..i] == s[..i];
      r := Insert(r, s[i]);
    }
    assert s[..|s|] == s;
  }

  method CmdDispatch(content: Option<string>, c: Context) returns (answer: Answer)
    ensures answer == Decide(if content.Some? then RowsOf(SplitLines(content.value), |SplitLines(content.value)|) else [], c)
  {
    hide Eligible;
    hide Advanceable;
    hide Priority;
    hide RowsOf;
    var rows: seq<Record> := [];
    if content.Some? {
      rows := ParseDispatchTable(content.value);
    }
    if rows == [] {
      return Idle;
    }
    var candidates: seq<Candidate> := [];
    for n := 0 to |rows|
      invariant candidates == Candidates(rows, c, false, n)
    {
      var row := rows[n];
      if !Eligible(row) {
        continue;
      }
      candidates := candidates + [Candidate(Priority(row), SlugOf(row), n)];
    }
    if candidates != [] {
      candidates := SortByPriority(candidates);
      return Dispatch(candidates);
    }
    var held: seq<Candidate> := [];
    for n := 0 to |rows|
      invariant held == Candidates(rows, c, true, n)
    {
      var row := rows[n];
      if !Advanceable(row, c) {
        continue;
      }
      held := held + [Candidate(Priority(row), SlugOf(row), n)];
    }
    if held != [] {
      held := SortByPriority(held);
      return Advance(held);
    }
    return Idle;
  }

  // ---------------------------------------------------------------- the choice

  /** Row i qualifies, no row that qualifies has less priority, and no earlier one the same. */
  ghost predicate Best(rows: seq<Record>, c: Context, advance: bool, i: nat) {
    && i < |rows| && Qualifies(rows[i], c, advance)
    && forall j :: 0 <= j < |rows| && Qualifies(rows[j], c, advance) ==>
         Priority(rows[i]) < Priority(rows[j]) || (Priority(rows[i]) == Priority(rows[j]) && i <= j)
  }

  ghost predicate Any(rows: seq<Record>, c: Context, advance: bool) {
    exists i :: 0 <= i < |rows| && Qualifies(rows[i], c, advance)
  }

  predicate IsCandidate(rows: seq<Record>, c: Context, advance: bool, n: nat, x: Candidate) {
    x.at < n <= |rows| && Qualifies(rows[x.at], c, advance) && x == Candidate(Priority(rows[x.at]), SlugOf(rows[x.at]), x.at)
  }

  ghost predicate InOrder(s: seq<Candidate>) { forall k, l :: 0 <= k < l < |s| ==> s[k].at < s[l].at }

  /** Candidates stand in table order and are the rows that qualify. */
  lemma {:induction false} CandidatesAre(rows: seq<Record>, c: Context, advance: bool, n: nat)
    requires n <= |rows|
    ensures var s := Candidates(rows, c, advance, n);
            && (forall k :: 0 <= k < |s| ==> IsCandidate(rows, c, advance, n, s[k]))
            && InOrder(s)
            && (forall i :: 0 <= i < n && Qualifies(rows[i], c, advance) ==>
                  Candidate(Priority(rows[i]), SlugOf(rows[i]), i) in s)
  {
    hide Qualifies;
    hide Priority;
    hide SlugOf;
    if n > 0 { CandidatesAre(rows, c, advance, n - 1); }
  }

  /** The front of a list: nothing has less priority, nothing earlier the same. */
  ghost predicate Front(s: seq<Candidate>, x: Candidate) {
    && x in s && forall y :: y in s ==> x.priority < y.priority || (x.priority == y.priority && x.at <= y.at)
  }

  lemma {:induction false} InsertFirst(s: seq<Candidate>, x: Candidate)
    ensures multiset(Insert(s, x)) == multiset(s) + multiset{x} && |Insert(s, x)| == |s| + 1
    ensures Insert(s, x)[0] == if s == [] || x.priority < s[0].priority then x else s[0]
  {
    InsertStep(s, x);
    hide Insert;
    if s != [] && s[0].priority <= x.priority {
      var rest := s[1..];
      InsertFirst(rest, x);
      Pushed(s[0], rest);
      Pushed(s[0], Insert(rest, x));
    } else {
      Pushed(x, s);
    }
  }

  lemma InsertStep(s: seq<Candidate>, x: Candidate)
    ensures if s != [] && s[0].priority <= x.priority then s == [s[0]] + s[1..] && Insert(s, x) == [s[0]] + Insert(s[1..], x)
            else Insert(s, x) == [x] + s
  {}

  lemma Pushed(a: Candidate, s: seq<Candidate>)
    ensures multiset([a] + s) == multiset{a} + multiset(s)
  {}

  lemma {:induction false} SortedPermutes(s: seq<Candidate>)
    ensures multiset(Sorted(s)) == multiset(s) && |Sorted(s)| == |s|
  {
    if s != [] {
      var rest, x := s[..|s| - 1], s[|s| - 1];
      assert s == rest + [x];
      SortedPermutes(rest);
      InsertFirst(Sorted(rest), x);
    }
  }

  /** Sorting puts the earliest candidate of least priority first. */
  lemma {:induction false} SortedFront(s: seq<Candidate>)
    requires InOrder(s) && s != []
    ensures Sorted(s) != [] && Front(s, Sorted(s)[0])
  {
    hide Insert;
    hide Front;
    var rest, x := s[..|s| - 1], s[|s| - 1];
    assert s == rest + [x];
    InsertFirst(Sorted(rest), x);
    if rest == [] {
      OneFront(x);
    } else {
      assert InOrder(rest) by { assert forall k :: 0 <= k < |rest| ==> rest[k] == s[k]; }
      SortedFront(rest);
      FrontGrows(rest, x, Sorted(rest)[0]);
    }
  }

  lemma OneFront(x: Candidate)
    ensures Front([x], x)
  {}

  lemma FrontGrows(rest: seq<Candidate>, x: Candidate, f: Candidate)
    requires InOrder(rest + [x]) && Front(rest, f)
    ensures Front(rest + [x], if x.priority < f.priority then x else f)
  {
    var s := rest + [x];
    forall y | y in rest ensures y.at < x.at {
      var k :| 0 <= k < |rest| && rest[k] == y;
      assert s[k] == y && s[|rest|] == x;
    }
  }

  /** dispatch returns the earliest row of least priority among the eligible ACTIVE rows; it advances only
      if there is none, and then the earliest of least priority among those; it is idle exactly when
      neither kind exists. */
  lemma {:induction false} DispatchPicks(rows: seq<Record>, c: Context)
    ensures var a := Decide(rows, c);
            && (a.Dispatch? <==> Any(rows, c, false))
            && (a.Advance? <==> !Any(rows, c, false) && Any(rows, c, true))
            && (a.Idle? <==> !Any(rows, c, false) && !Any(rows, c, true))
            && (!a.Idle? ==> a.candidates != [] && Best(rows, c, a.Advance?, a.candidates[0].at)
                             && a.candidates[0].slug == SlugOf(rows[a.candidates[0].at]))
  {
    hide Qualifies;
    hide Priority;
    hide SlugOf;
    Chosen(rows, c, false);
    Chosen(rows, c, true);
    hide Sorted;
    hide Candidates;
  }

  lemma {:induction false} Chosen(rows: seq<Record>, c: Context, advance: bool)
    ensures var s := Candidates(rows, c, advance, |rows|);
            && (s != [] <==> Any(rows, c, advance))
            && (s != [] ==> Sorted(s) != [] && Best(rows, c, advance, Sorted(s)[0].at)
                            && Sorted(s)[0].slug == SlugOf(rows[Sorted(s)[0].at]))
  {
    hide Qualifies;
    hide Priority;
    hide SlugOf;
    var s := Candidates(rows, c, advance, |rows|);
    hide Candidates;
    hide Sorted;
    CandidatesAre(rows, c, advance, |rows|);
    SortedPermutes(s);
    if s != [] {
      SortedFront(s);
      var x := Sorted(s)[0];
      assert Front(s, x);
      assert IsCandidate(rows, c, advance, |rows|, s[0]);
    }
  }

  /** Dispatch over the edited table: after mutate_dispatch_field has put a cell into the dispatched row that
      makes it ineligible, the best of the other eligible rows is dispatched, if there is one. */
  lemma {:induction false} NextInLine(rows: seq<Record>, c: Context, k: nat, key: string, v: string, i: nat)
    requires k < |rows| && !Eligible(rows[k][key := v]) && i != k
    requires i < |rows| && Eligible(rows[i])
    requires forall j :: 0 <= j < |rows| && j != k && Eligible(rows[j]) ==>
               Priority(rows[i]) < Priority(rows[j]) || (Priority(rows[i]) == Priority(rows[j]) && i <= j)
    ensures var a := Decide(rows[k := rows[k][key := v]], c);
            a.Dispatch? && a.candidates != [] && a.candidates[0].at == i
  {
    hide Eligible;
    hide Priority;
    hide SlugOf;
    hide Decide;
    var after := rows[k := rows[k][key := v]];
    DispatchPicks(after, c);
    assert Qualifies(after[i], c, false);
  }
}
