/** Run ids: next-run-id reads the session registry's text, and the integrity check its first column
    (commands/lock.py, protocol/integrity.py). */
module RunIds {
  import opened Text
  import opened Wrappers
  import LockFile

  predicate IsDigit(c: char) { '0' <= c <= '9' }

  predicate AllDigits(s: string) { forall k :: 0 <= k < |s| ==> IsDigit(s[k]) }

  /** YYYYMMDD */
  predicate Day(s: string) { |s| == 8 && AllDigits(s) }

  function Head(day: string): string { "RUN-" + day + "-" }

  function DigitOf(c: char): nat
    requires IsDigit(c)
  {
    c as int - '0' as int
  }

  /** n with at least three digits */
  function Padded(n: nat): string {
    if n < 1000 then [LockFile.Digit(n / 100), LockFile.Digit(n / 10 % 10), LockFile.Digit(n % 10)] else LockFile.Decimal(n)
  }

  function IdText(day: string, n: nat): string { Head(day) + Padded(n) }

  /** An id of the day stands at position i: three digits behind RUN-day- are read, whatever follows. */
  predicate IdAt(text: string, day: string, i: nat) {
    At(text, i, Head(day)) && i + |Head(day)| + 3 <= |text| && AllDigits(text[i + |Head(day)|..i + |Head(day)| + 3])
  }

  function NumberAt(text: string, day: string, i: nat): nat
    requires IdAt(text, day, i)
  {
    var j := i + |Head(day)|;
    var d := text[j..j + 3];
    100 * DigitOf(d[0]) + 10 * DigitOf(d[1]) + DigitOf(d[2])
  }

  function Max(a: nat, b: nat): nat { if a > b then a else b }

  /** The largest number among the matches from position i on, each search going on behind the last match. */
  function Largest(text: string, day: string, i: nat): nat
    requires i <= |text|
    decreases |text| - i
  {
    if i == |text| then 0
    else if IdAt(text, day, i) then Max(NumberAt(text, day, i), Largest(text, day, i + |Head(day)| + 3))
    else Largest(text, day, i + 1)
  }

  /** cmd_next_run_id */
  function NextRunId(registry: Option<string>, day: string): string {
    IdText(day, if registry.None? then 1 else Largest(registry.value, day, 0) + 1)
  }

  method CmdNextRunId(registry: Option<string>, day: string) returns (id: string)
    ensures id == NextRunId(registry, day)
  {
    if registry.None? {
      return IdText(day, 1);
    }
    var content := registry.value;
    var maxN := 0;
    var i := 0;
    hide IdAt;
    while i < |content|
      invariant i <= |content|
      invariant Max(maxN, Largest(content, day, i)) == Largest(content, day, 0)
    {
      if IdAt(content, day, i) {
        WithinText(content, day, i);
        var n := NumberAt(content, day, i);
        if n > maxN {
          maxN := n;
        }
        i := i + |Head(day)| + 3;
      } else {
        i := i + 1;
      }
    }
    return IdText(day, maxN + 1);
  }

  lemma WithinText(text: string, day: string, i: nat)
    requires IdAt(text, day, i)
    ensures i + |Head(day)| + 3 <= |text|
  {}

  // ---------------------------------------------------------------- numbers

  /** Two ids of a day cannot overlap: an R stands only at the start of one. */
  lemma NoOverlap(text: string, day: string, i: nat, k: nat)
    requires Day(day) && IdAt(text, day, i) && i < k < i + |Head(day)| + 3
    ensures !IdAt(text, day, k)
  {
    var h := Head(day);
    assert h[0] == 'R' && h[1] == 'U' && h[2] == 'N' && h[3] == '-' && h[12] == '-' && |h| == 13;
    assert forall j :: 4 <= j < 12 ==> h[j] == day[j - 4];
    assert IsDigit(day[0]);
    var j := k - i;
    if j < 13 {
      assert text[k] == text[i..i + 13][j] == h[j];
      assert 4 <= j < 12 ==> IsDigit(day[j - 4]);
    } else {
      assert text[k] == text[i + 13..i + 16][j - 13];
    }
    FirstChar(text, h, k);
  }

  lemma FirstChar(text: string, p: string, k: nat)
    requires p != ""
    ensures At(text, k, p) ==> text[k] == p[0]
  {
    if k + |p| <= |text| { assert text[k..k + |p|][0] == text[k]; }
  }

  /** The number taken is the largest of all ids of the day in the text, or zero if there is none. */
  lemma {:induction false} LargestIs(text: string, day: string, i: nat)
    requires Day(day) && i <= |text|
    ensures forall k :: i <= k && IdAt(text, day, k) ==> NumberAt(text, day, k) <= Largest(text, day, i)
    ensures Largest(text, day, i) == 0 || exists k :: i <= k && IdAt(text, day, k) && NumberAt(text, day, k) == Largest(text, day, i)
    decreases |text| - i
  {
    hide NumberAt;
    if i == |text| {
      forall k | i <= k ensures !IdAt(text, day, k) { TooFar(text, day, k); }
    } else if IdAt(text, day, i) {
      WithinText(text, day, i);
      forall k | i < k < i + |Head(day)| + 3 ensures !IdAt(text, day, k) { NoOverlap(text, day, i, k); }
      hide IdAt;
      LargestIs(text, day, i + |Head(day)| + 3);
    } else {
      hide IdAt;
      LargestIs(text, day, i + 1);
    }
  }

  lemma TooFar(text: string, day: string, k: nat)
    requires k >= |text|
    ensures !IdAt(text, day, k)
  {}

  lemma PaddedDigits(n: nat)
    requires n < 1000
    ensures |Padded(n)| == 3 && AllDigits(Padded(n))
    ensures 100 * DigitOf(Padded(n)[0]) + 10 * DigitOf(Padded(n)[1]) + DigitOf(Padded(n)[2]) == n
  {}

  /** Where an id of up to three digits stands in a text, its number is read back. */
  lemma {:induction false} IdReads(text: string, day: string, n: nat, i: nat)
    requires Day(day) && n < 1000 && At(text, i, IdText(day, n))
    ensures IdAt(text, day, i) && NumberAt(text, day, i) == n
  {
    var h := Head(day);
    PaddedDigits(n);
    var id := IdText(day, n);
    assert id[..|h|] == h && id[|h|..] == Padded(n);
    assert text[i..i + |h|] == text[i..i + |id|][..|h|];
    assert text[i + |h|..i + |h| + 3] == text[i..i + |id|][|h|..];
  }

  /** A new id is larger than every id of the day anywhere in the registry, as long as the largest is at most 998. */
  lemma {:induction false} NextIsFresh(text: string, day: string, i: nat)
    requires Day(day) && Largest(text, day, 0) <= 998 && IdAt(text, day, i)
    ensures exists n :: NumberAt(text, day, i) < n <= 999 && NextRunId(Some(text), day) == IdText(day, n)
    ensures !At(text, i, NextRunId(Some(text), day))
  {
    hide IdAt;
    hide NumberAt;
    hide IdText;
    LargestIs(text, day, 0);
    var n := Largest(text, day, 0) + 1;
    if At(text, i, IdText(day, n)) { IdReads(text, day, n, i); }
  }

  /** The number read is never larger than 999. */
  lemma {:induction false} LargestBound(text: string, day: string)
    requires Day(day)
    ensures Largest(text, day, 0) <= 999
  {
    hide IdAt;
    hide NumberAt;
    LargestIs(text, day, 0);
    forall k | IdAt(text, day, k) ensures NumberAt(text, day, k) <= 999 { ThreeDigits(text, day, k); }
  }

  predicate Occurs(text: string, id: string) { exists i :: 0 <= i <= |text| && At(text, i, id) }

  /** The id handed out stands nowhere in the registry if and only if the largest number is at most 998, or
      1000 has not been handed out yet: its first three digits are read as 100, so it is handed out again. */
  lemma {:induction false} FreshExactly(text: string, day: string)
    requires Day(day)
    ensures !Occurs(text, NextRunId(Some(text), day)) <==> Largest(text, day, 0) <= 998 || !Occurs(text, IdText(day, 1000))
  {
    hide IdAt;
    hide IdText;
    hide At;
    LargestBound(text, day);
    if Largest(text, day, 0) <= 998 {
      forall i | 0 <= i <= |text| ensures !At(text, i, NextRunId(Some(text), day)) {
        if At(text, i, NextRunId(Some(text), day)) {
          IdReads(text, day, Largest(text, day, 0) + 1, i);
          NextIsFresh(text, day, i);
        }
      }
    }
  }

  lemma IdStays(text: string, more: string, day: string, k: nat)
    requires IdAt(text, day, k)
    ensures IdAt(text + more, day, k) && NumberAt(text + more, day, k) == NumberAt(text, day, k)
  {
    hide Head;
    var n := |Head(day)|;
    SlicePrefix(text, more, k, k + n);
    SlicePrefix(text, more, k + n, k + n + 3);
  }

  /** Once 999 has been reached the next id is 1000, and it stays so whatever is registered after it. */
  lemma {:induction false} ThousandForever(text: string, more: string, day: string)
    requires Day(day) && Largest(text, day, 0) == 999
    ensures Largest(text + more, day, 0) == 999 && NextRunId(Some(text + more), day) == IdText(day, 1000)
  {
    hide IdText;
    hide IdAt;
    hide NumberAt;
    LargestIs(text, day, 0);
    var k :| 0 <= k && IdAt(text, day, k) && NumberAt(text, day, k) == 999;
    IdStays(text, more, day, k);
    LargestIs(text + more, day, 0);
    LargestBound(text + more, day);
  }

  lemma ThreeDigits(text: string, day: string, k: nat)
    requires IdAt(text, day, k)
    ensures NumberAt(text, day, k) <= 999
  {}

  lemma Beginning(text: string, j: nat)
    requires j <= |text|
    ensures At(text, 0, text[..j])
  {
    assert text[0..j] == text[..j];
  }

  // ---------------------------------------------------------------- the first column

  /** An id of three digits, of any day. */
  predicate IsId(s: string) {
    |s| == 16 && s[..4] == "RUN-" && Day(s[4..12]) && s[12] == '-' && AllDigits(s[13..])
  }

  /** The id in the first column of a line: behind at most one bar and before another. */
  function ColumnId(line: string): (r: Option<string>)
    ensures r.Some? ==> IsId(r.value)
  {
    var a := Skip(line, 0, SPACES);
    var b := if a < |line| && line[a] == '|' then a + 1 else a;
    var c := Skip(line, b, SPACES);
    if c + 16 > |line| || !IsId(line[c..c + 16]) then None else
    var d := Skip(line, c + 16, SPACES);
    if d < |line| && line[d] == '|' then Some(line[c..c + 16]) else None
  }

  /** What the integrity check collects from the lines. */
  function Column(lines: seq<string>): seq<string> {
    if lines == [] then [] else
    Column(lines[..|lines| - 1]) + match ColumnId(lines[|lines| - 1]) case None => [] case Some(id) => [id]
  }

  function ColumnOf(text: string): seq<string> { Column(Split(text, '\n')) }

  function Row(id: string, rest: string): string { "| " + id + " | " + rest }

  lemma {:induction false} RowColumn(id: string, rest: string)
    requires IsId(id)
    ensures ColumnId(Row(id, rest)) == Some(id)
  {
    var line := Row(id, rest);
    PipeVisible();
    hide IsSpace;
    assert line == "| " + (id + (" | " + rest));
    assert line[0] == '|' && line[1] == ' ' && line[2] == id[0] && id[0] == id[..4][0];
    assert line[2..18] == id && line[18] == ' ' && line[19] == '|';
    SkipIs(line, 0, SPACES, 0);
    SkipIs(line, 1, SPACES, 2);
    SkipIs(line, 18, SPACES, 19);
  }

  lemma PipeVisible()
    ensures '|' !in SPACES && ' ' in SPACES && 'R' !in SPACES
  {}

  lemma IdIsId(day: string, n: nat)
    requires Day(day) && n < 1000
    ensures IsId(IdText(day, n)) && '\n' !in IdText(day, n)
  {
    PaddedDigits(n);
    var id := IdText(day, n);
    assert id == "RUN-" + (day + ("-" + Padded(n)));
    assert id[..4] == "RUN-" && id[4..12] == day && id[12] == '-' && id[13..] == Padded(n);
    assert forall k :: 0 <= k < |id| ==>
      id[k] == if k < 4 then "RUN-"[k] else if k < 12 then day[k - 4] else if k == 12 then '-' else Padded(n)[k - 13];
  }

  lemma {:induction false} ColumnConcat(a: seq<string>, b: seq<string>)
    ensures Column(a + b) == Column(a) + Column(b)
    decreases |b|
  {
    hide ColumnId;
    if b == [] {
      assert a + b == a;
    } else {
      assert (a + b)[..|a + b| - 1] == a + b[..|b| - 1];
      ColumnConcat(a, b[..|b| - 1]);
    }
  }

  lemma NoColumn()
    ensures ColumnId("") == None && Column([""]) == [] && Column([]) == []
  {
    assert [""][..0] == [];
  }

  lemma {:induction false} OneColumn(line: string)
    ensures Column([line]) == match ColumnId(line) case None => [] case Some(id) => [id]
  {
    hide ColumnId;
    assert [line][..0] == [];
  }

  lemma {:induction false} SplitGrows(text: string, line: string)
    requires WholeLines(text) && '\n' !in line
    ensures var lines := Split(text, '\n');
            lines[|lines| - 1] == "" && Split(text + line + "\n", '\n') == lines[..|lines| - 1] + [line] + [""]
  {
    assert Split("", '\n') == [""];
    SplitConcat(line, "", '\n');
    assert line + ['\n'] + "" == line + "\n";
    hide Split;
    if text == "" {
      assert text + line + "\n" == line + "\n";
    } else {
      var a := text[..|text| - 1];
      assert text == a + ['\n'] + "";
      assert text + line + "\n" == a + ['\n'] + (line + "\n");
      SplitConcat(a, "", '\n');
      SplitConcat(a, line + "\n", '\n');
    }
  }

  /** Appending a line adds its id, if it has one, at the end of the column. */
  lemma {:induction false} ColumnGrows(text: string, line: string)
    requires WholeLines(text) && '\n' !in line
    ensures WholeLines(text + line + "\n")
    ensures ColumnOf(text + line + "\n") == ColumnOf(text) + match ColumnId(line) case None => [] case Some(id) => [id]
  {
    hide ColumnId;
    hide Column;
    hide Split;
    hide WholeLines;
    OneColumn(line);
    SplitGrows(text, line);
    GrownWhole(text, line);
    var lines := Split(text, '\n');
    var front := lines[..|lines| - 1];
    assert lines == front + [""];
    ColumnAdds(front, line);
  }

  lemma GrownWhole(text: string, line: string)
    ensures WholeLines(text + line + "\n")
  {}

  lemma ColumnAdds(front: seq<string>, line: string)
    ensures Column(front + [line] + [""]) == Column(front + [""]) + Column([line])
  {
    hide ColumnId;
    hide Column;
    EmptyLast(front);
    EmptyLast(front + [line]);
    ColumnConcat(front, [line]);
  }

  lemma EmptyLast(front: seq<string>)
    ensures Column(front + [""]) == Column(front)
  {
    NoColumn();
    hide ColumnId;
    hide Column;
    ColumnConcat(front, [""]);
  }

  lemma Shifted(text: string, n: nat, r: nat, p: string)
    requires n <= |text| && At(text[n..], r, p)
    ensures At(text, n + r, p)
  {
    var rest := text[n..];
    assert text[n + r..n + r + |p|] == rest[r..r + |p|];
  }

  /** A line of a text stands somewhere in it. */
  lemma {:induction false} LineStands(text: string, k: nat) returns (i: nat)
    requires k < |Split(text, '\n')|
    ensures At(text, i, Split(text, '\n')[k])
    decreases |text|
  {
    hide Split;
    hide At;
    var j := SplitStep(text, '\n');
    if j == |text| || k == 0 {
      i := 0;
      Beginning(text, j);
      assert text[..j] == Split(text, '\n')[k];
    } else {
      var r := LineStands(text[j + 1..], k - 1);
      Shifted(text, j + 1, r, Split(text, '\n')[k]);
      i := j + 1 + r;
    }
  }

  lemma {:induction false} ColumnLine(lines: seq<string>, id: string) returns (k: nat)
    requires id in Column(lines)
    ensures k < |lines| && ColumnId(lines[k]) == Some(id)
  {
    hide ColumnId;
    var n := |lines| - 1;
    if ColumnId(lines[n]) == Some(id) { k := n; } else { k := ColumnLine(lines[..n], id); }
  }

  lemma ColumnPlace(line: string, id: string) returns (c: nat)
    requires ColumnId(line) == Some(id)
    ensures At(line, c, id)
  {
    hide IsSpace;
    hide IsId;
    var a := Skip(line, 0, SPACES);
    var b := if a < |line| && line[a] == '|' then a + 1 else a;
    c := Skip(line, b, SPACES);
  }

  lemma PartStands(text: string, o: nat, line: string, c: nat, id: string)
    requires At(text, o, line) && At(line, c, id)
    ensures At(text, o + c, id)
  {
    var p := text[o + c..o + c + |id|];
    assert forall k :: 0 <= k < |id| ==> p[k] == text[o..o + |line|][c + k] == line[c..c + |id|][k];
    assert p == id;
  }

  /** An id of the column stands somewhere in the text. */
  lemma {:induction false} ColumnStands(text: string, id: string) returns (i: nat)
    requires id in ColumnOf(text)
    ensures At(text, i, id)
  {
    hide ColumnId;
    hide At;
    var k := ColumnLine(Split(text, '\n'), id);
    var line := Split(text, '\n')[k];
    var o := LineStands(text, k);
    var c := ColumnPlace(line, id);
    PartStands(text, o, line, c, id);
    i := o + c;
  }

  // ---------------------------------------------------------------- histories

  /** A session takes an id on a day and either registers a row for it or crashes before. */
  datatype Session = Session(day: string, registers: bool, rest: string)

  /** The registry after the first n sessions, each allocating and registering before the next one starts. */
  function Registry(text: string, sessions: seq<Session>, n: nat): string
    requires n <= |sessions|
  {
    if n == 0 then text else
    var before := Registry(text, sessions, n - 1);
    var s := sessions[n - 1];
    if s.registers then before + Row(NextRunId(Some(before), s.day), s.rest) + "\n" else before
  }

  function IdTaken(text: string, sessions: seq<Session>, k: nat): string
    requires k < |sessions|
  {
    NextRunId(Some(Registry(text, sessions, k)), sessions[k].day)
  }

  function Registered(text: string, sessions: seq<Session>, n: nat): seq<string>
    requires n <= |sessions|
  {
    if n == 0 then [] else
    Registered(text, sessions, n - 1) + if sessions[n - 1].registers then [IdTaken(text, sessions, n - 1)] else []
  }

  ghost predicate Within(text: string, sessions: seq<Session>, n: nat)
    requires n <= |sessions|
  {
    forall k :: 0 <= k < n ==>
      Day(sessions[k].day) && '\n' !in sessions[k].rest && Largest(Registry(text, sessions, k), sessions[k].day, 0) <= 998
  }

  lemma {:induction false} NotInColumn(text: string, day: string)
    requires Day(day) && Largest(text, day, 0) <= 998
    ensures NextRunId(Some(text), day) !in ColumnOf(text)
  {
    hide IdAt;
    hide ColumnOf;
    hide IdText;
    var n := Largest(text, day, 0) + 1;
    if IdText(day, n) in ColumnOf(text) {
      var i := ColumnStands(text, IdText(day, n));
      IdReads(text, day, n, i);
      NextIsFresh(text, day, i);
    }
  }

  /** Whatever the rows say besides their ids, and whoever crashes before registering: the registered ids
      are the ids taken, in order, and stay pairwise distinct, so the integrity check keeps passing. */
  lemma {:induction false} RegisteredDistinct(text: string, sessions: seq<Session>, n: nat)
    requires n <= |sessions| && WholeLines(text) && Distinct(ColumnOf(text)) && Within(text, sessions, n)
    ensures WholeLines(Registry(text, sessions, n))
    ensures ColumnOf(Registry(text, sessions, n)) == ColumnOf(text) + Registered(text, sessions, n)
    ensures Distinct(ColumnOf(Registry(text, sessions, n)))
  {
    hide ColumnOf;
    hide NextRunId;
    hide WholeLines;
    hide Row;
    hide Largest;
    if n > 0 {
      RegisteredDistinct(text, sessions, n - 1);
      var before, s := Registry(text, sessions, n - 1), sessions[n - 1];
      if s.registers { RowAdded(before, s.day, s.rest); }
    } else {
      assert ColumnOf(text) + [] == ColumnOf(text);
    }
  }

  lemma {:induction false} RowAdded(text: string, day: string, rest: string)
    requires WholeLines(text) && Day(day) && '\n' !in rest && Largest(text, day, 0) <= 998 && Distinct(ColumnOf(text))
    ensures var id := NextRunId(Some(text), day); var after := text + Row(id, rest) + "\n";
            && WholeLines(after) && ColumnOf(after) == ColumnOf(text) + [id] && Distinct(ColumnOf(after))
  {
    hide ColumnOf;
    hide Largest;
    hide WholeLines;
    var id := NextRunId(Some(text), day);
    IdIsId(day, Largest(text, day, 0) + 1);
    NotInColumn(text, day);
    hide NextRunId;
    RowColumn(id, rest);
    assert '\n' !in Row(id, rest) by { RowFree(id, rest); }
    hide Row;
    ColumnGrows(text, Row(id, rest));
  }

  lemma RowFree(id: string, rest: string)
    requires '\n' !in id && '\n' !in rest
    ensures '\n' !in Row(id, rest)
  {}

  /** An id taken by a session that crashed before registering is handed out again the same day. */
  lemma CrashedIdAgain(text: string, sessions: seq<Session>, k: nat)
    requires k + 1 < |sessions| && !sessions[k].registers && sessions[k + 1].day == sessions[k].day
    ensures IdTaken(text, sessions, k + 1) == IdTaken(text, sessions, k)
  {
    hide NextRunId;
    assert Registry(text, sessions, k + 1) == Registry(text, sessions, k);
  }
}
