/** The dispatch table of ACTIVE-PROJECTS.md: its parser and the mutator that rewrites one cell. */
module Tables {
  import opened Text
  import opened Wrappers

  type Record = map<string, string>

  /** The stripped cells between the outermost bars of a line. */
  function Cells(line: string): (r: seq<string>)
    ensures forall k :: 0 <= k < |r| ==> Trimmed(r[k], SPACES)
  {
    var parts := Split(line, '|');
    if |parts| < 2 then [] else seq(|parts| - 2, k requires 0 <= k < |parts| - 2 => Strip(parts[k + 1]))
  }

  /** A header as a key: in lower case, with underscores for blanks. */
  function Key(s: string): string { seq(|s|, k requires 0 <= k < |s| => if s[k] == ' ' then '_' else Lower(s[k])) }

  function Keys(cells: seq<string>): (r: seq<string>)
    ensures |r| == |cells|
  {
    seq(|cells|, k requires 0 <= k < |cells| => Key(cells[k]))
  }

  predicate IsTableLine(s: string) { s != "" && s[0] == '|' }

  predicate Ruled(cell: string) { forall k :: 0 <= k < |cell| ==> cell[k] == '-' || cell[k] == ':' }

  predicate IsSeparator(cells: seq<string>) { cells != [] && forall k :: 0 <= k < |cells| ==> Ruled(cells[k]) }

  /** Headers paired with cells; a later column of the same name wins. */
  function Zip(headers: seq<string>, cells: seq<string>, n: nat): Record
    requires n <= |headers| && n <= |cells|
  {
    if n == 0 then map[] else Zip(headers, cells, n - 1)[headers[n - 1] := cells[n - 1]]
  }

  /** The slug of a row: its project_slug, or else its slug. */
  function SlugOf(row: Record): string {
    Strip(if "project_slug" in row then row["project_slug"] else if "slug" in row then row["slug"] else "")
  }

  /** The data cells of a line, given the headers seen so far. */
  function DataCells(headers: Option<seq<string>>, line: string): (r: Option<seq<string>>)
    ensures r.Some? ==> headers.Some? && |headers.value| <= |r.value|
    ensures r.Some? ==> r.value == Cells(Strip(line))
  {
    var s := Strip(line);
    var cells := Cells(s);
    if IsTableLine(s) && headers.Some? && !IsSeparator(cells) && |headers.value| <= |cells| then Some(cells) else None
  }

  /** The row a line contributes. */
  function RowAt(headers: Option<seq<string>>, line: string): (r: Option<Record>)
    ensures r.Some? <==> DataCells(headers, line).Some?
  {
    match DataCells(headers, line)
    case None => None
    case Some(cells) => Some(Zip(headers.value, cells, |headers.value|))
  }

  function HeadersAfter(headers: Option<seq<string>>, line: string): Option<seq<string>> {
    if headers.None? && IsTableLine(Strip(line)) then Some(Keys(Cells(Strip(line)))) else headers
  }

  function HeadersAt(lines: seq<string>, n: nat): Option<seq<string>>
    requires n <= |lines|
  {
    if n == 0 then None else HeadersAfter(HeadersAt(lines, n - 1), lines[n - 1])
  }

  /** parse_dispatch_table over the first n lines. */
  function RowsOf(lines: seq<string>, n: nat): seq<Record>
    requires n <= |lines|
  {
    if n == 0 then [] else
    match RowAt(HeadersAt(lines, n - 1), lines[n - 1])
    case None => RowsOf(lines, n - 1)
    case Some(row) => RowsOf(lines, n - 1) + [row]
  }

  /** The first place of the key, or the number of headers. */
  function IndexOf(headers: seq<string>, key: string, i: nat): (r: nat)
    requires i <= |headers|
    ensures i <= r <= |headers|
    ensures forall k :: i <= k < r ==> headers[k] != key
    ensures r < |headers| ==> headers[r] == key
    decreases |headers| - i
  {
    if i < |headers| && headers[i] != key then IndexOf(headers, key, i + 1) else i
  }

  function NewRow(cells: seq<string>): string { "| " + Join(cells, " | ") + " |" }

  /** The first row of the slug that has the column: its line, its cells and the column. */
  datatype Spot = Spot(line: nat, cells: seq<string>, col: nat)

  function Find(lines: seq<string>, slug: string, key: string, i: nat): (r: Option<Spot>)
    requires i <= |lines|
    ensures r.Some? ==> i <= r.value.line < |lines| && r.value.col < |r.value.cells|
    ensures r.Some? ==> HeadersAt(lines, r.value.line).Some?
    decreases |lines| - i
  {
    if i == |lines| then None else
    var h := HeadersAt(lines, i);
    if IsSpot(h, lines[i], slug, key) then
      Some(Spot(i, DataCells(h, lines[i]).value, IndexOf(h.value, key, 0)))
    else Find(lines, slug, key, i + 1)
  }

  /** A row of the slug, in a table that has the column. */
  predicate IsSpot(h: Option<seq<string>>, line: string, slug: string, key: string) {
    && RowAt(h, line).Some? && SlugOf(RowAt(h, line).value) == slug
    && h.Some? && IndexOf(h.value, key, 0) < |h.value|
  }

  /** mutate_dispatch_field: the new lines and the old value, or None when nothing is written. */
  function MutateDispatch(lines: seq<string>, slug: string, field: string, v: string): Option<(seq<string>, string)> {
    match Find(lines, slug, Key(field), 0)
    case None => None
    case Some(s) => Some((lines[s.line := NewRow(s.cells[s.col := v])], s.cells[s.col]))
  }

  // ---------------------------------------------------------------- the programs

  /** parse_dispatch_table */
  method ParseDispatchTable(content: string) returns (rows: seq<Record>)
    ensures rows == RowsOf(SplitLines(content), |SplitLines(content)|)
  {
    hide Strip;
    hide Cells;
    hide IsSeparator;
    hide IsTableLine;
    rows := [];
    var headers: Option<seq<string>> := None;
    var lines := SplitLines(content);
    for i := 0 to |lines|
      invariant headers == HeadersAt(lines, i) && rows == RowsOf(lines, i)
    {
      var line := Strip(lines[i]);
      if !IsTableLine(line) {
        continue;
      }
      var cells := Cells(line);
      if headers.None? {
        headers := Some(Keys(cells));
        continue;
      }
      if IsSeparator(cells) {
        continue;
      }
      if |cells| >= |headers.value| {
        rows := rows + [Zip(headers.value, cells, |headers.value|)];
      }
    }
  }

  lemma FindStep(lines: seq<string>, slug: string, key: string, i: nat)
    requires i < |lines|
    ensures HeadersAt(lines, i + 1) == HeadersAfter(HeadersAt(lines, i), lines[i])
    ensures var h := HeadersAt(lines, i);
            IsSpot(h, lines[i], slug, key) ==>
              DataCells(h, lines[i]).Some? && h.Some? &&
              Find(lines, slug, key, i) == Some(Spot(i, DataCells(h, lines[i]).value, IndexOf(h.value, key, 0)))
    ensures !IsSpot(HeadersAt(lines, i), lines[i], slug, key) ==>
              Find(lines, slug, key, i) == Find(lines, slug, key, i + 1)
  {
    hide DataCells;
    hide SlugOf;
    hide IndexOf;
    hide HeadersAfter;
  }

  /** mutate_dispatch_field on the lines of the file */
  method MutateDispatchField(before: seq<string>, slug: string, field: string, value: string)
    returns (r: Option<(seq<string>, string)>)
    ensures r == MutateDispatch(before, slug, field, value)
  {
    hide Strip;
    hide Cells;
    hide IsSeparator;
    hide IsTableLine;
    hide SlugOf;
    hide NewRow;
    hide Zip;
    hide Keys;
    var lines := before;
    var headers: Option<seq<string>> := None;
    var key := Key(field);
    var i := 0;
    while i < |lines|
      invariant 0 <= i <= |lines| && lines == before
      invariant headers == HeadersAt(lines, i)
      invariant Find(lines, slug, key, 0) == Find(lines, slug, key, i)
    {
      var stripped := Strip(lines[i]);
      FindStep(lines, slug, key, i);
      hide Find;
      hide HeadersAt;
      i := i + 1;
      if !IsTableLine(stripped) {
        continue;
      }
      var cells := Cells(stripped);
      if headers.None? {
        headers := Some(Keys(cells));
        continue;
      }
      if IsSeparator(cells) {
        continue;
      }
      if |cells| >= |headers.value| {
        var row := Zip(headers.value, cells, |headers.value|);
        if SlugOf(row) == slug {
          var col := IndexOf(headers.value, key, 0);
          if col < |headers.value| {
            var oldValue := cells[col];
            cells := cells[col := value];
            lines := lines[i - 1 := NewRow(cells)];
            return Some((lines, oldValue));
          }
        }
      }
    }
    return None;
  }

  // ---------------------------------------------------------------- lens laws

  /** A cell value the table can hold. */
  ghost predicate CellText(v: string) { '|' !in v && Trimmed(v, SPACES) && BreakFree(v) }

  function Spaced(cells: seq<string>): (r: seq<string>)
    ensures |r| == |cells| && forall k :: 0 <= k < |r| ==> r[k] == " " + cells[k] + " "
  {
    if cells == [] then [] else [" " + cells[0] + " "] + Spaced(cells[1..])
  }

  lemma {:induction false} SplitBarred(cells: seq<string>)
    requires |cells| >= 1 && forall k :: 0 <= k < |cells| ==> '|' !in cells[k]
    ensures Split(" " + Join(cells, " | ") + " ", '|') == Spaced(cells)
  {
    hide Split;
    var a := " " + cells[0] + " ";
    if |cells| == 1 {
      assert Spaced(cells) == [a] + Spaced(cells[1..]) == [a];
    } else {
      var rest := cells[1..];
      SplitBarred(rest);
      var b := " " + Join(rest, " | ") + " ";
      Bars(cells[0], Join(rest, " | "));
      SplitPrefix(a, b, '|');
    }
  }

  lemma Bars(a: string, b: string)
    ensures " " + (a + " | " + b) + " " == (" " + a + " ") + ['|'] + (" " + b + " ")
  {
    assert " | " == " " + ['|'] + " ";
  }

  lemma NewRowShape(cells: seq<string>)
    requires |cells| >= 1
    ensures NewRow(cells) == "" + ['|'] + ((" " + Join(cells, " | ") + " ") + ['|'] + "")
    ensures NewRow(cells) != "" && NewRow(cells)[0] == '|' && NewRow(cells)[|NewRow(cells)| - 1] == '|'
  {
    hide Join;
    assert "| " == ['|'] + " " && " |" == " " + ['|'];
  }

  lemma {:induction false} NewRowParts(cells: seq<string>)
    requires |cells| >= 1 && forall k :: 0 <= k < |cells| ==> '|' !in cells[k]
    ensures Split(NewRow(cells), '|') == [""] + (Spaced(cells) + [""])
  {
    hide Join;
    hide NewRow;
    var body := " " + Join(cells, " | ") + " ";
    NewRowShape(cells);
    SplitBarred(cells);
    SplitPrefix("", body + ['|'] + "", '|');
    SplitConcat(body, "", '|');
    assert Split("", '|') == [""];
  }

  /** A rebuilt row is read back cell by cell. */
  lemma {:induction false} ReadNewRow(cells: seq<string>)
    requires |cells| >= 1 && forall k :: 0 <= k < |cells| ==> '|' !in cells[k] && Trimmed(cells[k], SPACES)
    ensures Strip(NewRow(cells)) == NewRow(cells) && IsTableLine(NewRow(cells)) && Cells(NewRow(cells)) == cells
  {
    hide IsSpace;
    hide Split;
    hide Join;
    NewRowShape(cells);
    NewRowParts(cells);
    BarVisible();
    hide NewRow;
    var s := NewRow(cells);
    var parts := Split(s, '|');
    forall k | 0 <= k < |cells| ensures Strip(parts[k + 1]) == cells[k] {
      assert parts[k + 1] == " " + cells[k] + " ";
      Padded(cells[k]);
    }
    hide Strip;
    assert Cells(s) == cells;
  }

  lemma BarVisible()
    ensures '|' !in SPACES && ' ' in SPACES
  {}

  lemma {:induction false} Padded(c: string)
    requires Trimmed(c, SPACES)
    ensures Strip(" " + c + " ") == c
  {
    BarVisible();
    hide IsSpace;
    StripPadded(" ", c, " ", SPACES);
  }

  lemma {:induction false} ZipSet(headers: seq<string>, cells: seq<string>, col: nat, v: string, n: nat)
    requires n <= |headers| && n <= |cells| && col < |headers| && col < |cells| && Distinct(headers)
    ensures Zip(headers, cells[col := v], n) ==
            if col < n then Zip(headers, cells, n)[headers[col] := v] else Zip(headers, cells, n)
  {
    if n > 0 { ZipSet(headers, cells, col, v, n - 1); }
  }

  lemma {:induction false} ZipGet(headers: seq<string>, cells: seq<string>, col: nat, n: nat)
    requires n <= |headers| && n <= |cells| && col < n && Distinct(headers)
    ensures headers[col] in Zip(headers, cells, n) && Zip(headers, cells, n)[headers[col]] == cells[col]
  {
    if col < n - 1 { ZipGet(headers, cells, col, n - 1); }
  }

  /** The headers are fixed by the first table line, so replacing a later line leaves them alone. */
  lemma {:induction false} SameHeaders(lines: seq<string>, i: nat, nl: string, n: nat)
    requires i < |lines| && n <= |lines|
    requires HeadersAt(lines, i).Some?
    ensures HeadersAt(lines[i := nl], n) == HeadersAt(lines, n)
    ensures i < n ==> HeadersAt(lines, n) == HeadersAt(lines, i)
  {
    hide IsTableLine;
    hide Keys;
    hide Cells;
    if n > 0 { SameHeaders(lines, i, nl, n - 1); }
  }

  /** What a found spot is: a data line of the slug. */
  lemma {:induction false} SpotIs(lines: seq<string>, slug: string, key: string, i: nat)
    requires i <= |lines| && Find(lines, slug, key, i).Some?
    ensures var s := Find(lines, slug, key, i).value; var h := HeadersAt(lines, s.line);
            && IsSpot(h, lines[s.line], slug, key)
            && DataCells(h, lines[s.line]) == Some(s.cells) && s.col == IndexOf(h.value, key, 0)
    decreases |lines| - i
  {
    hide DataCells;
    hide IsSpot;
    hide IndexOf;
    hide HeadersAt;
    hide RowAt;
    if i < |lines| {
      FindStep(lines, slug, key, i);
      hide Find;
      if !IsSpot(HeadersAt(lines, i), lines[i], slug, key) {
        SpotIs(lines, slug, key, i + 1);
      }
    }
  }

  lemma RowsStep(lines: seq<string>, n: nat)
    requires 0 < n <= |lines|
    ensures RowsOf(lines, n) == match RowAt(HeadersAt(lines, n - 1), lines[n - 1])
                                case None => RowsOf(lines, n - 1)
                                case Some(row) => RowsOf(lines, n - 1) + [row]
  {
    hide RowAt;
    hide HeadersAt;
  }

  lemma {:induction false} RowsPut(lines: seq<string>, i: nat, nl: string, key: string, v: string, n: nat)
    requires i < n <= |lines| && HeadersAt(lines, i).Some?
    requires RowAt(HeadersAt(lines, i), lines[i]).Some?
    requires RowAt(HeadersAt(lines, i), nl) == Some(RowAt(HeadersAt(lines, i), lines[i]).value[key := v])
    ensures var k, rows := |RowsOf(lines, i)|, RowsOf(lines, n);
            && k < |rows| && rows[..k] == RowsOf(lines, i)
            && rows[k] == RowAt(HeadersAt(lines, i), lines[i]).value
            && RowsOf(lines[i := nl], n) == rows[k := rows[k][key := v]]
  {
    hide RowAt;
    hide HeadersAt;
    hide RowsOf;
    if n - 1 == i {
      RowsPutHere(lines, i, nl, key, v);
    } else {
      SameHeaders(lines, i, nl, n - 1);
      RowsPut(lines, i, nl, key, v, n - 1);
      var k := |RowsOf(lines, i)|;
      RowsGrow(lines, lines[i := nl], n, k, RowsOf(lines, n - 1)[k][key := v]);
    }
  }

  lemma {:induction false} RowsGrow(lines: seq<string>, after: seq<string>, n: nat, k: nat, x: Record)
    requires 0 < n <= |lines| == |after| && after[n - 1] == lines[n - 1] && HeadersAt(after, n - 1) == HeadersAt(lines, n - 1)
    requires k < |RowsOf(lines, n - 1)| && RowsOf(after, n - 1) == RowsOf(lines, n - 1)[k := x]
    ensures var rows := RowsOf(lines, n);
            k < |rows| && RowsOf(after, n) == rows[k := x]
            && rows[..k] == RowsOf(lines, n - 1)[..k] && rows[k] == RowsOf(lines, n - 1)[k]
  {
    hide RowAt;
    hide HeadersAt;
    hide RowsOf;
    RowsStep(lines, n);
    RowsStep(after, n);
    var row := RowAt(HeadersAt(lines, n - 1), lines[n - 1]);
    if row.Some? { Extended(RowsOf(lines, n - 1), RowsOf(after, n - 1), row.value, k, x); }
  }

  lemma {:induction false} RowsPutHere(lines: seq<string>, i: nat, nl: string, key: string, v: string)
    requires i < |lines| && HeadersAt(lines, i).Some? && RowAt(HeadersAt(lines, i), lines[i]).Some?
    requires RowAt(HeadersAt(lines, i), nl) == Some(RowAt(HeadersAt(lines, i), lines[i]).value[key := v])
    ensures var k, rows := |RowsOf(lines, i)|, RowsOf(lines, i + 1);
            && k < |rows| && rows[..k] == RowsOf(lines, i) && rows[k] == RowAt(HeadersAt(lines, i), lines[i]).value
            && RowsOf(lines[i := nl], i + 1) == rows[k := rows[k][key := v]]
  {
    hide RowAt;
    hide HeadersAt;
    hide RowsOf;
    var after := lines[i := nl];
    RowsStep(lines, i + 1);
    RowsStep(after, i + 1);
    assert after[..i] == lines[..i];
    SamePrefix(lines, after, i);
    Last(RowsOf(lines, i), RowAt(HeadersAt(lines, i), lines[i]).value, key, v);
  }

  lemma Last(a: seq<Record>, row: Record, key: string, v: string)
    ensures var b := a + [row];
            b[..|a|] == a && a + [row[key := v]] == b[|a| := b[|a|][key := v]]
  {}

  lemma Extended(a: seq<Record>, c: seq<Record>, last: Record, k: nat, x: Record)
    requires k < |a| && c == a[k := x]
    ensures (a + [last])[..k] == a[..k] && (a + [last])[k] == a[k] && c + [last] == (a + [last])[k := x]
  {}

  /** What is read up to line n depends on those lines only. */
  lemma {:induction false} SamePrefix(lines: seq<string>, after: seq<string>, n: nat)
    requires n <= |lines| && n <= |after| && lines[..n] == after[..n]
    ensures HeadersAt(after, n) == HeadersAt(lines, n) && RowsOf(after, n) == RowsOf(lines, n)
  {
    hide RowAt;
    hide HeadersAfter;
    if n > 0 {
      assert lines[n - 1] == lines[..n][n - 1] && after[n - 1] == after[..n][n - 1];
      assert lines[..n - 1] == lines[..n][..n - 1] && after[..n - 1] == after[..n][..n - 1];
      SamePrefix(lines, after, n - 1);
    }
  }

  lemma {:induction false} FindFrom(lines: seq<string>, slug: string, key: string, n: nat)
    requires Find(lines, slug, key, 0).Some? && n <= Find(lines, slug, key, 0).value.line
    ensures Find(lines, slug, key, n) == Find(lines, slug, key, 0)
  {
    hide DataCells;
    hide IsSpot;
    hide HeadersAt;
    hide IndexOf;
    hide Find;
    if n > 0 {
      FindFrom(lines, slug, key, n - 1);
      FindStep(lines, slug, key, n - 1);
    }
  }

  /** No row above the found one belongs to the slug. */
  lemma {:induction false} NoEarlier(lines: seq<string>, slug: string, key: string, n: nat)
    requires Find(lines, slug, key, 0).Some? && n <= Find(lines, slug, key, 0).value.line
    ensures forall j :: 0 <= j < |RowsOf(lines, n)| ==> SlugOf(RowsOf(lines, n)[j]) != slug
  {
    RowsNone(lines);
    hide DataCells;
    hide SlugOf;
    hide RowAt;
    hide RowsOf;
    hide Find;
    hide HeadersAt;
    hide IndexOf;
    if n > 0 {
      NoEarlier(lines, slug, key, n - 1);
      RowsStep(lines, n);
      NotASpot(lines, slug, key, n - 1);
    }
  }

  lemma {:induction false} NotASpot(lines: seq<string>, slug: string, key: string, n: nat)
    requires Find(lines, slug, key, 0).Some? && n < Find(lines, slug, key, 0).value.line
    ensures RowAt(HeadersAt(lines, n), lines[n]).Some? ==> SlugOf(RowAt(HeadersAt(lines, n), lines[n]).value) != slug
  {
    hide DataCells;
    hide SlugOf;
    hide Find;
    hide HeadersAt;
    hide IndexOf;
    hide Zip;
    FindFrom(lines, slug, key, n);
    FindStep(lines, slug, key, n);
    SpotIs(lines, slug, key, 0);
    var s := Find(lines, slug, key, 0).value;
    if RowAt(HeadersAt(lines, n), lines[n]).Some? {
      SameHeaders(lines, n, lines[n], s.line);
    }
  }

  lemma RowsNone(lines: seq<string>)
    ensures RowsOf(lines, 0) == []
  {}

  ghost predicate SlugLike(slug: string) {
    slug != "" && exists k :: 0 <= k < |slug| && slug[k] != '-' && slug[k] != ':'
  }

  /** Some cell of the slug's row shows that it is no ruler line. */
  lemma {:induction false} SlugCell(headers: seq<string>, cells: seq<string>, slug: string) returns (c: nat)
    requires |headers| <= |cells| && Distinct(headers)
    requires SlugOf(Zip(headers, cells, |headers|)) == slug && SlugLike(slug)
    requires forall k :: 0 <= k < |cells| ==> Trimmed(cells[k], SPACES)
    ensures c < |headers| && (headers[c] == "project_slug" || headers[c] == "slug") && cells[c] == slug
    ensures headers[c] == "slug" ==> "project_slug" !in headers
  {
    hide IsSpace;
    var row := Zip(headers, cells, |headers|);
    ZipKeys(headers, cells, |headers|);
    var name := if "project_slug" in row then "project_slug" else "slug";
    assert Strip("") == "";
    c := IndexOf(headers, name, 0);
    ZipGet(headers, cells, c, |headers|);
  }

  lemma {:induction false} ZipKeys(headers: seq<string>, cells: seq<string>, n: nat)
    requires n <= |headers| && n <= |cells|
    ensures forall k :: k in Zip(headers, cells, n) <==> k in headers[..n]
  {
    if n > 0 {
      ZipKeys(headers, cells, n - 1);
      assert headers[..n] == headers[..n - 1] + [headers[n - 1]];
    }
  }

  /** The lens laws of the table: the row of the slug gets the value in that column and nothing else
      changes, no earlier row being the slug's; and the old value is what the parser read there. */
  lemma {:induction false} WriteCell(lines: seq<string>, slug: string, field: string, v: string)
    requires Find(lines, slug, Key(field), 0).Some?
    requires Distinct(HeadersAt(lines, Find(lines, slug, Key(field), 0).value.line).value)
    requires CellText(v) && SlugLike(slug) && Key(field) != "slug" && Key(field) != "project_slug"
    ensures MutateDispatch(lines, slug, field, v).Some?
    ensures var (after, old_) := MutateDispatch(lines, slug, field, v).value;
            var s := Find(lines, slug, Key(field), 0).value;
            var k := |RowsOf(lines, s.line)|;
            var rows := RowsOf(lines, |lines|);
            && |after| == |lines| && k < |rows|
            && RowsOf(after, |after|) == rows[k := rows[k][Key(field) := v]]
            && Key(field) in rows[k] && old_ == rows[k][Key(field)] && SlugOf(rows[k]) == slug
            && (forall j :: 0 <= j < k ==> SlugOf(rows[j]) != slug)
  {
    hide IsSpace;
    hide DataCells;
    hide SlugOf;
    hide Zip;
    hide NewRow;
    hide Cells;
    hide RowsOf;
    var key := Key(field);
    hide Key;
    SpotIs(lines, slug, key, 0);
    var s := Find(lines, slug, key, 0).value;
    NoEarlier(lines, slug, key, s.line);
    hide Find;
    hide HeadersAt;
    hide IndexOf;
    var h := HeadersAt(lines, s.line).value;
    var cells := s.cells[s.col := v];
    RowCells(HeadersAt(lines, s.line), lines[s.line]);
    var c := SlugCell(h, s.cells, slug);
    NewData(h, cells, c);
    ZipSet(h, s.cells, s.col, v, |h|);
    ZipGet(h, s.cells, s.col, |h|);
    RowsPut(lines, s.line, NewRow(cells), key, v, |lines|);
    var k := |RowsOf(lines, s.line)|;
    assert forall j :: 0 <= j < k ==> RowsOf(lines, |lines|)[j] == RowsOf(lines, |lines|)[..k][j];
  }

  lemma {:induction false} RowCells(headers: Option<seq<string>>, line: string)
    requires DataCells(headers, line).Some?
    ensures forall k :: 0 <= k < |DataCells(headers, line).value| ==>
              '|' !in DataCells(headers, line).value[k] && Trimmed(DataCells(headers, line).value[k], SPACES)
  {
    hide IsSpace;
    hide Split;
    var s := Strip(line);
    SplitFree(s, '|');
    var parts := Split(s, '|');
    forall k | 0 <= k < |parts| ensures '|' !in Strip(parts[k]) { StripFree(parts[k], '|'); }
  }

  lemma {:induction false} SplitFree(s: string, c: char)
    ensures forall k :: 0 <= k < |Split(s, c)| ==> c !in Split(s, c)[k]
    decreases |s|
  {
    var j := Upto(s, 0, c);
    if j < |s| { SplitFree(s[j + 1..], c); }
  }

  lemma StripFree(s: string, c: char)
    requires c !in s
    ensures c !in Strip(s)
  {
    hide IsSpace;
  }

  lemma {:induction false} NewData(headers: seq<string>, cells: seq<string>, c: nat)
    requires |headers| <= |cells| && c < |cells| && SlugLike(cells[c])
    requires forall k :: 0 <= k < |cells| ==> '|' !in cells[k] && Trimmed(cells[k], SPACES)
    ensures DataCells(Some(headers), NewRow(cells)) == Some(cells)
  {
    hide IsSpace;
    hide NewRow;
    hide Cells;
    ReadNewRow(cells);
    assert !Ruled(cells[c]);
  }
}
