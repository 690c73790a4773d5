/** The lens law of the LONGRUNNER store as a caller sees it: write a field, then parse the project. */
module StoreLaws {
  import opened Text
  import opened Wrappers
  import opened YamlLine
  import opened Longrunner
  import opened LensLaws
  import opened Store

  const HEADING := "## Blockers"

  // ---------------------------------------------------------------- no write makes or breaks the blockers heading

  /** A pattern that starts with #, and whose only blank is followed by something else. */
  ghost predicate HeadingLike(p: string) {
    |p| == 11 && p[0] == '#' && p[10] != ' ' && p[0] != '"' && p[10] != '"'
    && forall k :: 0 <= k < 10 && p[k] == ' ' ==> p[k + 1] != ' '
  }

  lemma HeadingChars()
    ensures HeadingLike(HEADING) && HEADING != ""
  {}

  /** The pattern cannot arise across the seams of a rewritten line. */
  lemma {:induction false} NoSeamAt(head: string, r: string, c: string, p: string, k: nat)
    requires (forall m :: 0 <= m < |head| ==> head[m] != '#') && !Contains(r, p) && !Contains(c, p) && CommentText(c)
    requires HeadingLike(p)
    ensures !At(head + (r + c), k, p)
  {
    var t := head + (r + c);
    if k + 11 <= |t| {
      var w := t[k..k + 11];
      var j := k - |head|;
      if j < 0 {
        assert w[0] == head[k];
      } else if j >= |r| {
        assert forall m :: 0 <= m < 11 ==> w[m] == t[k + m] == c[j - |r| + m];
        assert w == c[j - |r|..j - |r| + 11];
        assert !At(c, j - |r|, p);
      } else if j + 11 <= |r| {
        assert forall m :: 0 <= m < 11 ==> w[m] == t[k + m] == r[j + m];
        assert w == r[j..j + 11];
        assert !At(r, j, p);
      } else {
        assert t[k + (|r| - j)..] == c;
        Crossing(t, k, |r| - j, c, p);
      }
    }
  }

  lemma Crossing(t: string, k: nat, b: nat, c: string, p: string)
    requires k + 11 <= |t| && 0 < b < 11 && CommentText(c) && c != "" && t[k + b..] == c && HeadingLike(p)
    ensures !At(t, k, p)
  {
    var w := t[k..k + 11];
    assert c[..3] == "  #";
    assert c[0] == ' ' && c[1] == ' ';
    assert w[b] == c[0] && (b + 1 < 11 ==> w[b + 1] == c[1]);
  }

  lemma {:induction false} NoSeam(head: string, r: string, c: string, p: string)
    requires (forall k :: 0 <= k < |head| ==> head[k] != '#') && !Contains(r, p) && !Contains(c, p) && CommentText(c)
    requires HeadingLike(p)
    ensures !Contains(head + (r + c), p)
  {
    hide Contains;
    hide HeadingLike;
    hide CommentText;
    var t := head + (r + c);
    forall k | 0 <= k <= |t| ensures !At(t, k, p) { NoSeamAt(head, r, c, p, k); }
    hide At;
    ContainsAt(t, p);
  }

  lemma {:induction false} RenderLacks(v: string)
    requires Storable(v) && !Contains(v, HEADING)
    ensures !Contains(Render(v), HEADING)
  {
    HeadingChars();
    var r := Render(v);
    if r == "\"" + v + "\"" { QuotedHasNo(v, HEADING); }
    else if r != v { assert |r| <= 2; }
  }

  lemma {:induction false} NewLineLacks(line: string, v: string)
    requires Kv(line).Some? && Storable(v) && !Contains(v, HEADING) && !Contains(line, HEADING)
    ensures MatchField(line, Kv(line).value.key).Some?
    ensures !Contains(NewLine(line, Kv(line).value.key, v), HEADING)
  {
    hide IsSpace;
    hide IsWord;
    hide MatchField;
    hide NewLine;
    hide Render;
    hide Storable;
    hide SplitComment;
    hide Contains;
    var kv := Kv(line).value;
    var ind := NewLineParts(line, v);
    CommentLacks(line, HEADING);
    RenderLacks(v);
    hide Kv;
    var c, r := SplitComment(kv.raw).comment, Render(v);
    var head := ind + kv.key + ": ";
    KeyHead(ind, kv.key, head);
    Joints(ind + kv.key, r, c);
    HeadingChars();
    NoSeam(head, r, c, HEADING);
  }

  lemma Joints(a: string, r: string, c: string)
    ensures a + ":" + (" " + r + c) == (a + ": ") + (r + c)
  {
    assert ": " == ":" + " ";
  }

  lemma KeyHead(ind: string, key: string, head: string)
    requires WordKey(key) && (forall k :: 0 <= k < |ind| ==> ind[k] in SPACES) && head == ind + key + ": "
    ensures forall k :: 0 <= k < |head| ==> head[k] != '#'
  {
    assert '#' !in SPACES && '#' !in KEY_CHARS;
    hide IsSpace;
    hide IsWord;
    forall k | 0 <= k < |head| ensures head[k] != '#' {
      assert head[k] == if k < |ind| then ind[k] else if k < |ind| + |key| then key[k - |ind|] else ": "[k - |ind| - |key|];
    }
  }

  // ---------------------------------------------------------------- the file lens

  /** What the parse of a project becomes when one field is written: a null marker makes the field absent. */
  function Updated(m: map<string, string>, f: string, v: string): map<string, string> {
    if IsNull(v) then map g | g in m && g != f :: m[g] else m[f := v]
  }

  /** No value line of the document carries the blockers heading. */
  ghost predicate NoHeading(lines: seq<string>) {
    forall i :: 0 <= i < |lines| && ValueAt(lines, i).Some? ==> !Contains(lines[i], HEADING)
  }

  lemma {:induction false} MutateLine(lines: seq<string>, f: string, v: string) returns (i: nat, nl: string)
    requires WellFormed(lines) && f in Doc(lines) && Storable(v) && !Contains(v, HEADING) && NoHeading(lines)
    ensures i < |lines| && Mutate(lines, f, v).0 == lines[i := nl]
    ensures !Contains(lines[i], HEADING) && !Contains(nl, HEADING)
    ensures Strip(lines[i]) != "" && Strip(nl) != "" && IsWord(Strip(lines[i])[0]) && IsWord(Strip(nl)[0])
  {
    hide LinesOk;
    hide KeysDistinct;
    hide ValueAt;
    hide Cells;
    hide CtrlAt;
    hide Mutate;
    hide Storable;
    hide MatchField;
    hide NewLine;
    hide Contains;
    i := FieldLine(lines, |lines|, f);
    MutateIsPut(lines, f, v, i);
    KeyLineIs(lines, i);
    NewLineLacks(lines[i], v);
    RenderFacts(v);
    Rewrite(lines[i], v);
    KeyFirst(lines[i]);
    KeyFirst(NewLine(lines[i], Kv(lines[i]).value.key, v));
    hide Kv;
    nl := Put(lines, i, v)[i];
  }

  lemma Regrouped(a: string, b: string, c: string, d: string)
    ensures a + b + c + ":" + d == a + (b + c + ":" + d)
  {}

  lemma {:induction false} KeyFirst(line: string)
    requires Kv(line).Some?
    ensures Strip(line) != "" && IsWord(Strip(line)[0])
  {
    hide IsSpace;
    hide Strip;
    var ind, gap, rest := KvParts(line);
    KvIsLoose(line);
    var key := Kv(line).value.key;
    hide Kv;
    hide LooseKey;
    Regrouped(ind, key, gap, rest);
    StripStart(ind, key + gap + ":" + rest, line);
  }

  lemma Absent(d: map<string, string>, base: map<string, string>, f: string, v: string)
    requires f !in base
    ensures base + NonNull(d[f := v]) == Updated(base + NonNull(d), f, v)
  {
    hide IsNull;
  }

  /** Writing an existing field and parsing again: the parse is the same except for that field, which has
      the written value, or is absent if that is a null marker; the old value reported is what the parser
      read there, if it read anything. */
  lemma {:induction false} WriteThenParse(files: Files, slug: string, f: string, v: string)
    requires IsValidSlug(slug) && LongrunnerPath(slug) in files
    requires var lines := SplitLines(files[LongrunnerPath(slug)]);
             WellFormed(lines) && NoHeading(lines) && f in Doc(lines)
    requires Storable(v) && !Contains(v, HEADING)
    ensures var (after, old_) := PutLongrunner(files, slug, f, v);
            && ParseOf(files, slug).Some? && ParseOf(after, slug) == Some(Updated(ParseOf(files, slug).value, f, Stored(v)))
            && (if f in ParseOf(files, slug).value then old_ == Some(ParseOf(files, slug).value[f])
                else old_.Some? && IsNull(old_.value))
            && WellFormed(SplitLines(after[LongrunnerPath(slug)]))
  {
    hide IsValidSlug;
    hide LongrunnerPath;
    hide WellFormed;
    hide Cells;
    hide Mutate;
    hide Storable;
    hide SplitLines;
    hide Written;
    hide BreakFree;
    hide Fields;
    hide Blockers;
    hide IsNull;
    hide Contains;
    hide NoHeading;
    var lines := SplitLines(files[LongrunnerPath(slug)]);
    var base := map["slug" := slug, "is_draft" := BoolText(false)];
    WriteField(lines, f, v);
    var i, nl := MutateLine(lines, f, v);
    var after := Mutate(lines, f, v).0;
    MutateBreakFree(lines, f, v);
    ReadWritten(after);
    BlockersPut(lines, i, nl, 0, false);
    FieldsAreCells(lines, |lines|, base);
    FieldsAreCells(after, |after|, base);
    Reserved(lines, f);
    Absent(Doc(lines), base, f, Stored(v));
    Commutes(base + NonNull(Doc(lines)), f, Stored(v), BoolText(Blockers(lines, 0, false)));
  }

  lemma Commutes(m: map<string, string>, f: string, v: string, b: string)
    requires f != "has_blockers"
    ensures Updated(m, f, v)["has_blockers" := b] == Updated(m["has_blockers" := b], f, v)
  {
    hide IsNull;
  }

  lemma {:induction false} Reserved(lines: seq<string>, f: string)
    requires WellFormed(lines) && f in Doc(lines)
    ensures f !in {"slug", "is_draft", "has_blockers"}
  {
    hide LinesOk;
    hide KeysDistinct;
    hide ValueAt;
    var i := FieldLine(lines, |lines|, f);
    NameNotReserved(lines, i);
  }

  lemma {:induction false} MutateBreakFree(lines: seq<string>, f: string, v: string)
    requires WellFormed(lines) && f in Doc(lines) && Storable(v) && forall k :: 0 <= k < |lines| ==> BreakFree(lines[k])
    ensures forall k :: 0 <= k < |Mutate(lines, f, v).0| ==> BreakFree(Mutate(lines, f, v).0[k])
    ensures Mutate(lines, f, v).0 != []
  {
    hide LinesOk;
    hide KeysDistinct;
    hide ValueAt;
    hide Cells;
    hide CtrlAt;
    hide Mutate;
    hide BreakFree;
    hide Render;
    hide Storable;
    hide MatchField;
    hide NewLine;
    hide Kv;
    hide CleanText;
    var i := FieldLine(lines, |lines|, f);
    MutateIsPut(lines, f, v, i);
    KeyLineIs(lines, i);
    RenderFacts(v);
    RewriteBreakFree(lines[i], v);
  }
}
