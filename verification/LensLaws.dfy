/** The lens laws between the LONGRUNNER mutator and the LONGRUNNER parser. */
module LensLaws {
  import opened Text
  import opened Wrappers
  import opened YamlLine
  import opened Longrunner

  // ---------------------------------------------------------------- the two state machines agree

  lemma HeadersApart(s: string)
    ensures forall a, b :: Header(a) <= s && Header(b) <= s ==> a == b
    ensures forall a :: Header(a) <= s ==> StartsSection(s)
    ensures !(StartsSection(s) && OpensFence(s)) && !(StartsSection(s) && ClosesFence(s))
    ensures !(OpensFence(s) && ClosesFence(s))
  {
    assert Header(Phase)[3] == 'C' && Header(LastPass)[3] == 'L' && Header(NextPass)[3] == 'N';
    forall a | Header(a) <= s ensures "## " <= s {
      assert Header(a)[..3] == "## ";
      assert s[..3] == Header(a)[..3];
    }
    if "## " <= s { assert s[0] == '#'; }
    assert "```yaml" != "```";
  }

  lemma HeadIsHash(s: string)
    ensures HeadOf(s).Some? ==> StartsSection(s)
    ensures !(StartsSection(s) && OpensFence(s)) && !(StartsSection(s) && ClosesFence(s))
    ensures !(OpensFence(s) && ClosesFence(s))
  {
    HeadersApart(s);
    hide Header;
  }

  lemma KindIs(line: string)
    ensures forall a :: KindOf(line) == Head(a) <==> Header(a) <= Strip(line)
    ensures StartsSection(Strip(line)) <==> KindOf(line).Head? || KindOf(line).OtherHead?
    ensures KindOf(line) == Open <==> OpensFence(Strip(line))
    ensures KindOf(line) == Close <==> ClosesFence(Strip(line))
  {
    hide Strip;
    hide Header;
    HeadersApart(Strip(line));
    hide StartsSection;
    hide OpensFence;
    hide ClosesFence;
  }

  /** One line of the parser, case by case. */
  lemma StepCases(c: Ctrl, line: string)
    ensures !KindOf(line).Body? ==> Entry(c, line) == None
    ensures KindOf(line).Head? ==> Next(c, line) == Ctrl(Some(KindOf(line).sec), false, c.indent)
    ensures KindOf(line).OtherHead? ==> Next(c, line) == Ctrl(None, false, c.indent)
    ensures KindOf(line).Open? ==> Next(c, line) == Ctrl(c.sec, true, c.indent)
    ensures KindOf(line).Close? ==> Next(c, line) == Ctrl(c.sec, false, c.indent)
    ensures KindOf(line).Body? && (!c.inYaml || c.sec.None? || Kv(line).None?) ==>
              Next(c, line) == c && Entry(c, line) == None
    ensures KindOf(line).Body? && c.inYaml && c.sec.Some? && Kv(line).Some? ==>
              var kv := Kv(line).value;
              && Next(c, line) == Ctrl(c.sec, c.inYaml, if kv.raw == "" then kv.indent else c.indent)
              && (kv.raw == "" ==> Entry(c, line) == None)
              && Entry(c, line) == match ReadRaw(kv.raw) case None => None case Some(v) => Some((Dotted(c, kv), v))
  {
    assert ReadRaw("").None?;
    hide KindOf;
    hide Kv;
    hide ReadRaw;
    hide Dotted;
  }

  function Shadow(sec: Section, c: Ctrl): Scan {
    Scan(c.sec == Some(sec), c.inYaml && c.sec == Some(sec))
  }

  lemma ShadowStep(sec: Section, c: Ctrl, line: string)
    requires LineOk(c, line)
    ensures ScanNext(sec, Shadow(sec, c), line) == Shadow(sec, Next(c, line))
    ensures Tries(sec, Shadow(sec, c), line) <==> KindOf(line) == Body && c.inYaml && c.sec == Some(sec)
  {
    KindIs(line);
    hide StartsSection;
    hide OpensFence;
    hide ClosesFence;
    hide Strip;
    hide Header;
    hide KindOf;
    hide Kv;
    hide LooseKey;
    hide CleanRaw;
  }

  /** On a well-formed document the mutator's flags are a shadow of the parser's state. */
  lemma {:induction false} Simulation(lines: seq<string>, sec: Section, i: nat)
    requires LinesOk(lines) && i <= |lines|
    ensures ScanAt(lines, sec, i) == Shadow(sec, CtrlAt(lines, i))
  {
    ShadowStart(sec);
    hide Shadow;
    hide LineOk;
    hide ScanNext;
    hide Next;
    if i > 0 {
      Simulation(lines, sec, i - 1);
      assert LineOkAt(lines, i - 1);
      hide LinesOk;
      ShadowStep(sec, CtrlAt(lines, i - 1), lines[i - 1]);
    }
  }

  lemma ShadowStart(sec: Section)
    ensures Shadow(sec, START) == Scan(false, false)
  {}

  /** The mutator hits exactly the line the parser files under that section and key. */
  lemma {:induction false} HitIsSlot(lines: seq<string>, sec: Section, key: string, i: nat)
    requires LinesOk(lines) && i < |lines| && WordKey(key)
    ensures Hits(lines, sec, key, i) <==> Slot(lines, i) == Some((sec, key))
  {
    hide Next;
    hide ScanNext;
    hide Tries;
    hide Kv;
    hide LooseKey;
    hide MatchField;
    hide CleanRaw;
    hide KindOf;
    hide IsWord;
    Simulation(lines, sec, i);
    assert LineOkAt(lines, i);
    var c := CtrlAt(lines, i);
    ShadowStep(sec, c, lines[i]);
    MatchIsLoose(lines[i], key);
    if Kv(lines[i]).Some? { KvIsLoose(lines[i]); }
  }

  lemma {:induction false} FirstHitIs(lines: seq<string>, sec: Section, key: string, i: nat)
    requires WellFormed(lines) && i < |lines| && Slot(lines, i) == Some((sec, key))
    ensures FirstHit(lines, sec, key, 0) == Some(i) && WordKey(key)
  {
    hide Slot;
    hide LinesOk;
    hide Hits;
    hide IsWord;
    SlotKey(lines, i);
    HitIsSlot(lines, sec, key, i);
    var h := FirstHit(lines, sec, key, 0);
    FirstHitFound(lines, sec, key, 0);
    assert h.Some?;
    HitIsSlot(lines, sec, key, h.value);
  }

  lemma {:induction false} SlotKey(lines: seq<string>, i: nat)
    requires i < |lines| && Slot(lines, i).Some?
    ensures WordKey(Slot(lines, i).value.1)
    ensures Kv(lines[i]).Some? && KindOf(lines[i]) == Body
    ensures Kv(lines[i]).value.key == Slot(lines, i).value.1
  {
    hide Kv;
    hide LooseKey;
    hide IsWord;
    KvIsLoose(lines[i]);
  }

  // ---------------------------------------------------------------- names of fields

  ghost predicate Placed(sec: Section, key: string) {
    WordKey(key) && (sec == Phase ==> !("phase." <= key))
  }

  lemma Prefixes(s: string)
    ensures "phase." <= s ==> s[0] == 'p'
    ensures "next_pass." <= s ==> s[0] == 'n'
    ensures "last_pass." <= s ==> s[0] == 'l'
    ensures "transition_" <= s ==> s[0] == 't'
  {
    assert "phase."[0] == 'p' && "next_pass."[0] == 'n' && "last_pass."[0] == 'l' && "transition_"[0] == 't';
  }

  /** A field name leads the mutator back to the section and the key it was made from. */
  lemma CanonInverse(sec: Section, key: string)
    requires Placed(sec, key)
    ensures TargetOf(Canon(sec, key)) == Some(sec) && YamlKey(Canon(sec, key)) == key
    ensures Canon(sec, key) != "slug" && Canon(sec, key) != "is_draft" && Canon(sec, key) != "has_blockers"
  {
    var f := Canon(sec, key);
    Prefixes(f);
    if sec == Phase && "transition_" <= key {
      assert !("phase." <= f);
      assert "slug"[0] == 's' && "is_draft"[0] == 'i' && "has_blockers"[0] == 'h';
    } else {
      var p := Name(sec) + ".";
      assert p == "phase." || p == "next_pass." || p == "last_pass.";
      assert p <= f && f[|p|..] == key;
      assert p[0] == f[0] && "slug"[0] == 's' && "is_draft"[0] == 'i' && "has_blockers"[0] == 'h';
    }
  }

  // ---------------------------------------------------------------- one rewritten line

  lemma WordStartsBody(line: string)
    requires Strip(line) != "" && IsWord(Strip(line)[0])
    ensures KindOf(line) == Body
  {
    hide Strip;
    var s := Strip(line);
    assert Header(Phase)[0] == '#' && Header(LastPass)[0] == '#' && Header(NextPass)[0] == '#' && "## "[0] == '#';
    assert "```yaml"[0] == '`' && "```"[0] == '`';
  }

  /** A rewritten line, by itself: a body line with the same key, the new value and the old comment. */
  lemma {:induction false} NewKv(line: string, v: string)
    requires Kv(line).Some? && Storable(v)
    ensures MatchField(line, Kv(line).value.key).Some?
    ensures var kv := Kv(line).value;
            var nl := NewLine(line, kv.key, v);
            var raw := Render(v) + SplitComment(kv.raw).comment;
            && KindOf(nl) == Body && Kv(nl) == Some(kv.(raw := raw))
            && raw != "" && CleanRaw(raw) && Meaning(raw) == Stored(v)
            && SplitComment(raw).comment == SplitComment(kv.raw).comment
  {
    hide IsSpace;
    hide IsWord;
    hide LooseKey;
    hide MatchField;
    hide NewLine;
    hide Render;
    hide Storable;
    hide CleanText;
    hide SplitComment;
    hide KindOf;
    RenderFacts(v);
    Rewrite(line, v);
    KvIsLoose(line);
    CommentOf(line);
    hide Kv;
    var kv := Kv(line).value;
    WordStartsBody(NewLine(line, kv.key, v));
    CommentApart(Render(v), SplitComment(kv.raw).comment);
  }

  /** What a rewritten line is to the parser. */
  lemma {:induction false} RewrittenLine(c: Ctrl, line: string, v: string)
    requires LineOk(c, line) && Value(c, line).Some? && Storable(v)
    ensures MatchField(line, KeyLine(c, line).value.key).Some?
    ensures var kv := KeyLine(c, line).value;
            var nl := NewLine(line, kv.key, v);
            && LineOk(c, nl) && Next(c, nl) == Next(c, line)
            && KeyLine(c, nl).Some? && KeyLine(c, nl).value.key == kv.key
            && Value(c, nl).Some? && Value(c, nl).value.0 == Value(c, line).value.0
            && CleanRaw(Value(c, nl).value.1) && Meaning(Value(c, nl).value.1) == Stored(v)
            && SplitComment(Value(c, nl).value.1).comment == SplitComment(kv.raw).comment
  {
    hide IsSpace;
    hide IsWord;
    hide Kv;
    hide LooseKey;
    hide MatchField;
    hide NewLine;
    hide Render;
    hide Storable;
    hide CleanRaw;
    hide Meaning;
    hide KindOf;
    hide SplitComment;
    NewKv(line, v);
  }

  lemma {:induction false} CommentOf(line: string)
    requires Kv(line).Some?
    ensures CommentText(SplitComment(Kv(line).value.raw).comment)
  {
    hide IsSpace;
    hide IsWord;
    CommentShape(Kv(line).value.raw);
  }

  lemma {:induction false} RenderFacts(v: string)
    requires Storable(v)
    ensures var r := Render(v);
            CleanText(r) && Inner(r) == Stored(v) && BreakFree(r) && Trimmed(r, SPACES) && r != ""
            && !Contains(r, "  #")
  {
    hide Render;
    hide Storable;
    hide IsSpace;
    RenderClean(v);
  }

  // ---------------------------------------------------------------- fields of a document

  /** A field's value line, from the field's name. */
  lemma {:induction false} FieldLine(lines: seq<string>, n: nat, f: string) returns (i: nat)
    requires n <= |lines| && f in Cells(lines, n)
    ensures i < n && ValueAt(lines, i).Some? && ValueAt(lines, i).value.0 == f
    ensures Cells(lines, n)[f] == Meaning(ValueAt(lines, i).value.1)
  {
    hide ValueAt;
    hide Meaning;
    var v := ValueAt(lines, n - 1);
    if v.Some? && v.value.0 == f { i := n - 1; } else { i := FieldLine(lines, n - 1, f); }
  }

  /** A value line stands at a known slot, and its name leads back to that slot. */
  lemma {:induction false} ValueSlot(lines: seq<string>, i: nat)
    requires LinesOk(lines) && i < |lines| && ValueAt(lines, i).Some?
    ensures Slot(lines, i).Some?
    ensures var (sec, key) := Slot(lines, i).value; var (f, raw) := ValueAt(lines, i).value;
            && f == Canon(sec, key) && TargetOf(f) == Some(sec) && YamlKey(f) == key && WordKey(key)
            && f != "slug" && f != "is_draft" && f != "has_blockers"
            && KeyLine(CtrlAt(lines, i), lines[i]) == Kv(lines[i]) && Kv(lines[i]).Some?
            && Kv(lines[i]).value.key == key && Kv(lines[i]).value.raw == raw && raw != ""
            && CleanRaw(raw) && Dotted(CtrlAt(lines, i), Kv(lines[i]).value) == f
  {
    hide IsWord;
    hide Kv;
    hide CleanRaw;
    hide Canon;
    hide Dotted;
    hide TargetOf;
    hide YamlKey;
    hide Next;
    hide KindOf;
    assert LineOkAt(lines, i);
    SlotKey(lines, i);
    var (sec, key) := Slot(lines, i).value;
    CanonInverse(sec, key);
  }

  lemma {:induction false} SlotsApart(lines: seq<string>, i: nat, j: nat)
    requires WellFormed(lines) && i < |lines| && j < |lines|
    requires Slot(lines, i).Some? && Slot(lines, i) == Slot(lines, j)
    ensures i == j
  {
    hide Slot;
    hide LinesOk;
  }

  lemma {:induction false} NamesDistinct(lines: seq<string>, i: nat, j: nat)
    requires WellFormed(lines) && i < |lines| && j < |lines|
    requires ValueAt(lines, i).Some? && ValueAt(lines, j).Some?
    requires ValueAt(lines, i).value.0 == ValueAt(lines, j).value.0
    ensures i == j
  {
    hide LinesOk;
    hide KeysDistinct;
    hide ValueAt;
    hide Slot;
    hide CtrlAt;
    hide TargetOf;
    hide YamlKey;
    hide Canon;
    hide Dotted;
    hide WordKey;
    hide CleanRaw;
    hide Kv;
    ValueSlot(lines, i);
    ValueSlot(lines, j);
    var si, sj := Slot(lines, i).value, Slot(lines, j).value;
    assert si.0 == sj.0 && si.1 == sj.1;
    assert si == sj;
    SlotsApart(lines, i, j);
  }

  lemma {:induction false} SameCtrl(lines: seq<string>, i: nat, nl: string, j: nat)
    requires i < |lines| && j <= |lines|
    requires Next(CtrlAt(lines, i), nl) == Next(CtrlAt(lines, i), lines[i])
    ensures CtrlAt(lines[i := nl], j) == CtrlAt(lines, j)
  {
    hide Next;
    if j > 0 {
      SameCtrl(lines, i, nl, j - 1);
    }
  }

  /** The document after its value line i was rewritten. */
  function Put(lines: seq<string>, i: nat, v: string): seq<string>
    requires i < |lines| && KeyLine(CtrlAt(lines, i), lines[i]).Some?
    requires MatchField(lines[i], KeyLine(CtrlAt(lines, i), lines[i]).value.key).Some?
  {
    lines[i := NewLine(lines[i], KeyLine(CtrlAt(lines, i), lines[i]).value.key, v)]
  }

  /** Rewriting a value line keeps the document well-formed and every other line's role; the line itself
      changes its value only, and keeps its comment. */
  lemma {:induction false} PutLine(lines: seq<string>, i: nat, v: string)
    requires WellFormed(lines) && i < |lines| && ValueAt(lines, i).Some? && Storable(v)
    ensures MatchField(lines[i], KeyLine(CtrlAt(lines, i), lines[i]).value.key).Some?
    ensures var after := Put(lines, i, v);
            && WellFormed(after) && |after| == |lines|
            && (forall j :: 0 <= j < |lines| && j != i ==> ValueAt(after, j) == ValueAt(lines, j))
            && (forall j :: 0 <= j < |lines| ==> Slot(after, j) == Slot(lines, j))
            && ValueAt(after, i).Some? && ValueAt(after, i).value.0 == ValueAt(lines, i).value.0
            && CleanRaw(ValueAt(after, i).value.1) && Meaning(ValueAt(after, i).value.1) == Stored(v)
            && SplitComment(ValueAt(after, i).value.1).comment == SplitComment(ValueAt(lines, i).value.1).comment
  {
    hide CleanRaw;
    hide Meaning;
    hide SplitComment;
    hide Storable;
    hide MatchField;
    hide NewLine;
    hide LineOk;
    hide Next;
    hide Kv;
    hide KindOf;
    assert LineOkAt(lines, i);
    var c := CtrlAt(lines, i);
    RewrittenLine(c, lines[i], v);
    var after := Put(lines, i, v);
    forall j | 0 <= j <= |lines| ensures CtrlAt(after, j) == CtrlAt(lines, j) {
      SameCtrl(lines, i, after[i], j);
    }
    hide CtrlAt;
    assert LinesOk(after) by {
      forall j | 0 <= j < |after| ensures LineOkAt(after, j) { assert LineOkAt(lines, j); }
    }
    assert forall j :: 0 <= j < |after| ==> Slot(after, j) == Slot(lines, j);
    hide Slot;
  }

  // ---------------------------------------------------------------- the laws

  lemma {:induction false} CellsPut(lines: seq<string>, after: seq<string>, i: nat, f: string, m: string, n: nat)
    requires |after| == |lines| && i < |lines| && n <= |lines|
    requires forall j :: 0 <= j < |lines| && j != i ==> ValueAt(after, j) == ValueAt(lines, j)
    requires forall j :: 0 <= j < |lines| && j != i && ValueAt(lines, j).Some? ==> ValueAt(lines, j).value.0 != f
    requires ValueAt(lines, i).Some? && ValueAt(lines, i).value.0 == f
    requires ValueAt(after, i).Some? && ValueAt(after, i).value.0 == f && Meaning(ValueAt(after, i).value.1) == m
    ensures Cells(after, n) == if i < n then Cells(lines, n)[f := m] else Cells(lines, n)
  {
    hide ValueAt;
    hide Meaning;
    if n > 0 {
      CellsPut(lines, after, i, f, m, n - 1);
      var v := ValueAt(lines, n - 1);
      if n - 1 != i && i < n && v.Some? {
        assert Cells(lines, n - 1)[f := m][v.value.0 := Meaning(v.value.1)]
            == Cells(lines, n - 1)[v.value.0 := Meaning(v.value.1)][f := m];
      }
    }
  }

  function Doc(lines: seq<string>): map<string, string> { Cells(lines, |lines|) }

  /** Writing an existing field: the document says the new value there and the same everywhere else,
      stays well-formed, and the old value reported is what the document said. */
  lemma {:induction false} WriteField(lines: seq<string>, f: string, v: string)
    requires WellFormed(lines) && f in Doc(lines) && Storable(v)
    ensures var (after, old_) := Mutate(lines, f, v);
            && WellFormed(after) && |after| == |lines|
            && (forall j :: 0 <= j < |lines| ==> Slot(after, j) == Slot(lines, j))
            && Doc(after) == Doc(lines)[f := Stored(v)]
            && old_ == Doc(lines)[f]
  {
    hide Slot;
    hide LinesOk;
    hide KeysDistinct;
    hide ValueAt;
    hide CtrlAt;
    hide Cells;
    hide Meaning;
    hide Mutate;
    hide Put;
    hide Storable;
    hide MatchField;
    hide KeyLine;
    hide CleanRaw;
    hide SplitComment;
    var i := FieldLine(lines, |lines|, f);
    MutateIsPut(lines, f, v, i);
    PutLine(lines, i, v);
    var after := Put(lines, i, v);
    forall j | 0 <= j < |lines| && j != i && ValueAt(lines, j).Some? ensures ValueAt(lines, j).value.0 != f {
      if ValueAt(lines, j).value.0 == f { NamesDistinct(lines, i, j); }
    }
    CellsPut(lines, after, i, f, Stored(v), |lines|);
  }

  lemma {:induction false} MutateHit(lines: seq<string>, f: string, v: string, i: nat)
    requires i < |lines| && Kv(lines[i]).Some? && YamlKey(f) == Kv(lines[i]).value.key
    requires TargetOf(f).Some? && FirstHit(lines, TargetOf(f).value, YamlKey(f), 0) == Some(i)
    ensures MatchField(lines[i], YamlKey(f)).Some?
    ensures Mutate(lines, f, v) ==
            (lines[i := NewLine(lines[i], YamlKey(f), v)], OldValue(Kv(lines[i]).value.raw))
  {
    hide TargetOf;
    hide YamlKey;
    hide FirstHit;
    hide Kv;
    hide MatchField;
    hide NewLine;
    hide OldValue;
    hide Strip;
    RawOf(lines[i]);
  }

  lemma {:induction false} MutateIsPut(lines: seq<string>, f: string, v: string, i: nat)
    requires WellFormed(lines) && i < |lines| && ValueAt(lines, i).Some? && ValueAt(lines, i).value.0 == f
    ensures KeyLine(CtrlAt(lines, i), lines[i]).Some?
    ensures MatchField(lines[i], KeyLine(CtrlAt(lines, i), lines[i]).value.key).Some?
    ensures Mutate(lines, f, v) == (Put(lines, i, v), Meaning(ValueAt(lines, i).value.1))
  {
    hide LinesOk;
    hide KeysDistinct;
    hide ValueAt;
    hide Slot;
    hide CtrlAt;
    hide TargetOf;
    hide YamlKey;
    hide Canon;
    hide Dotted;
    hide WordKey;
    hide CleanRaw;
    hide Kv;
    hide Meaning;
    hide OldValue;
    hide NewLine;
    hide MatchField;
    hide KeyLine;
    hide Mutate;
    ValueSlot(lines, i);
    var (sec, key) := Slot(lines, i).value;
    FirstHitIs(lines, sec, key, i);
    MutateHit(lines, f, v, i);
    ReadersAgree(ValueAt(lines, i).value.1);
  }

  lemma {:induction false} RawOf(line: string)
    requires Kv(line).Some?
    ensures MatchField(line, Kv(line).value.key).Some?
    ensures Strip(line[MatchField(line, Kv(line).value.key).value.1 + 1..]) == Kv(line).value.raw
  {
    hide *;
    var ind, gap, rest := KvParts(line);
  }

  // ---------------------------------------------------------------- what the engine's parser reads

  function NonNull(m: map<string, string>): map<string, string> {
    map f | f in m && !IsNull(m[f]) :: m[f]
  }

  lemma {:induction false} EntryIs(lines: seq<string>, i: nat)
    requires LinesOk(lines) && i < |lines|
    ensures Entry(CtrlAt(lines, i), lines[i]) ==
            match ValueAt(lines, i)
            case None => None
            case Some((f, raw)) => if IsNull(Meaning(raw)) then None else Some((f, Meaning(raw)))
  {
    hide LinesOk;
    hide CtrlAt;
    hide Canon;
    hide Dotted;
    hide WordKey;
    hide TargetOf;
    hide YamlKey;
    hide CleanRaw;
    hide Kv;
    hide IsNull;
    hide Meaning;
    if ValueAt(lines, i).Some? {
      ValueSlot(lines, i);
      var (f, raw) := ValueAt(lines, i).value;
      ReadersAgree(raw);
      hide ReadRaw;
    } else {
      assert ReadRaw("").None?;
      hide ReadRaw;
    }
  }

  /** The parser stores exactly what the document says, less the null markers; that an earlier entry is
      never overwritten does not matter here. */
  lemma {:induction false} FieldsAreCells(lines: seq<string>, n: nat, base: map<string, string>)
    requires WellFormed(lines) && n <= |lines|
    requires forall k :: k in base ==> k == "slug" || k == "is_draft"
    ensures Fields(lines, n, base) == base + NonNull(Cells(lines, n))
  {
    hide LinesOk;
    hide KeysDistinct;
    hide ValueAt;
    hide Entry;
    hide CtrlAt;
    hide Meaning;
    hide IsNull;
    if n > 0 {
      FieldsAreCells(lines, n - 1, base);
      EntryIs(lines, n - 1);
      var m := Cells(lines, n - 1);
      hide NonNull;
      if ValueAt(lines, n - 1).Some? {
        var (f, raw) := ValueAt(lines, n - 1).value;
        NewName(lines, n - 1, f);
        NameNotReserved(lines, n - 1);
        Grow(base, m, f, Meaning(raw));
      }
    } else {
      assert NonNull(map[]) == map[];
    }
  }

  lemma Grow(base: map<string, string>, m: map<string, string>, f: string, v: string)
    requires f !in base && f !in m
    ensures f !in base + NonNull(m)
    ensures base + NonNull(m[f := v]) == if IsNull(v) then base + NonNull(m) else (base + NonNull(m))[f := v]
  {
    hide IsNull;
    if IsNull(v) { assert NonNull(m[f := v]) == NonNull(m); }
  }

  lemma {:induction false} NewName(lines: seq<string>, n: nat, f: string)
    requires WellFormed(lines) && n < |lines| && ValueAt(lines, n).Some? && ValueAt(lines, n).value.0 == f
    ensures f !in Cells(lines, n)
  {
    hide LinesOk;
    hide KeysDistinct;
    hide ValueAt;
    hide Meaning;
    if f in Cells(lines, n) {
      var i := FieldLine(lines, n, f);
      NamesDistinct(lines, i, n);
    }
  }

  lemma {:induction false} NameNotReserved(lines: seq<string>, n: nat)
    requires LinesOk(lines) && n < |lines| && ValueAt(lines, n).Some?
    ensures ValueAt(lines, n).value.0 !in {"slug", "is_draft", "has_blockers"}
  {
    hide LinesOk;
    hide ValueAt;
    ValueSlot(lines, n);
  }

  // ---------------------------------------------------------------- writing twice, writing nowhere

  /** Of two writes to a field only the last one shows, to the letter. */
  lemma {:induction false} WriteTwice(lines: seq<string>, f: string, v: string, w: string)
    requires WellFormed(lines) && f in Doc(lines) && Storable(v)
    ensures Mutate(Mutate(lines, f, v).0, f, w).0 == Mutate(lines, f, w).0
  {
    hide LinesOk;
    hide KeysDistinct;
    hide ValueAt;
    hide CtrlAt;
    hide Meaning;
    hide Mutate;
    hide Storable;
    hide MatchField;
    hide KeyLine;
    hide CleanRaw;
    hide SplitComment;
    hide NewLine;
    hide Kv;
    var i := FieldLine(lines, |lines|, f);
    MutateIsPut(lines, f, v, i);
    MutateIsPut(lines, f, w, i);
    PutLine(lines, i, v);
    var after := Put(lines, i, v);
    MutateIsPut(after, f, w, i);
    KeyLineIs(lines, i);
    KeyLineIs(after, i);
    assert after[i] == NewLine(lines[i], KeyLine(CtrlAt(lines, i), lines[i]).value.key, v);
    RenderFacts(v);
    RewriteTwice(lines[i], v, w);
    Rewrite(lines[i], v);
    assert Put(after, i, w) == Put(lines, i, w);
  }

  lemma KeyLineIs(lines: seq<string>, i: nat)
    requires i < |lines| && ValueAt(lines, i).Some?
    ensures KeyLine(CtrlAt(lines, i), lines[i]) == Kv(lines[i]) && Kv(lines[i]).Some?
  {
    hide Kv;
    hide KindOf;
    hide CtrlAt;
  }

  /** A field the document has no line for: nothing is written, and the mutator reports "". */
  lemma {:induction false} WriteAbsent(lines: seq<string>, sec: Section, key: string, v: string)
    requires WellFormed(lines) && Placed(sec, key)
    requires forall i :: 0 <= i < |lines| ==> Slot(lines, i) != Some((sec, key))
    ensures Mutate(lines, Canon(sec, key), v) == (lines, "")
  {
    hide LinesOk;
    hide KeysDistinct;
    hide Slot;
    hide Hits;
    hide WordKey;
    hide TargetOf;
    hide YamlKey;
    hide Canon;
    CanonInverse(sec, key);
    var h := FirstHit(lines, sec, key, 0);
    FirstHitFound(lines, sec, key, 0);
    if h.Some? {
      HitIsSlot(lines, sec, key, h.value);
    }
  }

  // ---------------------------------------------------------------- the whole file

  lemma {:induction false} BlockersPut(lines: seq<string>, i: nat, nl: string, k: nat, seen: bool)
    requires i < |lines| && k <= |lines|
    requires !Contains(lines[i], "## Blockers") && !Contains(nl, "## Blockers")
    requires Strip(lines[i]) != "" && Strip(nl) != ""
    requires IsWord(Strip(lines[i])[0]) && IsWord(Strip(nl)[0])
    ensures Blockers(lines[i := nl], k, seen) == Blockers(lines, k, seen)
    decreases |lines| - k
  {
    hide IsWord;
    hide Strip;
    hide Contains;
    hide IsRule;
    if k < |lines| {
      BlockersPut(lines, i, nl, k + 1, true);
      BlockersPut(lines, i, nl, k + 1, false);
      if k == i {
        NotARow(lines[i]);
        NotARow(nl);
      }
      hide FilledRow;
      hide StartsSection;
    }
  }

  lemma NotARow(line: string)
    requires Strip(line) != "" && IsWord(Strip(line)[0])
    ensures !FilledRow(line) && !StartsSection(Strip(line))
  {
    hide Strip;
    hide IsRule;
    assert "|"[0] == '|' && "## "[0] == '#';
  }
}
