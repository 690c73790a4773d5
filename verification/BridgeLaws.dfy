/** The engine's two-level parser and the bridge's flattener read the same document the same way. */
module BridgeLaws {
  import opened Text
  import opened Wrappers
  import opened YamlLine
  import opened Longrunner
  import opened LensLaws
  import opened BridgeParser

  predicate Blank(line: string) { Strip(line) == "" || Strip(line)[0] == '#' }

  /** The line the bridge needs as the block's first entry: `phase:` and the like. */
  predicate Marker(line: string, sec: Section, indent: nat) {
    Kv(line) == Some(KvLine(indent, Name(sec), ""))
  }

  /** A value line the bridge files under its key: no dot at the end of the key. */
  predicate PlainValue(lines: seq<string>, i: nat, sec: Section, indent: nat)
    requires i < |lines|
  {
    && ValueAt(lines, i).Some? && CtrlAt(lines, i).sec == Some(sec)
    && Kv(lines[i]).Some? && Kv(lines[i]).value.indent == indent
    && Kv(lines[i]).value.key != "" && Kv(lines[i]).value.key[|Kv(lines[i]).value.key| - 1] != '.'
  }

  /** The block of a section: the marker first, then values at one depth; blanks and comment lines anywhere. */
  ghost predicate Layout(lines: seq<string>, sec: Section, p: nat, m: nat, n: nat) {
    && BlockSpan(lines, Title(sec)).Some?
    && var s := BlockSpan(lines, Title(sec)).value;
    && s.open < p < s.end && m < n
    && Marker(lines[p], sec, m)
    && (forall i :: s.open < i < p ==> Blank(lines[i]))
    && (forall i :: p < i < s.end ==> Blank(lines[i]) || PlainValue(lines, i, sec, n))
    && Blank(lines[s.end][..Find(lines[s.end], "```", 0)])
    && (forall i :: 0 <= i < |lines| && ValueAt(lines, i).Some? && CtrlAt(lines, i).sec == Some(sec) ==>
                    p < i < s.end && PlainValue(lines, i, sec, n))
  }

  function BridgeName(sec: Section, key: string): string { Name(sec) + "." + key }

  /** What the bridge shows for a field of the document: nothing for its null markers. */
  function Show(d: map<string, string>, f: string): string {
    if f in d && !BridgeNull(d[f]) then d[f] else ""
  }

  /** What the bridge takes for the value: it knows quotes but no comments. */
  function BridgeText(raw: string): string { StripOf(raw, QUOTES) }

  /** No comment stands behind the field's value. */
  ghost predicate Uncommented(lines: seq<string>, f: string) {
    forall i :: 0 <= i < |lines| && ValueAt(lines, i).Some? && ValueAt(lines, i).value.0 == f ==>
      SplitComment(ValueAt(lines, i).value.1).comment == ""
  }

  // ---------------------------------------------------------------- one line of the flattener

  lemma {:induction false} CleanIsBare(t: string)
    requires CleanText(t)
    ensures StripOf(t, QUOTES) == Inner(t)
  {
    hide IsSpace;
    if Quoted(t, '"') || Quoted(t, '\'') {
      var m := Inner(t);
      assert t == [t[0]] + m + [t[0]];
      StripPadded([t[0]], m, [t[0]], QUOTES);
    }
  }

  lemma {:induction false} KeyAndGap(key: string, gap: string)
    requires WordKey(key) && forall k :: 0 <= k < |gap| ==> gap[k] == ' '
    ensures StripOf(Strip(key + gap), QUOTES) == key
    ensures Upto(key + gap, 0, ':') == |key + gap|
  {
    hide IsSpace;
    CharClasses();
    KeyEnds(key);
    hide IsWord;
    hide WordKey;
    StripPadded("", key, gap, SPACES);
    assert "" + key + gap == key + gap;
  }

  lemma KeyEnds(key: string)
    requires WordKey(key)
    ensures Trimmed(key, SPACES) && Trimmed(key, QUOTES) && key[0] != '.'
    ensures forall k :: 0 <= k < |key| ==> key[k] != ':'
  {
    hide IsSpace;
    CharClasses();
    assert '"' !in KEY_CHARS && '\'' !in KEY_CHARS && ':' !in KEY_CHARS;
  }

  /** The cut at the first colon of a key line is the cut the engine makes. */
  lemma {:induction false} ColonCut(line: string)
    requires Kv(line).Some?
    ensures var kv := Kv(line).value;
            var s := line[Skip(line, 0, SPACES)..];
            var c := Upto(s, 0, ':');
            && Skip(line, 0, SPACES) == kv.indent && c < |s|
            && StripOf(Strip(s[..c]), QUOTES) == kv.key && Strip(s[c + 1..]) == kv.raw
            && Strip(line) != "" && Strip(line)[0] == kv.key[0]
  {
    hide IsSpace;
    hide IsWord;
    hide StripOf;
    hide Strip;
    hide LooseKey;
    hide MatchField;
    hide WordKey;
    KeyLineStart(line);
    var ind, gap, rest := KvParts(line);
    CutParts(ind, Kv(line).value.key, gap, rest, line);
  }

  lemma {:induction false} CutParts(ind: string, key: string, gap: string, rest: string, line: string)
    requires line == ind + key + gap + ":" + rest && WordKey(key)
    requires forall k :: 0 <= k < |gap| ==> gap[k] == ' '
    ensures var s := line[|ind|..]; var c := Upto(s, 0, ':');
            c < |s| && StripOf(Strip(s[..c]), QUOTES) == key && s[c + 1..] == rest
  {
    hide IsSpace;
    hide IsWord;
    hide StripOf;
    hide Strip;
    KeyAndGap(key, gap);
    hide WordKey;
    var s := key + gap + ":" + rest;
    assert line[|ind|..] == s by { assert line == ind + s; }
    UptoIs(s, 0, ':', |key + gap|);
    assert s[..|key + gap|] == key + gap && s[|key + gap| + 1..] == rest;
  }

  lemma {:induction false} KeyLineStart(line: string)
    requires Kv(line).Some?
    ensures Strip(line) != "" && Strip(line)[0] == Kv(line).value.key[0]
  {
    hide IsSpace;
    hide IsWord;
    hide Strip;
    hide LooseKey;
    hide MatchField;
    var kv := Kv(line).value;
    var ind, gap, rest := KvParts(line);
    hide Kv;
    WordFirst(kv.key);
    var s := kv.key + gap + ":" + rest;
    assert line == ind + s;
    StripStart(ind, s, line);
  }

  lemma WordFirst(key: string)
    requires WordKey(key)
    ensures key[0] !in SPACES && key[0] != '#' && key[0] != '.'
  {
    hide IsSpace;
    CharClasses();
  }

  predicate StackOk(stack: Stack, sec: Section, m: nat, n: nat) {
    && 1 <= |stack| <= 2 && stack[0] == (m, Name(sec))
    && (|stack| == 2 ==> stack[1].0 == n)
  }

  lemma {:induction false} PopTo(stack: Stack, sec: Section, m: nat, n: nat)
    requires StackOk(stack, sec, m, n) && m < n
    ensures Pop(stack, n) == [(m, Name(sec))]
  {
    if |stack| == 2 {
      assert stack[..1] == [stack[0]];
      assert Pop(stack[..1], n) == stack[..1];
    } else {
      assert stack == [stack[0]];
    }
  }

  lemma {:induction false} FullName(sec: Section, key: string)
    requires WordKey(key) && key[|key| - 1] != '.'
    ensures StripOf(Name(sec) + "." + key, {'.'}) == BridgeName(sec, key)
  {
    assert Name(sec)[0] != '.';
  }

  /** The flattener on a value line below the marker. */
  lemma {:induction false} ValueStep(f: Flat, line: string, sec: Section, m: nat, n: nat)
    requires Kv(line).Some? && Kv(line).value.indent == n && m < n && StackOk(f.stack, sec, m, n)
    requires WordKey(Kv(line).value.key) && Kv(line).value.key[|Kv(line).value.key| - 1] != '.'
    ensures var kv := Kv(line).value;
            FlatStep(f, line) ==
            if BridgeNull(BridgeText(kv.raw))
            then Flat(f.out, [(m, Name(sec)), (n, BridgeName(sec, kv.key))])
            else Flat(Assign(f.out, BridgeName(sec, kv.key), BridgeText(kv.raw)), [(m, Name(sec))])
  {
    hide IsSpace;
    hide IsWord;
    hide StripOf;
    hide Strip;
    hide BridgeNull;
    hide Assign;
    hide CleanText;
    hide Pop;
    var kv := Kv(line).value;
    WordFirst(kv.key);
    ColonCut(line);
    hide Kv;
    hide WordKey;
    PopTo(f.stack, sec, m, n);
    FullName(sec, kv.key);
    hide Name;
  }

  lemma {:induction false} NoCommentRaw(raw: string)
    requires CleanRaw(raw) && SplitComment(raw).comment == ""
    ensures SplitComment(raw).text == raw && CleanText(raw) && Meaning(raw) == Inner(raw)
  {
    hide IsSpace;
    hide CleanText;
    CommentIff(raw);
  }

  lemma CommentIff(raw: string)
    ensures SplitComment(raw).comment == "" <==> Find(raw, "  #", 0) == -1
  {
    var h := Find(raw, "  #", 0);
    if h != -1 { assert |raw[h..]| >= 3; }
  }

  // ---------------------------------------------------------------- the block as a whole

  /** The items the bridge collects from lines up to i. */
  function Expected(lines: seq<string>, sec: Section, p: nat, i: nat): Items
    requires p < i <= |lines|
  {
    if i == p + 1 then [] else
    var m := Expected(lines, sec, p, i - 1);
    match ValueAt(lines, i - 1)
    case None => m
    case Some((f, raw)) =>
      if BridgeNull(BridgeText(raw)) || Kv(lines[i - 1]).None? then m
      else m + [(BridgeName(sec, Kv(lines[i - 1]).value.key), BridgeText(raw))]
  }

  lemma {:induction false} FromLine(lines: seq<string>, sec: Section, p: nat, i: nat, j: nat) returns (k: nat)
    requires p < i <= |lines| && j < |Expected(lines, sec, p, i)|
    ensures p < k < i && ValueAt(lines, k).Some? && Kv(lines[k]).Some?
    ensures Expected(lines, sec, p, i)[j].0 == BridgeName(sec, Kv(lines[k]).value.key)
  {
    hide ValueAt;
    hide Kv;
    hide BridgeText;
    hide BridgeNull;
    if j < |Expected(lines, sec, p, i - 1)| {
      k := FromLine(lines, sec, p, i - 1, j);
    } else {
      k := i - 1;
    }
  }

  lemma BridgeNameInjective(sec: Section, a: string, b: string)
    requires BridgeName(sec, a) == BridgeName(sec, b)
    ensures a == b
  {
    var n := Name(sec) + ".";
    assert (n + a)[|n|..] == a && (n + b)[|n|..] == b;
  }

  /** Two value lines of one section have different keys. */
  lemma {:induction false} KeysApart(lines: seq<string>, sec: Section, i: nat, j: nat)
    requires WellFormed(lines) && i < j < |lines|
    requires ValueAt(lines, i).Some? && CtrlAt(lines, i).sec == Some(sec)
    requires ValueAt(lines, j).Some? && CtrlAt(lines, j).sec == Some(sec)
    ensures Kv(lines[i]).Some? && Kv(lines[j]).Some? && Kv(lines[i]).value.key != Kv(lines[j]).value.key
  {
    hide LinesOk;
    hide Kv;
    hide KindOf;
    hide Next;
    hide Canon;
    KeyLineIs(lines, i);
    KeyLineIs(lines, j);
    assert Slot(lines, i) != Slot(lines, j);
  }

  lemma {:induction false} MarkerStep(line: string, sec: Section, m: nat)
    requires Marker(line, sec, m)
    ensures FlatStep(Flat([], []), line) == Flat([], [(m, Name(sec))])
  {
    hide IsSpace;
    hide IsWord;
    hide Strip;
    hide StripOf;
    ColonCut(line);
    hide Kv;
    KvNameFirst(line, sec, m);
    MarkerTexts(sec);
    assert [] + [(m, Name(sec))] == [(m, Name(sec))];
  }

  lemma KvNameFirst(line: string, sec: Section, m: nat)
    requires Marker(line, sec, m)
    ensures Name(sec)[0] != '#'
  {}

  lemma MarkerTexts(sec: Section)
    ensures StripOf("", QUOTES) == "" && StripOf("" + Name(sec), {'.'}) == Name(sec) && BridgeNull("")
  {
    assert "" + Name(sec) == Name(sec);
    assert Trimmed(Name(sec), {'.'});
    hide StripOf;
    assert Trimmed("", QUOTES);
  }

  /** The flattener's state inside the block: the items seen so far, and the marker on the stack. */
  lemma {:induction false} FlattenBlock(lines: seq<string>, sec: Section, p: nat, m: nat, n: nat, i: nat)
    requires WellFormed(lines) && Layout(lines, sec, p, m, n)
    requires BlockSpan(lines, Title(sec)).value.open < i <= BlockSpan(lines, Title(sec)).value.end
    ensures var block := BlockLines(lines, Title(sec));
            var f := Flatten(block, i - BlockSpan(lines, Title(sec)).value.open - 1);
            if i <= p then f == Flat([], [])
            else f.out == Expected(lines, sec, p, i) && StackOk(f.stack, sec, m, n)
  {
    hide WellFormed;
    hide Marker;
    hide Blank;
    hide PlainValue;
    hide ValueAt;
    hide CtrlAt;
    hide Kv;
    hide FlatStep;
    hide BridgeText;
    hide BridgeNull;
    hide Slot;
    hide BridgeName;
    hide Name;
    var s := BlockSpan(lines, Title(sec)).value;
    var block := BlockLines(lines, Title(sec));
    if i > s.open + 1 {
      FlattenBlock(lines, sec, p, m, n, i - 1);
      var f := Flatten(block, i - s.open - 2);
      assert block[i - s.open - 2] == lines[i - 1];
      if i - 1 < p {
        BlankStep(f, lines[i - 1]);
      } else if i - 1 == p {
        MarkerStep(lines[p], sec, m);
      } else if Blank(lines[i - 1]) {
        BlankStep(f, lines[i - 1]);
        BlankNoValue(lines, i - 1);
      } else {
        SectionOfBlock(lines, sec, p, m, n);
        PlainStep(lines, sec, p, m, n, i - 1, f);
      }
    }
  }

  lemma BlankStep(f: Flat, line: string)
    requires Blank(line)
    ensures FlatStep(f, line) == f
  {}

  lemma {:induction false} BlankNoValue(lines: seq<string>, i: nat)
    requires i < |lines| && Blank(lines[i])
    ensures ValueAt(lines, i).None?
  {
    hide CtrlAt;
    hide IsSpace;
    if Kv(lines[i]).Some? {
      ColonCut(lines[i]);
      var ind, gap, rest := KvParts(lines[i]);
      WordFirst(Kv(lines[i]).value.key);
    }
  }

  lemma {:induction false} SectionOfBlock(lines: seq<string>, sec: Section, p: nat, m: nat, n: nat)
    requires Layout(lines, sec, p, m, n)
    ensures forall k :: p < k < BlockSpan(lines, Title(sec)).value.end && ValueAt(lines, k).Some? ==>
                          CtrlAt(lines, k).sec == Some(sec)
  {
    hide ValueAt;
    hide CtrlAt;
    hide Blank;
    hide Kv;
    hide Marker;
    var e := BlockSpan(lines, Title(sec)).value.end;
    forall k | p < k < e && ValueAt(lines, k).Some? ensures CtrlAt(lines, k).sec == Some(sec) {
      if Blank(lines[k]) { BlankNoValue(lines, k); }
    }
  }

  lemma {:induction false} PlainStep(lines: seq<string>, sec: Section, p: nat, m: nat, n: nat, i: nat, f: Flat)
    requires WellFormed(lines) && p < i < |lines| && PlainValue(lines, i, sec, n) && m < n
    requires forall k :: p < k < i && ValueAt(lines, k).Some? ==> CtrlAt(lines, k).sec == Some(sec)
    requires f.out == Expected(lines, sec, p, i) && StackOk(f.stack, sec, m, n)
    ensures FlatStep(f, lines[i]).out == Expected(lines, sec, p, i + 1)
    ensures StackOk(FlatStep(f, lines[i]).stack, sec, m, n)
  {
    hide WellFormed;
    hide Kv;
    hide FlatStep;
    hide BridgeText;
    hide BridgeNull;
    hide Slot;
    hide BridgeName;
    hide CleanRaw;
    hide Canon;
    hide Dotted;
    hide TargetOf;
    hide YamlKey;
    hide WordKey;
    hide SplitComment;
    hide ValueAt;
    hide CtrlAt;
    ValueOf(lines, i);
    ValueStep(f, lines[i], sec, m, n);
    var name := BridgeName(sec, Kv(lines[i]).value.key);
    forall j | 0 <= j < |f.out| ensures f.out[j].0 != name {
      var k := FromLine(lines, sec, p, i, j);
      KeysApart(lines, sec, k, i);
      if f.out[j].0 == name { BridgeNameInjective(sec, Kv(lines[k]).value.key, Kv(lines[i]).value.key); }
    }
  }

  lemma {:induction false} ValueOf(lines: seq<string>, i: nat)
    requires WellFormed(lines) && i < |lines| && ValueAt(lines, i).Some?
    ensures Kv(lines[i]).Some? && Kv(lines[i]).value.raw == ValueAt(lines, i).value.1
    ensures WordKey(Kv(lines[i]).value.key) && CleanRaw(Kv(lines[i]).value.raw)
    ensures CtrlAt(lines, i).sec.Some?
    ensures ValueAt(lines, i).value.0 == Canon(CtrlAt(lines, i).sec.value, Kv(lines[i]).value.key)
  {
    hide Kv;
    hide LinesOk;
    hide KeysDistinct;
    hide WordKey;
    hide CleanRaw;
    hide KindOf;
    hide CtrlAt;
    hide Dotted;
    hide Canon;
    ValueSlot(lines, i);
  }

  // ---------------------------------------------------------------- the two parsers agree

  /** Looking a key up among the items finds the one value line that carries it. */
  lemma {:induction false} LookupFinds(lines: seq<string>, sec: Section, p: nat, i: nat, j: nat)
    requires WellFormed(lines) && p < j < i <= |lines|
    requires forall k :: p < k < i && ValueAt(lines, k).Some? ==> CtrlAt(lines, k).sec == Some(sec)
    requires ValueAt(lines, j).Some?
    ensures Kv(lines[j]).Some?
    ensures Lookup(Expected(lines, sec, p, i), Kv(lines[j]).value.key) ==
            var v := BridgeText(ValueAt(lines, j).value.1); if BridgeNull(v) then "" else v
  {
    hide WellFormed;
    hide ValueAt;
    hide CtrlAt;
    hide Kv;
    hide BridgeText;
    hide BridgeNull;
    hide BridgeName;
    hide Canon;
    hide WordKey;
    hide CleanRaw;
    ValueOf(lines, j);
    var key := Kv(lines[j]).value.key;
    var e := Expected(lines, sec, p, i - 1);
    if i - 1 == j {
      forall k | p < k < j && ValueAt(lines, k).Some?
        ensures Kv(lines[k]).Some? && Kv(lines[k]).value.key != key
      {
        KeysApart(lines, sec, k, j);
      }
      LookupNone(lines, sec, p, j, key);
      LookupLast(e, sec, key, BridgeText(ValueAt(lines, j).value.1), key);
    } else {
      LookupFinds(lines, sec, p, i - 1, j);
      if ValueAt(lines, i - 1).Some? {
        ValueOf(lines, i - 1);
        KeysApart(lines, sec, j, i - 1);
        LookupLast(e, sec, Kv(lines[i - 1]).value.key, BridgeText(ValueAt(lines, i - 1).value.1), key);
      }
    }
  }

  lemma {:induction false} LookupLast(e: Items, sec: Section, k: string, v: string, key: string)
    ensures Lookup(e + [(BridgeName(sec, k), v)], key) == if k == key then v else Lookup(e, key)
  {
    var m := e + [(BridgeName(sec, k), v)];
    assert m[..|m| - 1] == e;
    var b := BridgeName(sec, k);
    NameUndotted(sec);
    assert forall x :: 0 <= x < |Name(sec)| ==> b[x] == Name(sec)[x];
    UptoIs(b, 0, '.', |Name(sec)|);
    assert b[|Name(sec)| + 1..] == k;
    hide Name;
  }

  lemma NameUndotted(sec: Section)
    ensures forall x :: 0 <= x < |Name(sec)| ==> Name(sec)[x] != '.'
  {}

  /** A key that no value line before i carries is not found: the lookup gives "". */
  lemma {:induction false} LookupNone(lines: seq<string>, sec: Section, p: nat, i: nat, key: string)
    requires p < i <= |lines|
    requires forall k :: p < k < i && ValueAt(lines, k).Some? ==>
                           Kv(lines[k]).Some? && Kv(lines[k]).value.key != key
    ensures Lookup(Expected(lines, sec, p, i), key) == ""
  {
    hide ValueAt;
    hide Kv;
    hide BridgeText;
    hide BridgeNull;
    hide BridgeName;
    if i > p + 1 {
      LookupNone(lines, sec, p, i - 1, key);
      if ValueAt(lines, i - 1).Some? {
        LookupLast(Expected(lines, sec, p, i - 1), sec, Kv(lines[i - 1]).value.key,
                   BridgeText(ValueAt(lines, i - 1).value.1), key);
      }
    }
  }

  lemma {:induction false} ValueInCells(lines: seq<string>, n: nat, k: nat)
    requires k < n <= |lines| && ValueAt(lines, k).Some?
    ensures ValueAt(lines, k).value.0 in Cells(lines, n)
  {
    hide ValueAt;
    hide Meaning;
    if k < n - 1 { ValueInCells(lines, n - 1, k); }
  }

  /** What the bridge shows for a raw value: its text, or nothing. */
  function Seen(raw: string): string { if BridgeNull(BridgeText(raw)) then "" else BridgeText(raw) }

  lemma CommentInside(s: string, h: nat, i: nat, j: nat, cs: set<char>)
    requires At(s, h, "  #") && ' ' !in cs && '#' !in cs && i <= |s| && j <= |s|
    requires (forall k :: 0 <= k < i ==> s[k] in cs) && (forall k :: j <= k < |s| ==> s[k] in cs)
    ensures i <= h && h + 3 <= j && At(s[i..j], h - i, "  #")
  {
    var p := s[h..h + 3];
    assert p == "  #" && s[h] == p[0] && s[h + 2] == p[2];
    assert s[h] !in cs && s[h + 2] !in cs;
    assert i <= h && h + 3 <= j;
    var q := s[i..j][h - i..h - i + 3];
    assert forall k :: 0 <= k < 3 ==> q[k] == s[i..j][h - i + k] == s[h + k] == p[k];
  }

  /** Stripping other characters leaves a comment where it is. */
  lemma {:induction false} StripKeeps(s: string, cs: set<char>)
    requires Contains(s, "  #") && ' ' !in cs && '#' !in cs
    ensures Contains(StripOf(s, cs), "  #")
  {
    var h := Text.Find(s, "  #", 0);
    var i, j := Skip(s, 0, cs), SkipBack(s, |s|, cs);
    CommentInside(s, h, i, j, cs);
    hide At;
    var r := s[i..j];
    assert At(r, h - i, "  #");
    ContainsAt(r, "  #");
  }

  lemma {:induction false} CommentStays(t: string, c: string)
    requires "  #" <= c
    ensures Contains(StripOf(t + c, QUOTES), "  #")
  {
    hide StripOf;
    var s := t + c;
    assert c[..3] == "  #" && s[|t|..|t| + 3] == c[..3];
    assert At(s, |t|, "  #");
    ContainsAt(s, "  #");
    hide Contains;
    StripKeeps(s, QUOTES);
  }

  lemma InnerLacks(t: string)
    requires !Contains(t, "  #")
    ensures !Contains(Inner(t), "  #")
  {
    hide Contains;
    if Quoted(t, '"') || Quoted(t, '\'') { PartLacks(t, 1, |t| - 1, "  #"); }
  }

  lemma NullsLack(v: string)
    requires BridgeNull(v)
    ensures !Contains(v, "  #")
  {
    BareHasNoComment(v);
  }

  /** A comment-free value is seen for what it means; a comment is always seen with it. */
  lemma {:induction false} SeenIs(raw: string)
    requires CleanRaw(raw)
    ensures if SplitComment(raw).comment == "" then Seen(raw) == (if BridgeNull(Meaning(raw)) then "" else Meaning(raw))
            else Contains(Seen(raw), "  #")
    ensures !Contains(Meaning(raw), "  #")
  {
    hide IsSpace;
    hide BridgeNull;
    hide Contains;
    InnerLacks(SplitComment(raw).text);
    if SplitComment(raw).comment == "" {
      hide CleanRaw;
      NoCommentRaw(raw);
      CleanIsBare(raw);
    } else {
      var h := Text.Find(raw, "  #", 0);
      TextAndComment(raw);
      CommentStays(raw[..h], raw[h..]);
      assert raw[..h] + raw[h..] == raw;
      if BridgeNull(BridgeText(raw)) { NullsLack(BridgeText(raw)); }
    }
  }

  lemma TextAndComment(raw: string)
    requires SplitComment(raw).comment != "" && Trimmed(raw, SPACES)
    ensures var h := Text.Find(raw, "  #", 0); 0 <= h <= |raw| && SplitComment(raw).comment == raw[h..]
    ensures "  #" <= SplitComment(raw).comment && SplitComment(raw).comment[|SplitComment(raw).comment| - 1] !in SPACES
  {
    CommentShape(raw);
    hide Strip;
    hide IsSpace;
  }

  /** What the bridge looks a key up in. */
  lemma {:induction false} BlockRead(lines: seq<string>, sec: Section, key: string, p: nat, m: nat, n: nat)
    requires WellFormed(lines) && Layout(lines, sec, p, m, n)
    ensures Get(lines, sec, key) == Lookup(Expected(lines, sec, p, BlockSpan(lines, Title(sec)).value.end), key)
  {
    hide WellFormed;
    hide ValueAt;
    hide CtrlAt;
    hide Kv;
    hide Meaning;
    hide BridgeNull;
    hide BridgeText;
    hide Marker;
    hide Blank;
    hide PlainValue;
    hide TargetOf;
    hide YamlKey;
    hide Canon;
    hide WordKey;
    hide CleanRaw;
    hide FlatStep;
    hide Lookup;
    hide Cells;
    hide SplitComment;
    hide Uncommented;
    hide Contains;
    hide Expected;
    var s := BlockSpan(lines, Title(sec)).value;
    var block := BlockLines(lines, Title(sec));
    FlattenBlock(lines, sec, p, m, n, s.end);
    BlankStep(Flatten(block, |block| - 1), block[|block| - 1]);
  }

  lemma {:induction false} ReadsField(lines: seq<string>, sec: Section, key: string, p: nat, m: nat, n: nat)
    requires WellFormed(lines) && Layout(lines, sec, p, m, n)
    requires TargetOf(Canon(sec, key)) == Some(sec) && YamlKey(Canon(sec, key)) == key && Canon(sec, key) in Doc(lines)
    ensures Get(lines, sec, key) == Show(Doc(lines), Canon(sec, key)) <==> Uncommented(lines, Canon(sec, key))
    ensures !Uncommented(lines, Canon(sec, key)) ==> Contains(Get(lines, sec, key), "  #")
  {
    hide WellFormed;
    hide ValueAt;
    hide CtrlAt;
    hide Kv;
    hide Meaning;
    hide BridgeNull;
    hide BridgeText;
    hide Marker;
    hide Blank;
    hide PlainValue;
    hide TargetOf;
    hide YamlKey;
    hide Canon;
    hide WordKey;
    hide CleanRaw;
    hide FlatStep;
    hide Lookup;
    hide Cells;
    hide SplitComment;
    hide Uncommented;
    hide Contains;
    hide Get;
    hide Expected;
    var f := Canon(sec, key);
    BlockRead(lines, sec, key, p, m, n);
    SectionOfBlock(lines, sec, p, m, n);
    var i := FieldLine(lines, |lines|, f);
    NamedLine(lines, sec, key, i);
    LineInBlock(lines, sec, p, m, n, i);
    LookupFinds(lines, sec, p, BlockSpan(lines, Title(sec)).value.end, i);
    SeenField(lines, f, i, Get(lines, sec, key));
  }

  lemma {:induction false} ReadsNothing(lines: seq<string>, sec: Section, key: string, p: nat, m: nat, n: nat)
    requires WellFormed(lines) && Layout(lines, sec, p, m, n)
    requires TargetOf(Canon(sec, key)) == Some(sec) && YamlKey(Canon(sec, key)) == key && Canon(sec, key) !in Doc(lines)
    ensures Get(lines, sec, key) == "" && Uncommented(lines, Canon(sec, key))
  {
    hide WellFormed;
    hide ValueAt;
    hide CtrlAt;
    hide Kv;
    hide Meaning;
    hide BridgeNull;
    hide BridgeText;
    hide Marker;
    hide Blank;
    hide PlainValue;
    hide TargetOf;
    hide YamlKey;
    hide Canon;
    hide WordKey;
    hide CleanRaw;
    hide FlatStep;
    hide Lookup;
    hide Cells;
    hide SplitComment;
    hide Uncommented;
    hide Contains;
    hide Get;
    hide Expected;
    var end := BlockSpan(lines, Title(sec)).value.end;
    BlockRead(lines, sec, key, p, m, n);
    SectionOfBlock(lines, sec, p, m, n);
    forall k | p < k < end && ValueAt(lines, k).Some?
      ensures Kv(lines[k]).Some? && Kv(lines[k]).value.key != key
    {
      ValueOf(lines, k);
      ValueInCells(lines, |lines|, k);
    }
    LookupNone(lines, sec, p, end, key);
    NoField(lines, Canon(sec, key));
  }

  /** In a laid-out document the bridge shows for a key of a section exactly what the document says, its own
      null markers as nothing, if and only if no comment stands behind the value. */
  lemma {:induction false} BridgeReads(lines: seq<string>, sec: Section, key: string, p: nat, m: nat, n: nat)
    requires WellFormed(lines) && Layout(lines, sec, p, m, n)
    requires TargetOf(Canon(sec, key)) == Some(sec) && YamlKey(Canon(sec, key)) == key
    ensures Get(lines, sec, key) == Show(Doc(lines), Canon(sec, key)) <==> Uncommented(lines, Canon(sec, key))
    ensures !Uncommented(lines, Canon(sec, key)) ==> Contains(Get(lines, sec, key), "  #")
  {
    hide WellFormed;
    hide Layout;
    hide Cells;
    hide TargetOf;
    hide YamlKey;
    hide Canon;
    hide Get;
    hide Uncommented;
    hide Contains;
    if Canon(sec, key) in Doc(lines) {
      ReadsField(lines, sec, key, p, m, n);
    } else {
      ReadsNothing(lines, sec, key, p, m, n);
    }
  }

  lemma {:induction false} SeenField(lines: seq<string>, f: string, i: nat, seen: string)
    requires WellFormed(lines) && i < |lines| && ValueAt(lines, i).Some? && ValueAt(lines, i).value.0 == f
    requires f in Doc(lines) && Doc(lines)[f] == Meaning(ValueAt(lines, i).value.1) && seen == Seen(ValueAt(lines, i).value.1)
    ensures seen == Show(Doc(lines), f) <==> Uncommented(lines, f)
    ensures !Uncommented(lines, f) ==> Contains(seen, "  #")
  {
    hide WellFormed;
    hide ValueAt;
    hide CtrlAt;
    hide Kv;
    hide Meaning;
    hide BridgeNull;
    hide Seen;
    hide WordKey;
    hide CleanRaw;
    hide Cells;
    hide SplitComment;
    hide Uncommented;
    hide Contains;
    hide Canon;
    NullsLack("");
    ValueOf(lines, i);
    SeenIs(ValueAt(lines, i).value.1);
    CommentOfField(lines, f, i);
  }

  lemma {:induction false} CommentOfField(lines: seq<string>, f: string, i: nat)
    requires WellFormed(lines) && i < |lines| && ValueAt(lines, i).Some? && ValueAt(lines, i).value.0 == f
    ensures Uncommented(lines, f) <==> SplitComment(ValueAt(lines, i).value.1).comment == ""
  {
    hide WellFormed;
    hide ValueAt;
    hide SplitComment;
    forall k | 0 <= k < |lines| && ValueAt(lines, k).Some? && ValueAt(lines, k).value.0 == f ensures k == i {
      NamesDistinct(lines, k, i);
    }
  }

  lemma {:induction false} NoField(lines: seq<string>, f: string)
    requires f !in Doc(lines)
    ensures Uncommented(lines, f)
  {
    hide ValueAt;
    hide SplitComment;
    hide Cells;
    forall k | 0 <= k < |lines| && ValueAt(lines, k).Some? ensures ValueAt(lines, k).value.0 in Doc(lines) {
      ValueInCells(lines, |lines|, k);
    }
  }

  lemma {:induction false} LineInBlock(lines: seq<string>, sec: Section, p: nat, m: nat, n: nat, i: nat)
    requires Layout(lines, sec, p, m, n) && i < |lines|
    requires ValueAt(lines, i).Some? && CtrlAt(lines, i).sec == Some(sec)
    ensures p < i < BlockSpan(lines, Title(sec)).value.end
  {
    hide ValueAt;
    hide CtrlAt;
    hide Blank;
    hide Kv;
    hide Marker;
  }

  /** A value line whose field is named after (sec, key) carries that key in that section. */
  lemma {:induction false} NamedLine(lines: seq<string>, sec: Section, key: string, i: nat)
    requires WellFormed(lines) && i < |lines|
    requires TargetOf(Canon(sec, key)) == Some(sec) && YamlKey(Canon(sec, key)) == key
    requires ValueAt(lines, i).Some? && ValueAt(lines, i).value.0 == Canon(sec, key)
    ensures CtrlAt(lines, i).sec == Some(sec) && Kv(lines[i]).Some? && Kv(lines[i]).value.key == key
  {
    hide LinesOk;
    hide KeysDistinct;
    hide ValueAt;
    hide CtrlAt;
    hide Kv;
    hide KindOf;
    hide WordKey;
    hide CleanRaw;
    hide Canon;
    hide Dotted;
    hide TargetOf;
    hide YamlKey;
    ValueSlot(lines, i);
  }

  /** What the engine shows for a field: nothing when it stored nothing. */
  function EngineShow(d: map<string, string>, f: string): string {
    if f in NonNull(d) then NonNull(d)[f] else ""
  }

  /** The two parsers show the same text for a key if and only if no comment stands behind its value and the
      value is not one that only one of them takes for nothing: None and none (the engine) or [] (the bridge). */
  lemma {:induction false} ParsersAgree(lines: seq<string>, sec: Section, key: string, p: nat, m: nat, n: nat)
    requires WellFormed(lines) && Layout(lines, sec, p, m, n) && Placed(sec, key)
    ensures var f := Canon(sec, key);
            Get(lines, sec, key) == EngineShow(Fields(lines, |lines|, map[]), f) <==>
            Uncommented(lines, f) && !(f in Doc(lines) && Doc(lines)[f] in {"None", "none", "[]"})
  {
    hide WellFormed;
    hide Layout;
    hide Canon;
    hide Placed;
    hide Fields;
    hide Cells;
    hide Get;
    hide Uncommented;
    PlacedName(sec, key);
    hide TargetOf;
    hide YamlKey;
    hide Contains;
    BridgeReads(lines, sec, key, p, m, n);
    NullsLack("");
    if Canon(sec, key) in Doc(lines) { DocLacks(lines, Canon(sec, key)); }
    FieldsAreCells(lines, |lines|, map[]);
    assert map[] + NonNull(Doc(lines)) == NonNull(Doc(lines));
    assert NonNull(NonNull(Doc(lines))) == NonNull(Doc(lines));
    Markers();
  }

  lemma {:induction false} DocLacks(lines: seq<string>, f: string)
    requires WellFormed(lines) && f in Doc(lines)
    ensures !Contains(Doc(lines)[f], "  #")
  {
    hide WellFormed;
    hide ValueAt;
    hide CtrlAt;
    hide Kv;
    hide Meaning;
    hide CleanRaw;
    hide WordKey;
    hide Cells;
    hide Contains;
    hide Canon;
    var i := FieldLine(lines, |lines|, f);
    ValueOf(lines, i);
    SeenIs(ValueAt(lines, i).value.1);
  }

  lemma PlacedName(sec: Section, key: string)
    requires Placed(sec, key)
    ensures TargetOf(Canon(sec, key)) == Some(sec) && YamlKey(Canon(sec, key)) == key
  {
    CanonInverse(sec, key);
  }

  lemma Markers()
    ensures "None" != "~" && "None" != "null" && "None" != "[]" && "none" != "~" && "none" != "null" && "none" != "[]"
    ensures "[]" != "~" && "[]" != "null" && "None" != "" && "none" != "" && "[]" != "" && "~" != "[]"
  {}

  // ---------------------------------------------------------------- the layout survives a write

  /** No value line could be taken for a section title, a fence or a closing fence by the bridge. */
  ghost predicate NoDecoys(lines: seq<string>) {
    forall i :: 0 <= i < |lines| && ValueAt(lines, i).Some? ==> NoDecoy(lines[i])
  }

  predicate NoDecoy(line: string) {
    !TickLine(line) && !TitleLine(line, Title(Phase)) && !TitleLine(line, Title(LastPass)) && !TitleLine(line, Title(NextPass))
  }

  lemma LowerKeeps(c: char)
    ensures Lower(c) == '`' <==> c == '`'
    ensures Lower(c) == ' ' <==> c == ' '
    ensures Lower(c) == '#' <==> c == '#'
    ensures Lower(c) == '"' <==> c == '"'
  {}

  lemma {:induction false} FenceIsTick(line: string)
    ensures FenceLine(line) ==> TickLine(line)
  {
    hide IsSpace;
    if FenceLine(line) {
      var t := "```yaml";
      var b := |TrimEnd(line)| - |t|;
      assert t[0] == '`' && t[1] == '`' && t[2] == '`';
      assert Lower(TrimEnd(line)[b + 0]) == Lower(t[0]);
      assert Lower(TrimEnd(line)[b + 1]) == Lower(t[1]);
      assert Lower(TrimEnd(line)[b + 2]) == Lower(t[2]);
      LowerKeeps(line[b]);
      LowerKeeps(line[b + 1]);
      LowerKeeps(line[b + 2]);
      assert line[b..b + 3] == "```";
      assert At(line, b, "```");
    }
  }

  /** A title line has a ## and later a blank, and ends in a letter. */
  lemma {:induction false} TitleShape(line: string, sec: Section) returns (x: nat, y: nat)
    requires TitleLine(line, Title(sec))
    ensures x < y < |TrimEnd(line)| <= |line| && line[x] == '#' && line[y] == ' '
    ensures TrimEnd(line)[|TrimEnd(line)| - 1] != '"'
  {
    hide IsSpace;
    var t := Title(sec);
    var sp := if sec == Phase then 7 else 4;
    assert t[sp] == ' ';
    var r := TrimEnd(line);
    var q := r[..|r| - |t|];
    x, y := |TrimEnd(q)| - 1, |r| - |t| + sp;
    assert Lower(TrimEnd(q)[|TrimEnd(q)| - 2 + 1]) == Lower("##"[1]);
    LowerKeeps(line[x]);
    assert Lower(r[|r| - |t| + sp]) == Lower(t[sp]);
    LowerKeeps(line[y]);
    assert Lower(r[|r| - |t| + (|t| - 1)]) == Lower(t[|t| - 1]);
    assert t[|t| - 1] == 'e' || t[|t| - 1] == 's';
    LowerKeeps(r[|r| - 1]);
  }

  lemma {:induction false} RenderedShape(v: string)
    requires Storable(v)
    ensures var r := Render(v);
            && (r[|r| - 1] == '"' || ' ' !in r)
            && (!Contains(v, "```") ==> !Contains(r, "```"))
  {
    hide IsSpace;
    RenderFacts(v);
    var r := Render(v);
    if r == "\"" + v + "\"" {
      if !Contains(v, "```") { QuotedHasNo(v, "```"); }
    } else if v == "" || v == "\"\"" || v == "~" {
      assert |r| <= 2;
    }
  }

  /** A rewritten line is no decoy if it was none before, or carries no comment. */
  lemma {:induction false} RewrittenNoDecoy(line: string, v: string)
    requires Kv(line).Some? && Storable(v) && !Contains(v, "```")
    requires SplitComment(Kv(line).value.raw).comment == "" || NoDecoy(line)
    ensures MatchField(line, Kv(line).value.key).Some?
    ensures NoDecoy(NewLine(line, Kv(line).value.key, v))
  {
    hide IsSpace;
    hide IsWord;
    hide MatchField;
    hide NewLine;
    hide Render;
    hide Storable;
    hide CleanText;
    hide SplitComment;
    hide TitleLine;
    hide Contains;
    var kv := Kv(line).value;
    var c := SplitComment(kv.raw).comment;
    var ind := NewLineParts(line, v);
    var r := Render(v);
    RenderFacts(v);
    RenderedShape(v);
    var head := ind + kv.key + ": ";
    var nl := NewLine(line, kv.key, v);
    HeadJoins(ind + kv.key, r, c);
    HeadChars(ind, kv.key, head);
    hide WordKey;
    if c == "" {
      hide Kv;
      assert r + c == r;
      NoTicks(head, r, nl);
      NoTitle(head, r, nl);
    } else {
      CommentLacks(line, "```");
      TicksSeam(r, c);
      NoTicks(head, r + c, nl);
      assert nl == head + r + c;
      TitleKept(line, head + r, Phase);
      TitleKept(line, head + r, LastPass);
      TitleKept(line, head + r, NextPass);
    }
  }

  lemma HeadJoins(a: string, r: string, c: string)
    ensures a + ":" + (" " + r + c) == (a + ": ") + (r + c)
  {
    assert ": " == ":" + " ";
  }

  lemma {:induction false} TicksSeam(r: string, c: string)
    requires !Contains(r, "```") && !Contains(c, "```") && c != "" && c[0] == ' '
    ensures !Contains(r + c, "```")
  {
    var t := r + c;
    assert "```"[0] == '`' && "```"[1] == '`' && "```"[2] == '`';
    forall k | 0 <= k <= |t| ensures !At(t, k, "```") {
      if k + 3 <= |t| {
        var w := t[k..k + 3];
        if k >= |r| {
          assert w == c[k - |r|..k - |r| + 3];
          assert !At(c, k - |r|, "```");
        } else if k + 3 <= |r| {
          assert w == r[k..k + 3];
          assert !At(r, k, "```");
        } else {
          assert w[|r| - k] == c[0];
        }
      }
    }
    ContainsAt(t, "```");
  }

  lemma {:induction false} EndsTail(a: string, b: string, c: string, t: string)
    requires |t| <= |c| && EndsLike(a + c, t)
    ensures EndsLike(b + c, t)
  {
    forall k | 0 <= k < |t| ensures Lower((b + c)[|b + c| - |t| + k]) == Lower(t[k]) {
      assert (b + c)[|b + c| - |t| + k] == (a + c)[|a + c| - |t| + k];
      assert Lower((a + c)[|a + c| - |t| + k]) == Lower(t[k]);
    }
  }

  /** The two marks in front of a title, when the text behind a has blanks at 0 and 1 and a mark at 2. */
  lemma {:induction false} MarksTail(a: string, b: string, d: string)
    requires |d| >= 3 && d[1] == ' ' && d[2] == '#'
    requires |TrimEnd(a + d)| < |a + d| && EndsLike(TrimEnd(a + d), "##")
    ensures |TrimEnd(b + d)| < |b + d| && EndsLike(TrimEnd(b + d), "##")
  {
    Marks();
    TrimTail(a, d);
    TrimTail(b, d);
    var e := TrimEnd(d);
    hide IsSpace;
    assert e[1] == d[1];
    assert Lower((a + e)[|a + e| - 2 + 0]) == Lower("##"[0]);
    LowerKeeps((a + e)[|a + e| - 2]);
    assert |e| - 2 >= 2;
    hide TrimEnd;
    EndsTail(a, b, e, "##");
  }

  /** A title line that ends in the text c. */
  lemma TitleOver(a: string, c: string, t: string)
    requires c != "" && c[|c| - 1] !in SPACES && |t| <= |c|
    ensures var d := a + c[..|c| - |t|];
            TitleLine(a + c, t) <==> EndsLike(a + c, t) && |TrimEnd(d)| < |d| && EndsLike(TrimEnd(d), "##")
  {
    Trimless(a + c);
    hide TrimEnd;
    hide EndsLike;
    assert (a + c)[..|a + c| - |t|] == a + c[..|c| - |t|];
  }

  lemma TitleEnds(r: string, t: string)
    requires TitleLine(r, t) && TrimEnd(r) == r
    ensures EndsLike(r, t)
  {
    hide TrimEnd;
    hide EndsLike;
  }

  /** Whatever stands before a comment, the comment alone decides whether the line is a title line. */
  lemma {:induction false} TitleTail(a: string, b: string, c: string, sec: Section)
    requires "  #" <= c && c[|c| - 1] !in SPACES && TitleLine(a + c, Title(sec))
    ensures TitleLine(b + c, Title(sec))
  {
    var t := Title(sec);
    assert c[..3] == "  #";
    assert c[1] == ' ' && c[2] == '#';
    Trimless(a + c);
    hide EndsLike;
    hide Title;
    hide TrimEnd;
    hide TitleLine;
    TitleEnds(a + c, t);
    TitleOutside(a + c, t, |a| + 2, sec);
    TitleOver(a, c, t);
    TitleOver(b, c, t);
    MarksTail(a, b, c[..|c| - |t|]);
    EndsTail(a, b, c, t);
  }

  /** No # stands inside the words of a title. */
  lemma {:induction false} TitleOutside(r: string, t: string, i: nat, sec: Section)
    requires t == Title(sec) && EndsLike(r, t) && i < |r| && r[i] == '#'
    ensures i < |r| - |t|
  {
    NoHash(sec);
    if i >= |r| - |t| {
      var k := i - (|r| - |t|);
      assert Lower(r[|r| - |t| + k]) == Lower(t[k]);
      LowerKeeps(r[i]);
      LowerKeeps(t[k]);
    }
  }

  lemma NoHash(sec: Section)
    ensures forall k :: 0 <= k < |Title(sec)| ==> Title(sec)[k] != '#'
  {}

  lemma {:induction false} TrimTail(a: string, d: string)
    requires |d| >= 3 && d[2] !in SPACES
    ensures TrimEnd(a + d) == a + TrimEnd(d) && |TrimEnd(d)| >= 3
  {
    hide IsSpace;
    var j := SkipBack(d, |d|, SPACES);
    assert j >= 3;
    SkipBackIs(a + d, |a + d|, SPACES, |a| + j);
    assert (a + d)[..|a| + j] == a + d[..j];
  }

  lemma {:induction false} RestEnds(front: string, rest: string) returns (b: string)
    requires Strip(rest) != ""
    ensures TrimEnd(front + rest) == b + Strip(rest)
  {
    hide IsSpace;
    var line := front + rest;
    var i, j := Skip(rest, 0, SPACES), SkipBack(rest, |rest|, SPACES);
    b := front + rest[..i];
    SkipBackIs(line, |line|, SPACES, |front| + j);
    assert line[..|front| + j] == b + rest[i..j];
  }

  lemma {:induction false} RawEnds(line: string) returns (b: string)
    requires Kv(line).Some? && Kv(line).value.raw != ""
    ensures TrimEnd(line) == b + Kv(line).value.raw && Trimmed(Kv(line).value.raw, SPACES)
  {
    hide IsSpace;
    hide IsWord;
    hide TrimEnd;
    hide MatchField;
    hide LooseKey;
    hide WordKey;
    var ind, gap, rest := KvParts(line);
    var front := ind + Kv(line).value.key + gap + ":";
    hide Kv;
    hide Strip;
    b := RestEnds(front, rest);
  }

  lemma CommentEnds(b: string, raw: string) returns (b2: string)
    requires SplitComment(raw).comment != "" && Trimmed(raw, SPACES)
    ensures b + raw == b2 + SplitComment(raw).comment
  {
    TextAndComment(raw);
    hide SplitComment;
    var h := Text.Find(raw, "  #", 0);
    b2 := b + raw[..h];
    assert raw == raw[..h] + raw[h..];
  }

  /** A line ends in its comment, up to white space. */
  lemma {:induction false} EndsInComment(line: string) returns (b: string)
    requires Kv(line).Some? && SplitComment(Kv(line).value.raw).comment != ""
    ensures var c := SplitComment(Kv(line).value.raw).comment;
            TrimEnd(line) == b + c && "  #" <= c && c[|c| - 1] !in SPACES
  {
    hide IsSpace;
    hide Kv;
    hide TrimEnd;
    assert SplitComment("").comment == "";
    hide SplitComment;
    var b0 := RawEnds(line);
    TextAndComment(Kv(line).value.raw);
    b := CommentEnds(b0, Kv(line).value.raw);
  }

  lemma SameTrim(line: string, s: string, t: string)
    requires TrimEnd(line) == TrimEnd(s)
    ensures TitleLine(line, t) == TitleLine(s, t)
  {
    hide TrimEnd;
  }

  lemma Trimless(s: string)
    requires s != "" && s[|s| - 1] !in SPACES
    ensures TrimEnd(s) == s
  {
    hide IsSpace;
    SkipBackIs(s, |s|, SPACES, |s|);
    assert s[..|s|] == s;
  }

  lemma {:induction false} TitleKept(line: string, a: string, sec: Section)
    requires Kv(line).Some? && SplitComment(Kv(line).value.raw).comment != "" && !TitleLine(line, Title(sec))
    ensures !TitleLine(a + SplitComment(Kv(line).value.raw).comment, Title(sec))
  {
    hide IsSpace;
    hide Kv;
    hide SplitComment;
    hide TitleLine;
    hide TrimEnd;
    var b := EndsInComment(line);
    var c := SplitComment(Kv(line).value.raw).comment;
    Trimless(b + c);
    SameTrim(line, b + c, Title(sec));
    if TitleLine(a + c, Title(sec)) { TitleTail(a, b, c, sec); }
  }

  lemma {:induction false} HeadChars(ind: string, key: string, head: string)
    requires WordKey(key) && (forall k :: 0 <= k < |ind| ==> ind[k] in SPACES) && head == ind + key + ": "
    ensures forall k :: 0 <= k < |head| ==> head[k] != '`' && head[k] != '#'
  {
    hide IsSpace;
    CharClasses();
    assert '`' !in SPACES && '#' !in SPACES && '`' !in KEY_CHARS && '#' !in KEY_CHARS by { Marks(); }
    forall k | 0 <= k < |head| ensures head[k] != '`' && head[k] != '#' {
      if k < |ind| { assert head[k] == ind[k]; }
      else if k < |ind| + |key| { assert head[k] == key[k - |ind|]; }
      else { assert head[k] == ": "[k - |ind| - |key|]; }
    }
  }

  lemma Marks()
    ensures '`' !in SPACES && '#' !in SPACES && '`' !in KEY_CHARS && '#' !in KEY_CHARS
  {}

  lemma {:induction false} NoTicks(head: string, r: string, nl: string)
    requires (forall k :: 0 <= k < |head| ==> head[k] != '`') && !Contains(r, "```") && nl == head + r
    ensures !TickLine(nl)
  {
    assert "```"[0] == '`';
    forall k | 0 <= k <= |nl| ensures !At(nl, k, "```") {
      if k + 3 <= |nl| {
        if k < |head| { assert nl[k..k + 3][0] == head[k]; }
        else { assert !At(r, k - |head|, "```"); assert nl[k..k + 3] == r[k - |head|..k - |head| + 3]; }
      }
    }
  }

  lemma {:induction false} NoTitle(head: string, r: string, nl: string)
    requires (forall k :: 0 <= k < |head| ==> head[k] != '#') && nl == head + r
    requires r != "" && Trimmed(r, SPACES) && (r[|r| - 1] == '"' || ' ' !in r)
    ensures !TitleLine(nl, Title(Phase)) && !TitleLine(nl, Title(LastPass)) && !TitleLine(nl, Title(NextPass))
  {
    hide IsSpace;
    hide TitleLine;
    assert nl[|nl| - 1] == r[|r| - 1];
    SkipBackIs(nl, |nl|, SPACES, |nl|);
    assert TrimEnd(nl) == nl;
    NotThis(head, r, nl, Phase);
    NotThis(head, r, nl, LastPass);
    NotThis(head, r, nl, NextPass);
  }

  lemma {:induction false} NotThis(head: string, r: string, nl: string, sec: Section)
    requires (forall k :: 0 <= k < |head| ==> head[k] != '#') && nl == head + r && TrimEnd(nl) == nl
    requires r != "" && (r[|r| - 1] == '"' || ' ' !in r)
    ensures !TitleLine(nl, Title(sec))
  {
    hide TitleLine;
    hide TrimEnd;
    hide Title;
    if TitleLine(nl, Title(sec)) {
      var x, y := TitleShape(nl, sec);
      BlankInRest(head, r, nl, x, y);
    }
  }

  lemma BlankInRest(head: string, r: string, nl: string, x: nat, y: nat)
    requires (forall k :: 0 <= k < |head| ==> head[k] != '#') && nl == head + r
    requires x < y < |nl| && nl[x] == '#' && nl[y] == ' '
    ensures ' ' in r
  {
    assert x >= |head|;
    assert nl[y] == r[y - |head|];
  }

  // the three searches pass over a line that is neither title nor fence

  lemma {:induction false} SameTitle(lines: seq<string>, i: nat, nl: string, t: string, k: nat)
    requires i < |lines| && k <= |lines| && !TitleLine(lines[i], t) && !TitleLine(nl, t)
    ensures NextTitle(lines[i := nl], t, k) == NextTitle(lines, t, k)
    decreases |lines| - k
  {
    hide TitleLine;
    if k < |lines| { SameTitle(lines, i, nl, t, k + 1); }
  }

  lemma {:induction false} SameFence(lines: seq<string>, i: nat, nl: string, k: nat)
    requires i < |lines| && k <= |lines| && !FenceLine(lines[i]) && !FenceLine(nl)
    ensures NextFence(lines[i := nl], k) == NextFence(lines, k)
    decreases |lines| - k
  {
    hide FenceLine;
    if k < |lines| { SameFence(lines, i, nl, k + 1); }
  }

  lemma {:induction false} SameTicks(lines: seq<string>, i: nat, nl: string, k: nat)
    requires i < |lines| && k <= |lines| && !TickLine(lines[i]) && !TickLine(nl)
    ensures NextTicks(lines[i := nl], k) == NextTicks(lines, k)
    decreases |lines| - k
  {
    hide TickLine;
    if k < |lines| { SameTicks(lines, i, nl, k + 1); }
  }

  lemma {:induction false} SameSpan(lines: seq<string>, i: nat, nl: string, sec: Section)
    requires i < |lines| && NoDecoy(lines[i]) && NoDecoy(nl)
    ensures BlockSpan(lines[i := nl], Title(sec)) == BlockSpan(lines, Title(sec))
  {
    hide TitleLine;
    hide FenceLine;
    hide TickLine;
    FenceIsTick(lines[i]);
    FenceIsTick(nl);
    var t := Title(sec);
    assert t == Title(Phase) || t == Title(LastPass) || t == Title(NextPass);
    SameTitle(lines, i, nl, t, 0);
    var h := NextTitle(lines, t, 0);
    if h.Some? {
      SameFence(lines, i, nl, h.value + 1);
      var o := NextFence(lines, h.value + 1);
      if o.Some? { SameTicks(lines, i, nl, o.value + 1); }
    }
  }

  /** A section whose block the bridge can read, wherever its marker stands. */
  ghost predicate LaidOut(lines: seq<string>, sec: Section) {
    exists p: nat, m: nat, n: nat :: Layout(lines, sec, p, m, n)
  }

  /** The documents both parsers and the mutator handle: well-formed, laid out, free of decoys. */
  ghost predicate BridgeOk(lines: seq<string>) {
    WellFormed(lines) && NoDecoys(lines) && (forall sec :: LaidOut(lines, sec))
  }

  /** The value line being rewritten is comment-free, since it stands in a laid-out block. */
  lemma {:induction false} PlainInBlock(lines: seq<string>, i: nat) returns (sec: Section, p: nat, m: nat, n: nat)
    requires BridgeOk(lines) && i < |lines| && ValueAt(lines, i).Some?
    ensures CtrlAt(lines, i).sec == Some(sec) && Layout(lines, sec, p, m, n) && PlainValue(lines, i, sec, n)
  {
    hide WellFormed;
    hide NoDecoys;
    hide ValueAt;
    hide CtrlAt;
    hide Blank;
    hide Marker;
    hide PlainValue;
    assert CtrlAt(lines, i).sec.Some? by { hide LaidOut; ValueOf(lines, i); }
    sec := CtrlAt(lines, i).sec.value;
    assert LaidOut(lines, sec);
    p, m, n :| Layout(lines, sec, p, m, n);
  }

  lemma PlainSame(lines: seq<string>, after: seq<string>, j: nat, sec: Section, n: nat)
    requires |after| == |lines| && j < |lines| && after[j] == lines[j] && CtrlAt(after, j) == CtrlAt(lines, j)
    ensures ValueAt(after, j) == ValueAt(lines, j)
    ensures PlainValue(after, j, sec, n) == PlainValue(lines, j, sec, n)
  {
    hide CtrlAt;
    hide Kv;
    hide KindOf;
    hide Canon;
    hide SplitComment;
  }

  /** Replacing a value line by another value line that is as plain as it was keeps every layout. */
  lemma {:induction false} LayoutPut(lines: seq<string>, i: nat, after: seq<string>,
                                     sec: Section, p: nat, m: nat, n: nat)
    requires Layout(lines, sec, p, m, n) && i < |lines| && |after| == |lines|
    requires after == lines[i := after[i]] && NoDecoy(lines[i]) && NoDecoy(after[i])
    requires forall j :: 0 <= j <= |lines| ==> CtrlAt(after, j) == CtrlAt(lines, j)
    requires ValueAt(lines, i).Some? && ValueAt(after, i).Some?
    requires PlainValue(lines, i, sec, n) ==> PlainValue(after, i, sec, n)
    requires !Blank(lines[i]) && !Marker(lines[i], sec, m)
    ensures Layout(after, sec, p, m, n)
  {
    hide Blank;
    hide Kv;
    hide CtrlAt;
    hide ValueAt;
    hide PlainValue;
    hide Marker;
    hide TickLine;
    hide TitleLine;
    hide Title;
    SameSpan(lines, i, after[i], sec);
    var s := BlockSpan(lines, Title(sec)).value;
    assert TickLine(lines[s.end]) && i != s.end;
    hide BlockSpan;
    forall j | 0 <= j < |lines| && j != i
      ensures ValueAt(after, j) == ValueAt(lines, j) && PlainValue(after, j, sec, n) == PlainValue(lines, j, sec, n)
    {
      PlainSame(lines, after, j, sec, n);
    }
    assert after[p] == lines[p];
    assert after[s.end] == lines[s.end];
  }

  /** What a rewritten value line is to the bridge. */
  lemma {:induction false} PutPlain(lines: seq<string>, i: nat, v: string)
    requires BridgeOk(lines) && i < |lines| && ValueAt(lines, i).Some? && Storable(v) && !Contains(v, "```")
    ensures MatchField(lines[i], KeyLine(CtrlAt(lines, i), lines[i]).value.key).Some?
    ensures var after := Put(lines, i, v);
            && NoDecoy(lines[i]) && NoDecoy(after[i]) && !Blank(lines[i])
            && (forall sec, m :: !Marker(lines[i], sec, m))
            && (forall j :: 0 <= j <= |lines| ==> CtrlAt(after, j) == CtrlAt(lines, j))
            && (forall sec, n :: PlainValue(lines, i, sec, n) ==> PlainValue(after, i, sec, n))
  {
    hide LaidOut;
    hide LinesOk;
    hide KeysDistinct;
    hide NoDecoy;
    hide Kv;
    hide KindOf;
    hide CtrlAt;
    hide Next;
    hide Storable;
    hide MatchField;
    hide NewLine;
    hide Render;
    hide SplitComment;
    hide CleanRaw;
    hide Canon;
    hide Dotted;
    hide TargetOf;
    hide YamlKey;
    hide WordKey;
    hide Blank;
    hide Strip;
    var sec0, p0, m0, n0 := PlainInBlock(lines, i);
    hide Layout;
    ValueSlot(lines, i);
    KeyLineIs(lines, i);
    PutLine(lines, i, v);
    NewKv(lines[i], v);
    assert NoDecoy(lines[i]);
    RewrittenNoDecoy(lines[i], v);
    assert !Blank(lines[i]) by { if Blank(lines[i]) { BlankNoValue(lines, i); } }
    var c := CtrlAt(lines, i);
    assert LineOkAt(lines, i) by { assert LinesOk(lines); LinesOkAt(lines, i); }
    RewrittenLine(c, lines[i], v);
    var after := Put(lines, i, v);
    forall j | 0 <= j <= |lines| ensures CtrlAt(after, j) == CtrlAt(lines, j) {
      SameCtrl(lines, i, after[i], j);
    }
  }

  lemma LinesOkAt(lines: seq<string>, i: nat)
    requires LinesOk(lines) && i < |lines|
    ensures LineOkAt(lines, i)
  {
    hide LineOkAt;
  }

  /** Writing a storable value without back-ticks keeps the document readable for both sides. */
  lemma {:induction false} BridgePut(lines: seq<string>, f: string, v: string)
    requires BridgeOk(lines) && f in Doc(lines) && Storable(v) && !Contains(v, "```")
    ensures BridgeOk(Mutate(lines, f, v).0)
  {
    hide WellFormed;
    hide NoDecoy;
    hide ValueAt;
    hide CtrlAt;
    hide Cells;
    hide Layout;
    hide PlainValue;
    hide Kv;
    hide Mutate;
    hide Storable;
    hide MatchField;
    hide NewLine;
    hide KeyLine;
    hide Blank;
    hide Marker;
    var i := FieldLine(lines, |lines|, f);
    MutateIsPut(lines, f, v, i);
    PutLine(lines, i, v);
    var after := Put(lines, i, v);
    assert BridgeOk(after) by {
      PutPlain(lines, i, v);
      assert NoDecoys(after) by {
        forall j | 0 <= j < |after| && ValueAt(after, j).Some? ensures NoDecoy(after[j]) {
          assert j != i ==> after[j] == lines[j];
        }
      }
      forall sec ensures LaidOut(after, sec) {
        assert LaidOut(lines, sec);
        var p, m, n :| Layout(lines, sec, p, m, n);
        LayoutPut(lines, i, after, sec, p, m, n);
      }
    }
  }

  /** A write neither adds nor removes comments. */
  lemma {:induction false} CommentsKept(lines: seq<string>, f: string, v: string, g: string)
    requires WellFormed(lines) && f in Doc(lines) && Storable(v)
    ensures Uncommented(Mutate(lines, f, v).0, g) <==> Uncommented(lines, g)
  {
    hide WellFormed;
    hide ValueAt;
    hide CtrlAt;
    hide Cells;
    hide Mutate;
    hide Storable;
    hide MatchField;
    hide NewLine;
    hide KeyLine;
    hide SplitComment;
    hide CleanRaw;
    hide Meaning;
    hide Slot;
    var i := FieldLine(lines, |lines|, f);
    MutateIsPut(lines, f, v, i);
    PutLine(lines, i, v);
    var after := Put(lines, i, v);
    hide Put;
    if Uncommented(lines, g) {
      forall j | 0 <= j < |after| && ValueAt(after, j).Some? && ValueAt(after, j).value.0 == g
        ensures SplitComment(ValueAt(after, j).value.1).comment == ""
      {
        assert ValueAt(lines, j).Some? && ValueAt(lines, j).value.0 == g;
      }
    }
    if Uncommented(after, g) {
      forall j | 0 <= j < |lines| && ValueAt(lines, j).Some? && ValueAt(lines, j).value.0 == g
        ensures SplitComment(ValueAt(lines, j).value.1).comment == ""
      {
        assert ValueAt(after, j).Some? && ValueAt(after, j).value.0 == g;
      }
    }
  }
}
