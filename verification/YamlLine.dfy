/** One `key: value  # comment` line of a LONGRUNNER block, as its two readers and its writer see it:
    the parser's regular expression and value rules (commands/_shared.py) and the mutator's
    (commands/bundle_mutators.py). */
module YamlLine {
  import opened Text
  import opened Wrappers

  const KEY_CHARS: set<char> := set c: char | IsWord(c) || c == '.'

  ghost predicate WordKey(key: string) {
    key != "" && IsWord(key[0]) && forall k :: 0 <= k < |key| ==> key[k] in KEY_CHARS
  }

  /** How the character classes of the two patterns lie to each other. */
  lemma CharClasses()
    ensures forall c {:trigger c in KEY_CHARS} :: c in KEY_CHARS ==> c !in SPACES
    ensures forall c {:trigger IsWord(c)} :: IsWord(c) ==> c in KEY_CHARS
    ensures ':' !in KEY_CHARS && ':' !in SPACES && ' ' in SPACES && '"' !in SPACES && '\'' !in SPACES
  {}

  // ---------------------------------------------------------------- the parser's line

  datatype KvLine = KvLine(indent: nat, key: string, raw: string)

  /** The match of  ^(\s*)(\w[\w.]*) *: *(.*)  with its last group stripped. */
  function Kv(line: string): Option<KvLine> {
    var i := Skip(line, 0, SPACES);
    var j := Skip(line, i, KEY_CHARS);
    var k := Skip(line, j, {' '});
    if i < |line| && IsWord(line[i]) && k < |line| && line[k] == ':' then
      Some(KvLine(i, line[i..j], Strip(line[k + 1..])))
    else None
  }

  predicate IsNull(s: string) {
    s == "~" || s == "null" || s == "None" || s == "none" || s == ""
  }

  /** What the parser stores for a raw value, or None when it stores nothing. */
  function ReadRaw(raw: string): (r: Option<string>)
    ensures r.Some? ==> Trimmed(r.value, SPACES)
  {
    if raw == "" then None else
    var d := Find(raw, "\"", 1);
    var q := Find(raw, "'", 1);
    var h := Find(raw, "  #", 0);
    if raw[0] == '"' && d != -1 then Keep(raw[1..d])
    else if raw[0] == '\'' && q != -1 then Keep(raw[1..q])
    else if h != -1 then Keep(Strip(raw[..h]))
    else if raw[0] == '#' then None
    else Keep(raw)
  }

  function Keep(val: string): (r: Option<string>)
    ensures r.Some? ==> Trimmed(r.value, SPACES)
  {
    if IsNull(val) then None else Some(Strip(StripOf(StripOf(val, {'"'}), {'\''})))
  }

  // ---------------------------------------------------------------- the mutator's line

  /** The match of  ^(\s*)key\s*:\s*(.*)  : where the indentation ends and where the colon is.
      The key is any text, so the leading \s* may have to give characters back. */
  function MatchField(line: string, key: string): (r: Option<(nat, nat)>)
    ensures r.Some? ==> r.value.0 + |key| <= r.value.1 < |line|
  {
    MatchFrom(line, key, Skip(line, 0, SPACES))
  }

  function MatchFrom(line: string, key: string, i: nat): (r: Option<(nat, nat)>)
    requires i <= |line|
    ensures r.Some? ==> r.value.0 <= i && r.value.0 + |key| <= r.value.1 < |line|
  {
    var c := if At(line, i, key) then Skip(line, i + |key|, SPACES) else |line|;
    if c < |line| && line[c] == ':' then Some((i, c))
    else if i == 0 then None
    else MatchFrom(line, key, i - 1)
  }

  datatype OldText = OldText(text: string, comment: string)

  function SplitComment(raw: string): (r: OldText) {
    var h := Find(raw, "  #", 0);
    if h == -1 then OldText(raw, "") else OldText(Strip(raw[..h]), raw[h..])
  }

  function OldValue(raw: string): string {
    StripOf(StripOf(SplitComment(raw).text, {'"'}), {'\''})
  }

  predicate NeedsQuotes(v: string) { ' ' in v || ':' in v || "[" <= v }

  predicate IsDigits(v: string) { v != "" && forall k :: 0 <= k < |v| ==> '0' <= v[k] <= '9' }

  function Render(v: string): string {
    if v == "~" then "~"
    else if v == "" || v == "\"\"" then "\"\""
    else if IsDigits(v) then v
    else if NeedsQuotes(v) then "\"" + v + "\""
    else v
  }

  /** The line the mutator writes over a matching one. */
  function NewLine(line: string, key: string, v: string): string
    requires MatchField(line, key).Some?
  {
    var (i, c) := MatchField(line, key).value;
    line[..i] + key + ":" + (" " + Render(v) + SplitComment(Strip(line[c + 1..])).comment)
  }

  // ---------------------------------------------------------------- the two views of a line

  /** The key the mutator's looser pattern would accept: any white space may precede the colon. */
  function LooseKey(line: string): Option<string> {
    var i := Skip(line, 0, SPACES);
    var j := Skip(line, i, KEY_CHARS);
    var k := Skip(line, j, SPACES);
    if i < |line| && IsWord(line[i]) && k < |line| && line[k] == ':' then Some(line[i..j]) else None
  }

  lemma {:induction false} KvIsLoose(line: string)
    requires Kv(line).Some?
    ensures LooseKey(line) == Some(Kv(line).value.key) && WordKey(Kv(line).value.key)
  {
    var i := Skip(line, 0, SPACES);
    var j := Skip(line, i, KEY_CHARS);
    SkipIs(line, j, SPACES, Skip(line, j, {' '}));
  }

  lemma {:induction false} MatchBelow(line: string, key: string, i: nat)
    requires WordKey(key) && i <= |line| && forall k :: 0 <= k < i ==> line[k] in SPACES
    ensures i > 0 ==> MatchFrom(line, key, i - 1) == None
  {
    hide IsSpace;
    hide IsWord;
    CharClasses();
    if i > 0 {
      var c := line[i - 1];
      assert c in SPACES && c !in KEY_CHARS;
      assert c != key[0];
      assert !At(line, i - 1, key) by {
        if i - 1 + |key| <= |line| { assert line[i - 1..i - 1 + |key|][0] == c; }
      }
      MatchBelow(line, key, i - 1);
    }
  }

  /** For a word-like key the mutator matches exactly the lines that carry the key. */
  lemma {:induction false} MatchIsLoose(line: string, key: string)
    requires WordKey(key)
    ensures MatchField(line, key) ==
            if LooseKey(line) == Some(key)
            then Some((Skip(line, 0, SPACES), Skip(line, Skip(line, Skip(line, 0, SPACES), KEY_CHARS), SPACES)))
            else None
  {
    hide IsSpace;
    hide IsWord;
    CharClasses();
    var i := Skip(line, 0, SPACES);
    MatchBelow(line, key, i);
    if At(line, i, key) {
      KeyAtStart(line, key, i);
    } else {
      var j := Skip(line, i, KEY_CHARS);
      assert line[i..j] != key;
    }
  }

  /** Where the key stands right after the indentation, both gaps start at its end or the key is longer. */
  lemma {:induction false} KeyAtStart(line: string, key: string, i: nat)
    requires WordKey(key) && i <= |line| && At(line, i, key)
    ensures IsWord(line[i])
    ensures var c := Skip(line, i + |key|, SPACES); var j := Skip(line, i, KEY_CHARS);
            c < |line| && line[c] == ':' ==> j == i + |key|
    ensures line[i..Skip(line, i, KEY_CHARS)] == key <==> Skip(line, i, KEY_CHARS) == i + |key|
  {
    var e := i + |key|;
    var c, j := Skip(line, e, SPACES), Skip(line, i, KEY_CHARS);
    assert forall k :: i <= k < e ==> line[k] == key[k - i];
    if c < |line| && line[c] == ':' {
      assert line[e] == ':' || line[e] in SPACES;
      assert line[e] !in KEY_CHARS;
      SkipIs(line, i, KEY_CHARS, e);
    }
  }

  /** Where the scans of a line put together from its parts stop. */
  lemma {:induction false} Places(ind: string, key: string, rest: string, line: string)
    requires forall k :: 0 <= k < |ind| ==> ind[k] in SPACES
    requires WordKey(key)
    requires line == ind + key + ":" + rest
    ensures IsWord(line[|ind|]) && line[|ind| + |key|] == ':'
    ensures Skip(line, 0, SPACES) == |ind| && Skip(line, |ind|, KEY_CHARS) == |ind| + |key|
    ensures Skip(line, |ind| + |key|, {' '}) == |ind| + |key|
    ensures Skip(line, |ind| + |key|, SPACES) == |ind| + |key|
  {
    hide IsSpace;
    hide IsWord;
    CharClasses();
    assert forall k :: |ind| <= k < |ind| + |key| ==> line[k] == key[k - |ind|];
    SkipIs(line, 0, SPACES, |ind|);
    SkipIs(line, |ind|, KEY_CHARS, |ind| + |key|);
    SkipIs(line, |ind| + |key|, {' '}, |ind| + |key|);
    SkipIs(line, |ind| + |key|, SPACES, |ind| + |key|);
  }

  /** A line put together from its parts is read back part by part, by both patterns. */
  lemma {:induction false} KvOf(ind: string, key: string, rest: string, line: string)
    requires forall k :: 0 <= k < |ind| ==> ind[k] in SPACES
    requires WordKey(key)
    requires line == ind + key + ":" + rest
    ensures Kv(line) == Some(KvLine(|ind|, key, Strip(rest)))
    ensures MatchField(line, key) == Some((|ind|, |ind| + |key|))
    ensures LooseKey(line) == Some(key)
    ensures line[|ind| + |key| + 1..] == rest && line[..|ind|] == ind
  {
    hide IsSpace;
    hide IsWord;
    hide Skip;
    hide WordKey;
    hide MatchField;
    Places(ind, key, rest, line);
    PartsOf(ind, key, rest, line);
    KvFrom(line, |ind|, |ind| + |key|, key, rest);
    hide Kv;
    hide LooseKey;
    MatchIsLoose(line, key);
  }

  lemma KvFrom(line: string, i: nat, e: nat, key: string, rest: string)
    requires i < e < |line| && Skip(line, 0, SPACES) == i && Skip(line, i, KEY_CHARS) == e
    requires Skip(line, e, {' '}) == e && Skip(line, e, SPACES) == e
    requires line[e] == ':' && IsWord(line[i]) && line[i..e] == key && line[e + 1..] == rest
    ensures Kv(line) == Some(KvLine(i, key, Strip(rest))) && LooseKey(line) == Some(key)
  {
    hide Skip;
    hide Strip;
    hide IsWord;
    hide IsSpace;
  }

  lemma PartsOf(ind: string, key: string, rest: string, line: string)
    requires line == ind + key + ":" + rest
    ensures line[|ind| + |key| + 1..] == rest && line[|ind|..|ind| + |key|] == key && line[..|ind|] == ind
  {}

  lemma {:induction false} KvPlaces(line: string, i: nat, j: nat, k: nat)
    requires Kv(line).Some? && i == Skip(line, 0, SPACES)
    requires i <= |line| && j == Skip(line, i, KEY_CHARS) && j <= |line| && k == Skip(line, j, {' '})
    ensures i < j <= k < |line| && line[k] == ':'
    ensures forall m :: j <= m < k ==> line[m] == ' '
    ensures Kv(line) == Some(KvLine(i, line[i..j], Strip(line[k + 1..])))
    ensures WordKey(line[i..j]) && LooseKey(line) == Some(line[i..j])
    ensures MatchField(line, line[i..j]) == Some((i, k))
  {
    hide IsSpace;
    hide IsWord;
    hide MatchField;
    KvFirst(line, i, j, k);
    KvIsLoose(line);
    LooseMatch(line, i, j, k);
  }

  lemma {:induction false} KvFirst(line: string, i: nat, j: nat, k: nat)
    requires Kv(line).Some? && i == Skip(line, 0, SPACES)
    requires i <= |line| && j == Skip(line, i, KEY_CHARS) && j <= |line| && k == Skip(line, j, {' '})
    ensures i < j <= k < |line| && line[k] == ':' && (forall m :: j <= m < k ==> line[m] == ' ')
    ensures Kv(line) == Some(KvLine(i, line[i..j], Strip(line[k + 1..])))
  {
    hide IsSpace;
    hide IsWord;
    CharClasses();
    assert forall m :: j <= m < k ==> line[m] in {' '};
  }

  /** The mutator's pattern finds the key of a loosely read line in its place. */
  lemma {:induction false} LooseMatch(line: string, i: nat, j: nat, k: nat)
    requires i == Skip(line, 0, SPACES) && i < j <= k < |line| && j == Skip(line, i, KEY_CHARS)
    requires line[k] == ':' && (forall m :: j <= m < k ==> line[m] == ' ')
    requires WordKey(line[i..j]) && LooseKey(line) == Some(line[i..j])
    ensures MatchField(line, line[i..j]) == Some((i, k))
  {
    hide IsSpace;
    hide IsWord;
    CharClasses();
    SkipIs(line, j, SPACES, k);
    MatchIsLoose(line, line[i..j]);
  }

  /** Every line the parser's pattern matches is put together that way, with blanks before the colon. */
  lemma {:induction false} KvParts(line: string) returns (ind: string, gap: string, rest: string)
    requires Kv(line).Some?
    ensures forall k :: 0 <= k < |ind| ==> ind[k] in SPACES
    ensures forall k :: 0 <= k < |gap| ==> gap[k] == ' '
    ensures var kv := Kv(line).value;
            && line == ind + kv.key + gap + ":" + rest && |ind| == kv.indent && kv.raw == Strip(rest)
            && WordKey(kv.key) && LooseKey(line) == Some(kv.key)
            && MatchField(line, kv.key) == Some((|ind|, |ind| + |kv.key| + |gap|))
            && line[|ind| + |kv.key| + |gap| + 1..] == rest
  {
    hide IsSpace;
    hide IsWord;
    hide Strip;
    hide MatchField;
    hide LooseKey;
    hide WordKey;
    var i := Skip(line, 0, SPACES);
    var j := Skip(line, i, KEY_CHARS);
    var k := Skip(line, j, {' '});
    KvPlaces(line, i, j, k);
    hide Kv;
    ind, gap, rest := line[..i], line[j..k], line[k + 1..];
    CutAt(line, i, j, k);
  }

  lemma CutAt(line: string, i: nat, j: nat, k: nat)
    requires i <= j <= k < |line| && line[k] == ':'
    ensures line == line[..i] + line[i..j] + line[j..k] + ":" + line[k + 1..]
  {
    assert line[..k] == line[..i] + line[i..j] + line[j..k];
    assert line == line[..k] + [line[k]] + line[k + 1..];
  }

  // ---------------------------------------------------------------- what a raw value means

  predicate Quoted(t: string, q: char) {
    |t| >= 2 && t[0] == q && t[|t| - 1] == q && q !in t[1..|t| - 1]
  }

  /** The text a value stands for, with its quotes taken off. */
  function Inner(t: string): string {
    if Quoted(t, '"') || Quoted(t, '\'') then t[1..|t| - 1] else t
  }

  /** A value text both sides understand: quoted once and properly, or bare; never a comment. */
  predicate CleanText(t: string) {
    && t != "" && Trimmed(t, SPACES) && !Contains(t, "  #") && t[0] != '#'
    && (t[0] in QUOTES || t[|t| - 1] in QUOTES ==>
          && (Quoted(t, '"') || Quoted(t, '\''))
          && Trimmed(Inner(t), SPACES) && Trimmed(Inner(t), QUOTES))
  }

  /** A clean value text, followed by nothing or by a comment two blanks away. */
  predicate CleanRaw(raw: string) {
    CleanText(SplitComment(raw).text) && raw != "" && Trimmed(raw, SPACES)
  }

  function Meaning(raw: string): string { Inner(SplitComment(raw).text) }

  predicate CommentText(c: string) {
    c != "" ==> "  #" <= c && c[|c| - 1] !in SPACES
  }

  lemma {:induction false} NoComment(t: string, c: string)
    requires Trimmed(t, SPACES) && !Contains(t, "  #") && CommentText(c)
    ensures Find(t + c, "  #", 0) == if c == "" then -1 else |t|
  {
    hide IsSpace;
    CharClasses();
    var s, p := t + c, "  #";
    assert p[0] == ' ' && p[1] == ' ' && p[2] == '#';
    forall k | 0 <= k < |t| ensures !At(s, k, p) {
      if k + 3 <= |t| {
        assert !At(t, k, p);
        assert s[k..k + 3] == t[k..k + 3];
      } else if k + 3 <= |s| {
        assert s[k..k + 3][|t| - 1 - k] == t[|t| - 1];
      }
    }
    if c == "" {
      assert s == t;
    } else {
      assert s[|t|..|t| + 3] == c[..3];
      FindIs(s, p, 0, |t|);
    }
  }

  /** Text and comment come apart again where they were put together. */
  lemma {:induction false} CommentApart(t: string, c: string)
    requires Trimmed(t, SPACES) && !Contains(t, "  #") && CommentText(c)
    ensures SplitComment(t + c) == OldText(t, c)
    ensures t != "" ==> Trimmed(t + c, SPACES)
  {
    hide IsSpace;
    NoComment(t, c);
    assert (t + c)[..|t|] == t && (t + c)[|t|..] == c;
    if c == "" { assert t + c == t; }
  }

  lemma {:induction false} CommentShape(raw: string)
    requires Trimmed(raw, SPACES)
    ensures CommentText(SplitComment(raw).comment)
  {
    hide IsSpace;
    var h := Find(raw, "  #", 0);
    if h != -1 {
      assert raw[h..][..3] == raw[h..h + 3];
    }
  }

  /** What the parser keeps of a clean text is what it means, unless that is a null marker. */
  lemma {:induction false} KeepInner(m: string)
    requires Trimmed(m, SPACES) && Trimmed(m, QUOTES)
    ensures StripOf(StripOf(m, {'"'}), {'\''}) == m
    ensures Keep(m) == if IsNull(m) then None else Some(m)
  {
    hide IsSpace;
  }

  lemma {:induction false} CleanInner(t: string)
    requires CleanText(t)
    ensures Trimmed(Inner(t), SPACES) && Trimmed(Inner(t), QUOTES)
    ensures StripOf(StripOf(t, {'"'}), {'\''}) == Inner(t)
  {
    hide IsSpace;
    if Quoted(t, '"') || Quoted(t, '\'') {
      var q := t[0];
      var m := Inner(t);
      assert t == [q] + m + [q];
      if q == '"' {
        StripPadded([q], m, [q], {'"'});
        assert StripOf(m, {'\''}) == m;
      } else {
        assert StripOf(t, {'"'}) == t;
        StripPadded([q], m, [q], {'\''});
      }
    }
  }

  lemma {:induction false} QuoteAt(t: string, c: string, q: char)
    requires Quoted(t, q)
    ensures Find(t + c, [q], 1) == |t| - 1
  {
    var s := t + c;
    forall k | 1 <= k < |t| - 1 ensures !At(s, k, [q]) {
      assert s[k..k + 1] == [t[k]];
      assert t[k] == t[1..|t| - 1][k - 1];
    }
    assert s[|t| - 1..|t|] == [q];
    FindIs(s, [q], 1, |t| - 1);
  }

  /** A text that starts with a visible character loses only trailing blanks to strip(). */
  lemma {:induction false} StripSuffix(s: string) returns (pad: string)
    requires s != "" && s[0] !in SPACES
    ensures s == Strip(s) + pad && Strip(s) != "" && Strip(s)[0] == s[0]
  {
    hide IsSpace;
    var j := SkipBack(s, |s|, SPACES);
    SkipIs(s, 0, SPACES, 0);
    assert j > 0;
    pad := s[j..];
    assert s == s[0..j] + s[j..];
  }

  /** A raw value begins with its text. */
  lemma {:induction false} TextThenTail(raw: string) returns (tail: string)
    requires raw != "" && Trimmed(raw, SPACES)
    ensures raw == SplitComment(raw).text + tail && SplitComment(raw).text != ""
    ensures SplitComment(raw).text[0] == raw[0]
    ensures Find(raw, "  #", 0) == -1 ==> SplitComment(raw).text == raw
  {
    hide IsSpace;
    CharClasses();
    var h := Find(raw, "  #", 0);
    if h == -1 {
      tail := "";
    } else {
      assert h > 0 by { assert raw[0] != ' '; assert "  #"[0] == ' '; }
      var pad := StripSuffix(raw[..h]);
      tail := pad + raw[h..];
      assert raw == raw[..h] + raw[h..];
    }
  }

  /** On a clean raw value the two readers agree: the mutator reports its meaning as the old value,
      and the parser stores it unless it is a null marker. */
  lemma {:induction false} ReadersAgree(raw: string)
    requires CleanRaw(raw)
    ensures OldValue(raw) == Meaning(raw)
    ensures ReadRaw(raw) == if IsNull(Meaning(raw)) then None else Some(Meaning(raw))
    ensures Trimmed(Meaning(raw), SPACES)
  {
    hide IsSpace;
    hide CleanText;
    hide Keep;
    CleanInner(SplitComment(raw).text);
    KeepInner(Meaning(raw));
    ReadsInner(raw);
  }

  lemma {:induction false} ReadsInner(raw: string)
    requires CleanRaw(raw)
    ensures ReadRaw(raw) == Keep(Meaning(raw))
  {
    hide IsSpace;
    hide Keep;
    hide Trimmed;
    var t := SplitComment(raw).text;
    var tail := TextThenTail(raw);
    if raw[0] in QUOTES {
      assert Quoted(t, raw[0]);
      QuoteAt(t, tail, raw[0]);
      assert raw[1..|t| - 1] == t[1..|t| - 1];
    } else {
      ReadUnquoted(raw);
    }
    hide Strip;
  }

  // ---------------------------------------------------------------- writing a value

  /** Values that are written as clean texts. */
  predicate Storable(v: string) {
    v == "~" || v == "" || v == "\"\"" ||
    (&& Trimmed(v, SPACES) && Trimmed(v, QUOTES) && !Contains(v, "  #")
     && (forall k :: 0 <= k < |v| ==> !IsBreak(v[k]))
     && (NeedsQuotes(v) ==> '"' !in v) && (v[0] == '#' ==> NeedsQuotes(v)))
  }

  function Stored(v: string): string { if v == "\"\"" then "" else v }

  lemma {:induction false} BareHasNoComment(v: string)
    requires ' ' !in v
    ensures !Contains(v, "  #")
  {
    assert "  #"[0] == ' ';
    forall k | 0 <= k <= |v| ensures !At(v, k, "  #") {
      if k + 3 <= |v| { assert v[k..k + 3][0] == v[k]; }
    }
  }

  /** Quoting a text does not create a pattern that neither begins nor ends with a quote. */
  lemma {:induction false} QuotedHasNo(v: string, p: string)
    requires !Contains(v, p) && p != "" && p[0] != '"' && p[|p| - 1] != '"'
    ensures !Contains("\"" + v + "\"", p)
  {
    var s := "\"" + v + "\"";
    forall k | 0 <= k <= |s| ensures !At(s, k, p) {
      if k + |p| <= |s| {
        var w := s[k..k + |p|];
        assert w[0] == s[k] && w[|p| - 1] == s[k + |p| - 1];
        if 1 <= k && k + |p| < |s| { assert !At(v, k - 1, p); assert w == v[k - 1..k - 1 + |p|]; }
      }
    }
    assert Find(s, p, 0) == -1;
  }

  lemma {:induction false} RenderClean(v: string)
    requires Storable(v)
    ensures CleanText(Render(v)) && Inner(Render(v)) == Stored(v) && BreakFree(Render(v))
  {
    var r := Render(v);
    if v == "" || v == "\"\"" {
      assert r == "\"\"" && r[1..1] == "";
      assert !Contains("", "  #");
      QuotedHasNo("", "  #");
      assert "\"" + "" + "\"" == r;
    } else if v == "~" || IsDigits(v) || !NeedsQuotes(v) {
      assert r == v;
      BareHasNoComment(v);
    } else {
      assert r[1..|r| - 1] == v;
      QuotedHasNo(v, "  #");
    }
  }

  /** The parts of a rewritten line. */
  lemma {:induction false} NewLineParts(line: string, v: string) returns (ind: string)
    requires Kv(line).Some?
    ensures MatchField(line, Kv(line).value.key).Some?
    ensures var kv := Kv(line).value; var c := SplitComment(kv.raw).comment;
            && NewLine(line, kv.key, v) == ind + kv.key + ":" + (" " + Render(v) + c)
            && CommentText(c) && WordKey(kv.key) && |ind| == kv.indent && line[..|ind|] == ind
            && forall k :: 0 <= k < |ind| ==> ind[k] in SPACES
  {
    hide IsSpace;
    hide IsWord;
    hide Kv;
    hide MatchField;
    hide Render;
    hide SplitComment;
    var gap, rest;
    ind, gap, rest := KvParts(line);
    CommentShape(Strip(rest));
    assert line[..|ind|] == ind;
  }

  /** The rewritten line carries the same key at the same place, the new value and the old comment. */
  lemma {:induction false} Rewrite(line: string, v: string)
    requires Kv(line).Some? && Trimmed(Render(v), SPACES) && Render(v) != ""
    ensures MatchField(line, Kv(line).value.key).Some?
    ensures var kv := Kv(line).value;
            var nl := NewLine(line, kv.key, v);
            && Kv(nl) == Some(kv.(raw := Render(v) + SplitComment(kv.raw).comment))
            && LooseKey(nl) == Some(kv.key) && MatchField(nl, kv.key).Some?
            && nl != "" && Strip(nl) != "" && Strip(nl)[0] == kv.key[0]
  {
    hide IsSpace;
    hide IsWord;
    hide MatchField;
    hide NewLine;
    hide Render;
    hide SplitComment;
    var kv := Kv(line).value;
    var ind := NewLineParts(line, v);
    hide Kv;
    var r, c := Render(v), SplitComment(kv.raw).comment;
    var nl := NewLine(line, kv.key, v);
    var tail := " " + r + c;
    PaddedRaw(r, c);
    KvOf(ind, kv.key, tail, nl);
    assert nl == ind + (kv.key + ":" + tail) by { Regroup(ind, kv.key, tail); }
    StripStart(ind, kv.key + ":" + tail, nl);
  }

  lemma Regroup(a: string, b: string, c: string)
    ensures a + b + ":" + c == a + (b + ":" + c)
  {}

  lemma {:induction false} PaddedRaw(r: string, c: string)
    requires Trimmed(r, SPACES) && r != "" && CommentText(c)
    ensures Strip(" " + r + c) == r + c
  {
    hide IsSpace;
    CharClasses();
    StripPadded(" ", r + c, "", SPACES);
    assert " " + (r + c) + "" == " " + r + c;
  }

  /** A write forgets what stood there before: only the last of two writes shows. */
  lemma {:induction false} RewriteTwice(line: string, v: string, w: string)
    requires Kv(line).Some? && Trimmed(Render(v), SPACES) && Render(v) != "" && !Contains(Render(v), "  #")
    ensures MatchField(line, Kv(line).value.key).Some?
    ensures var key := Kv(line).value.key; var nl := NewLine(line, key, v);
            MatchField(nl, key).Some? && NewLine(nl, key, w) == NewLine(line, key, w)
  {
    hide IsSpace;
    hide IsWord;
    hide Render;
    hide SplitComment;
    hide MatchField;
    hide NewLine;
    var kv := Kv(line).value;
    Rewrite(line, v);
    var ind := NewLineParts(line, v);
    var nl := NewLine(line, kv.key, v);
    var ind2 := NewLineParts(line, w);
    var ind3 := NewLineParts(nl, w);
    hide Kv;
    assert ind == ind2;
    assert nl[..|ind|] == ind;
    CommentApart(Render(v), SplitComment(kv.raw).comment);
  }

  lemma {:induction false} RewriteBreakFree(line: string, v: string)
    requires Kv(line).Some? && BreakFree(line) && BreakFree(Render(v))
    ensures MatchField(line, Kv(line).value.key).Some?
    ensures BreakFree(NewLine(line, Kv(line).value.key, v))
  {
    hide IsSpace;
    hide IsWord;
    hide BreakFree;
    hide Render;
    hide MatchField;
    hide NewLine;
    hide LooseKey;
    hide WordKey;
    hide SplitComment;
    hide Strip;
    var kv := Kv(line).value;
    var ind, gap, rest := KvParts(line);
    var ind2 := NewLineParts(line, v);
    hide Kv;
    assert line[..|ind|] == ind && ind2 == ind;
    Pieces(ind, kv.key, gap, rest);
    CommentBreakFree(rest);
    Assembled(ind, kv.key, Render(v), SplitComment(kv.raw).comment);
  }

  lemma Pieces(ind: string, key: string, gap: string, rest: string)
    requires BreakFree(ind + key + gap + ":" + rest)
    ensures BreakFree(ind) && BreakFree(key) && BreakFree(rest)
  {
    hide BreakFree;
    Broken(ind + key + gap + ":", rest);
    Broken(ind + key + gap, ":");
    Broken(ind + key, gap);
    Broken(ind, key);
  }

  lemma Assembled(ind: string, key: string, r: string, c: string)
    requires BreakFree(ind) && BreakFree(key) && BreakFree(r) && BreakFree(c)
    ensures BreakFree(ind + key + ":" + (" " + r + c))
  {
    Separators();
    hide BreakFree;
    Broken(" ", r);
    Broken(" " + r, c);
    Broken(ind, key);
    Broken(ind + key, ":");
    Broken(ind + key + ":", " " + r + c);
  }

  lemma Broken(a: string, b: string)
    ensures BreakFree(a + b) <==> BreakFree(a) && BreakFree(b)
  {
    hide IsBreak;
    assert forall k :: 0 <= k < |b| ==> (a + b)[|a| + k] == b[k];
    assert forall k :: 0 <= k < |a| ==> (a + b)[k] == a[k];
  }

  lemma CommentBreakFree(rest: string)
    requires BreakFree(rest)
    ensures BreakFree(SplitComment(Strip(rest)).comment)
  {
    hide IsSpace;
    hide IsBreak;
    assert BreakFree(Strip(rest));
  }

  lemma Separators()
    ensures BreakFree(":") && BreakFree(" ")
  {}

  lemma {:induction false} StripStart(ind: string, s: string, nl: string)
    requires forall k :: 0 <= k < |ind| ==> ind[k] in SPACES
    requires s != "" && s[0] !in SPACES && nl == ind + s
    ensures Strip(nl) != "" && Strip(nl)[0] == s[0]
  {
    hide IsSpace;
    assert nl[|ind|] == s[0];
    SkipIs(nl, 0, SPACES, |ind|);
    var j := SkipBack(nl, |nl|, SPACES);
    assert j > |ind|;
  }

  // ---------------------------------------------------------------- which values survive a write and a read

  /** What the parser reads from a line whose value was just written, with the given comment behind it. */
  function ReadBack(v: string, comment: string): Option<string> {
    ReadRaw(Strip(Render(v) + comment))
  }

  /** The values that come back as they were written. */
  predicate RoundTrips(v: string, comment: string) {
    && Trimmed(v, SPACES) && Trimmed(v, QUOTES) && !IsNull(v)
    && (NeedsQuotes(v) ==> '"' !in v)
    && (v[0] == '#' && !NeedsQuotes(v) ==> comment != "")
  }

  lemma {:induction false} QuotedFind(v: string, comment: string, s: string)
    requires s == "\"" + v + "\"" + comment
    ensures var m := Upto(v, 0, '"');
            Find(s, "\"", 1) == m + 1 && s[1..m + 1] == v[..m]
  {
    var m := Upto(v, 0, '"');
    assert forall k :: 0 <= k < |v| ==> s[k + 1] == v[k];
    assert s[|v| + 1] == '"' && s[m + 1] == '"';
    forall k | 1 <= k < m + 1 ensures !At(s, k, "\"") {
      assert s[k..k + 1] == [v[k - 1]];
    }
    assert s[m + 1..m + 2] == "\"";
    FindIs(s, "\"", 1, m + 1);
  }

  lemma {:induction false} QuotedReadBack(v: string, comment: string)
    requires NeedsQuotes(v) && !IsNull(v) && v != "\"\""
    requires CommentText(comment)
    ensures ReadBack(v, comment) == Keep(v[..Upto(v, 0, '"')])
  {
    hide IsSpace;
    hide Keep;
    hide NeedsQuotes;
    assert !IsDigits(v) by { DigitsAreBare(v); }
    var s := "\"" + v + "\"" + comment;
    assert Render(v) == "\"" + v + "\"";
    CharClasses();
    assert s[0] == '"' && s[|s| - 1] !in SPACES;
    assert Trimmed(s, SPACES);
    QuotedFind(v, comment, s);
    hide Render;
    hide Find;
    hide Strip;
    assert ReadRaw(s) == Keep(s[1..Find(s, "\"", 1)]);
  }

  lemma DigitsAreBare(v: string)
    ensures IsDigits(v) ==> !NeedsQuotes(v)
  {
    if IsDigits(v) {
      assert v[0] != '[' && "["[0] == '[';
      assert forall k :: 0 <= k < |v| ==> v[k] != ' ' && v[k] != ':';
    }
  }

  /** Keeping a text never yields something longer, and yields the text itself only if it was trimmed
      of blanks and quotes already. */
  lemma {:induction false} KeepSame(val: string, v: string)
    requires |val| <= |v| && Keep(val) == Some(v)
    ensures val == v && Trimmed(v, SPACES) && Trimmed(v, QUOTES) && !IsNull(v)
  {
    hide IsSpace;
    hide IsNull;
    var a := StripOf(val, {'"'});
    var b := StripOf(a, {'\''});
    assert Strip(b) == v;
    assert a == val && b == a;
  }

  lemma ReadUnquoted(s: string)
    requires s != "" && s[0] !in QUOTES
    ensures var h := Find(s, "  #", 0);
            ReadRaw(s) == if h != -1 then Keep(Strip(s[..h])) else if s[0] == '#' then None else Keep(s)
  {
    hide Find;
    hide Strip;
    hide Keep;
  }

  lemma BeforeFound(s: string, c: char, f: nat)
    requires |s| > 0 && f == Find(s, [c], 1)
    ensures 1 <= f <= |s| && c !in s[1..f]
  {
    forall k | 1 <= k < f ensures s[k] != c { assert !At(s, k, [c]); assert s[k..k + 1] == [s[k]]; }
  }

  lemma {:induction false} BareReadBack(v: string, comment: string)
    requires !NeedsQuotes(v) && Trimmed(v, SPACES) && !IsNull(v) && v != "\"\""
    requires CommentText(comment)
    ensures v[0] == '#' && comment == "" ==> ReadBack(v, comment) == None
    ensures (v[0] == '#' ==> comment != "") && v[0] !in QUOTES ==> ReadBack(v, comment) == Keep(v)
    ensures v[0] in QUOTES ==> ReadBack(v, comment) != Some(v)
  {
    hide IsSpace;
    hide Keep;
    BareHasNoComment(v);
    CommentApart(v, comment);
    NoComment(v, comment);
    var s := v + comment;
    assert s[..|v|] == v;
    assert Trimmed(s, SPACES);
    assert Render(v) == v;
    hide Render;
    hide NeedsQuotes;
    if v[0] !in QUOTES { ReadUnquoted(s); }
    if v[0] in QUOTES {
      var f := Find(s, [v[0]], 1);
      if f == -1 {
        assert ReadRaw(s) == Keep(v);
        if Keep(v) == Some(v) { KeepSame(v, v); }
      } else {
        BeforeFound(s, v[0], f);
        assert ReadRaw(s) == Keep(s[1..f]);
        KeepWithin(s[1..f], v[0]);
        assert v[0] in v;
      }
    }
  }

  lemma {:induction false} KeepWithin(val: string, q: char)
    requires q !in val
    ensures Keep(val).Some? ==> q !in Keep(val).value
  {
    hide IsSpace;
    hide IsNull;
    var a := StripOf(val, {'"'});
    assert q !in a;
    var b := StripOf(a, {'\''});
    assert q !in b;
  }

  /** A written value is read back unchanged exactly when it is free of blanks and quotes at its ends,
      is no null marker, hides no double quote where it has to be quoted, and does not turn into a
      comment. */
  lemma {:induction false} RoundTripExact(v: string, comment: string)
    requires CommentText(comment)
    ensures ReadBack(v, comment) == Some(v) <==> RoundTrips(v, comment)
  {
    hide IsSpace;
    hide Keep;
    if IsNull(v) || v == "\"\"" {
      NullReadBack(v, comment);
    } else if !Trimmed(v, SPACES) {
    } else if NeedsQuotes(v) {
      QuotedReadBack(v, comment);
      var val := v[..Upto(v, 0, '"')];
      if Keep(val) == Some(v) { KeepSame(val, v); }
      if RoundTrips(v, comment) { assert val == v; KeepInner(v); }
    } else {
      BareReadBack(v, comment);
      if v[0] !in QUOTES {
        if Keep(v) == Some(v) { KeepSame(v, v); }
        if Trimmed(v, QUOTES) { KeepInner(v); }
      }
    }
  }

  lemma {:induction false} NullReadBack(v: string, comment: string)
    requires IsNull(v) || v == "\"\""
    requires CommentText(comment)
    ensures ReadBack(v, comment) == None
  {
    hide IsSpace;
    hide NeedsQuotes;
    hide IsDigits;
    if v == "" || v == "\"\"" {
      EmptyReadBack(comment);
    } else {
      MarkerReadBack(v, comment);
    }
  }

  lemma {:induction false} EmptyReadBack(comment: string)
    requires CommentText(comment)
    ensures ReadRaw(Strip("\"\"" + comment)) == None
  {
    hide IsSpace;
    var r := "\"\"";
    var s := r + comment;
    assert Quoted(r, '"') by { assert r[1..1] == ""; }
    QuoteAt(r, comment, '"');
    assert s[1..1] == "";
    TrimEnds(r, comment);
  }

  lemma {:induction false} MarkerReadBack(v: string, comment: string)
    requires IsNull(v) && v != "" && CommentText(comment)
    ensures Render(v) == v && ReadRaw(Strip(v + comment)) == None
  {
    hide IsSpace;
    var s := v + comment;
    MarkerIsBare(v);
    hide NeedsQuotes;
    hide IsDigits;
    TrimEnds(v, comment);
    BareHasNoComment(v);
    NoComment(v, comment);
    assert s[..|v|] == v;
    ReadUnquoted(s);
    hide Render;
    hide ReadRaw;
    hide Find;
  }

  lemma MarkerIsBare(v: string)
    requires IsNull(v) && v != ""
    ensures ' ' !in v && !NeedsQuotes(v) && v[0] !in QUOTES && v[0] != '#' && Keep(v) == None
  {
    hide IsSpace;
    assert ' ' !in "~" && ' ' !in "null" && ' ' !in "None" && ' ' !in "none";
    assert v[0] != '[';
    assert ':' !in "~" && ':' !in "null" && ':' !in "None" && ':' !in "none";
  }

  lemma {:induction false} TrimEnds(r: string, comment: string)
    requires r != "" && CommentText(comment)
    requires r == "\"\"" || r == "~" || r == "null" || r == "None" || r == "none"
    ensures Trimmed(r, SPACES) && Strip(r + comment) == r + comment
  {}

  // ---------------------------------------------------------------- what a line lacks, its parts lack

  lemma PartLacks(s: string, i: nat, j: nat, p: string)
    requires i <= j <= |s| && !Contains(s, p) && p != ""
    ensures !Contains(s[i..j], p)
  {
    var t := s[i..j];
    forall k | 0 <= k <= |t| ensures !At(t, k, p) {
      if k + |p| <= |t| {
        var w := t[k..k + |p|];
        assert forall m :: 0 <= m < |p| ==> w[m] == s[i + k + m];
        assert w == s[i + k..i + k + |p|];
        assert !At(s, i + k, p);
      }
    }
    ContainsAt(t, p);
  }

  lemma StripLacks(s: string, p: string)
    requires !Contains(s, p) && p != ""
    ensures !Contains(Strip(s), p)
  {
    hide IsSpace;
    hide Contains;
    var i, j := Skip(s, 0, SPACES), SkipBack(s, |s|, SPACES);
    if i < j { PartLacks(s, i, j, p); } else { PartLacks(s, 0, 0, p); }
  }

  lemma TailOf(a: string, b: string, s: string)
    requires s == a + b
    ensures s[|a|..|s|] == b
  {}

  lemma {:induction false} RawLacks(line: string, p: string)
    requires Kv(line).Some? && !Contains(line, p) && p != ""
    ensures !Contains(Kv(line).value.raw, p)
  {
    hide Strip;
    hide Contains;
    var ind, gap, rest := KvParts(line);
    hide Kv;
    hide MatchField;
    hide LooseKey;
    hide WordKey;
    var head := ind + Kv(line).value.key + gap + ":";
    assert line == head + rest;
    TailOf(head, rest, line);
    PartLacks(line, |head|, |line|, p);
    StripLacks(rest, p);
  }

  lemma {:induction false} SplitLacks(raw: string, p: string)
    requires !Contains(raw, p) && p != ""
    ensures !Contains(SplitComment(raw).comment, p)
  {
    hide Strip;
    var h := Find(raw, "  #", 0);
    hide Contains;
    if h != -1 {
      PartLacks(raw, h, |raw|, p);
      assert raw[h..|raw|] == raw[h..];
    } else {
      PartLacks(raw, 0, 0, p);
      assert raw[0..0] == "";
    }
  }

  /** The comment of a line holds nothing the line does not hold. */
  lemma CommentLacks(line: string, p: string)
    requires Kv(line).Some? && !Contains(line, p) && p != ""
    ensures !Contains(SplitComment(Kv(line).value.raw).comment, p)
  {
    hide Kv;
    hide Contains;
    hide SplitComment;
    RawLacks(line, p);
    SplitLacks(Kv(line).value.raw, p);
  }
}
