/** The usual optional value. */
module Wrappers {
  datatype Option<+T> = None | Some(value: T)
}

/** Python string operations that the text stores of NightClaw are built from:
    strip, find, split, join and splitlines on `seq<char>`. */
module Text {

  // str.isspace, which is also what strip() removes and what \s matches
  predicate IsSpace(c: char) {
    || '\t' <= c <= '\r' || '\U{1C}' <= c <= ' ' || c == '\U{85}' || c == '\U{A0}' || c == '\U{1680}'
    || '\U{2000}' <= c <= '\U{200A}' || c == '\U{2028}' || c == '\U{2029}' || c == '\U{202F}'
    || c == '\U{205F}' || c == '\U{3000}'
  }

  // the line boundaries of str.splitlines
  predicate IsBreak(c: char) {
    || '\n' <= c <= '\r' || '\U{1C}' <= c <= '\U{1E}' || c == '\U{85}' || c == '\U{2028}' || c == '\U{2029}'
  }

  // \w, on ASCII
  predicate IsWord(c: char) {
    'a' <= c <= 'z' || 'A' <= c <= 'Z' || '0' <= c <= '9' || c == '_'
  }

  /** Letters in lower and upper case. */
  function Lower(c: char): char { if 'A' <= c <= 'Z' then (c as int + 32) as char else c }
  function Lowered(s: string): string { seq(|s|, k requires 0 <= k < |s| => Lower(s[k])) }
  function Upper(c: char): char { if 'a' <= c <= 'z' then (c as int - 32) as char else c }
  function Uppered(s: string): string { seq(|s|, k requires 0 <= k < |s| => Upper(s[k])) }

  ghost predicate Distinct(s: seq<string>) { forall i, j :: 0 <= i < j < |s| ==> s[i] != s[j] }

  const SPACES: set<char> := set c: char | IsSpace(c)
  const WORDS: set<char> := set c: char | IsWord(c)
  const QUOTES: set<char> := {'"', '\''}

  ghost predicate BreakFree(s: string) { forall k :: 0 <= k < |s| ==> !IsBreak(s[k]) }

  /** First index at or after i whose character is outside cs. */
  function Skip(s: string, i: nat, cs: set<char>): (j: nat)
    requires i <= |s|
    ensures i <= j <= |s|
    ensures forall k :: i <= k < j ==> s[k] in cs
    ensures j < |s| ==> s[j] !in cs
    decreases |s| - i
  {
    if i < |s| && s[i] in cs then Skip(s, i + 1, cs) else i
  }

  /** Least j <= i such that s[j..i] consists of characters in cs. */
  function SkipBack(s: string, i: nat, cs: set<char>): (j: nat)
    requires i <= |s|
    ensures j <= i
    ensures forall k :: j <= k < i ==> s[k] in cs
    ensures 0 < j ==> s[j - 1] !in cs
  {
    if 0 < i && s[i - 1] in cs then SkipBack(s, i - 1, cs) else i
  }

  lemma SkipIs(s: string, i: nat, cs: set<char>, j: nat)
    requires i <= j <= |s|
    requires forall k :: i <= k < j ==> s[k] in cs
    requires j < |s| ==> s[j] !in cs
    ensures Skip(s, i, cs) == j
  {}

  lemma SkipBackIs(s: string, i: nat, cs: set<char>, j: nat)
    requires j <= i <= |s|
    requires forall k :: j <= k < i ==> s[k] in cs
    requires 0 < j ==> s[j - 1] !in cs
    ensures SkipBack(s, i, cs) == j
  {}

  predicate Trimmed(s: string, cs: set<char>) {
    s != "" ==> s[0] !in cs && s[|s| - 1] !in cs
  }

  /** The text without the characters of cs at either end (Python strip with an argument). */
  function StripOf(s: string, cs: set<char>): (r: string)
    ensures Trimmed(r, cs)
    ensures Trimmed(s, cs) ==> r == s
    ensures |r| <= |s| && (r != s ==> |r| < |s|)
  {
    var i := Skip(s, 0, cs);
    var j := SkipBack(s, |s|, cs);
    if i < j then s[i..j] else ""
  }

  /** The text without white space at either end. */
  function Strip(s: string): (r: string)
    ensures Trimmed(r, SPACES)
    ensures Trimmed(s, SPACES) ==> r == s
  {
    StripOf(s, SPACES)
  }

  /** Stripping ignores what it removes: any padding around a trimmed text. */
  lemma StripPadded(a: string, s: string, b: string, cs: set<char>)
    requires forall k :: 0 <= k < |a| ==> a[k] in cs
    requires forall k :: 0 <= k < |b| ==> b[k] in cs
    requires Trimmed(s, cs)
    ensures StripOf(a + s + b, cs) == s
  {
    var t := a + s + b;
    if s == "" {
      SkipIs(t, 0, cs, |t|);
    } else {
      assert t[|a|] == s[0] && t[|a| + |s| - 1] == s[|s| - 1];
      SkipIs(t, 0, cs, |a|);
      SkipBackIs(t, |t|, cs, |a| + |s|);
      assert t[|a|..|a| + |s|] == s;
    }
  }

  lemma SliceInside(a: string, t: string, b: string, i: nat, j: nat)
    requires i <= j <= |t|
    ensures (a + t + b)[|a| + i..|a| + j] == t[i..j]
  {}

  lemma SlicePrefix(a: string, b: string, i: nat, j: nat)
    requires i <= j <= |a|
    ensures (a + b)[i..j] == a[i..j]
  {}

  predicate At(s: string, k: nat, p: string) {
    k + |p| <= |s| && s[k..k + |p|] == p
  }

  /** The first place of p at or behind i, or -1. */
  function Find(s: string, p: string, i: nat): (r: int)
    requires i <= |s|
    ensures r == -1 || i <= r <= |s| - |p|
    ensures r == -1 ==> forall k :: i <= k <= |s| ==> !At(s, k, p)
    ensures r != -1 ==> At(s, r, p) && forall k :: i <= k < r ==> !At(s, k, p)
    decreases |s| - i
  {
    if At(s, i, p) then i
    else if i < |s| then Find(s, p, i + 1)
    else -1
  }

  lemma FindIs(s: string, p: string, i: nat, r: nat)
    requires i <= r <= |s| && At(s, r, p)
    requires forall k :: i <= k < r ==> !At(s, k, p)
    ensures Find(s, p, i) == r
  {}

  predicate Contains(s: string, p: string) { Find(s, p, 0) != -1 }

  lemma ContainsAt(s: string, p: string)
    ensures Contains(s, p) <==> exists k :: 0 <= k <= |s| && At(s, k, p)
  {}

  /** First index at or after i that holds c, or |s|. */
  function Upto(s: string, i: nat, c: char): (j: nat)
    requires i <= |s|
    ensures i <= j <= |s|
    ensures forall k :: i <= k < j ==> s[k] != c
    ensures j < |s| ==> s[j] == c
    decreases |s| - i
  {
    if i < |s| && s[i] != c then Upto(s, i + 1, c) else i
  }

  lemma UptoIs(s: string, i: nat, c: char, j: nat)
    requires i <= j <= |s|
    requires forall k :: i <= k < j ==> s[k] != c
    requires j < |s| ==> s[j] == c
    ensures Upto(s, i, c) == j
  {}

  /** The parts between the separators. */
  function Split(s: string, c: char): (r: seq<string>)
    ensures |r| >= 1
    ensures c !in s ==> r == [s]
    decreases |s|
  {
    var j := Upto(s, 0, c);
    if j == |s| then [s] else [s[..j]] + Split(s[j + 1..], c)
  }

  /** The parts with the separator between them. */
  function Join(parts: seq<string>, sep: string): string {
    if |parts| == 0 then ""
    else if |parts| == 1 then parts[0]
    else parts[0] + sep + Join(parts[1..], sep)
  }

  lemma {:induction false} SplitPrefix(a: string, s: string, c: char)
    requires c !in a
    ensures Split(a + [c] + s, c) == [a] + Split(s, c)
  {
    var t := a + [c] + s;
    assert forall k :: 0 <= k < |a| ==> t[k] == a[k];
    UptoIs(t, 0, c, |a|);
    assert t[..|a|] == a && t[|a| + 1..] == s;
  }

  lemma SplitStep(s: string, c: char) returns (j: nat)
    ensures j <= |s|
    ensures Split(s, c) == if j == |s| then [s] else [s[..j]] + Split(s[j + 1..], c)
  {
    hide Split;
    hide Upto;
    j := Upto(s, 0, c);
    if j < |s| {
      assert s == s[..j] + [c] + s[j + 1..];
      SplitPrefix(s[..j], s[j + 1..], c);
    }
  }

  /** Splitting a text at one of its separators splits the two halves. */
  lemma {:induction false} SplitConcat(a: string, s: string, c: char)
    ensures Split(a + [c] + s, c) == Split(a, c) + Split(s, c)
    decreases |a|
  {
    hide Split;
    var j := Upto(a, 0, c);
    hide Upto;
    if j == |a| {
      assert c !in a;
      SplitPrefix(a, s, c);
    } else {
      var first, rest := a[..j], a[j + 1..];
      Around(first, rest, [c], s);
      assert a == first + [c] + rest;
      SplitPrefix(first, rest + [c] + s, c);
      SplitPrefix(first, rest, c);
      SplitConcat(rest, s, c);
    }
  }

  lemma Around(first: string, rest: string, c: string, s: string)
    ensures first + c + rest + c + s == first + c + (rest + c + s)
  {}

  /** Splitting inverts joining when no part holds the separator. */
  lemma {:induction false} SplitJoin(parts: seq<string>, c: char)
    requires |parts| >= 1
    requires forall k :: 0 <= k < |parts| ==> c !in parts[k]
    ensures Split(Join(parts, [c]), c) == parts
  {
    if |parts| == 1 {
      assert parts == [parts[0]];
    } else {
      SplitJoin(parts[1..], c);
      SplitPrefix(parts[0], Join(parts[1..], [c]), c);
      assert parts == [parts[0]] + parts[1..];
    }
  }

  function BreakLength(s: string, j: nat): (n: nat)
    requires j < |s| && IsBreak(s[j])
    ensures 1 <= n <= 2 && j + n <= |s|
  {
    if s[j] == '\r' && j + 1 < |s| && s[j + 1] == '\n' then 2 else 1
  }

  const NON_BREAKS: set<char> := set c: char | !IsBreak(c)

  /** The lines of a text (Python splitlines): any line boundary ends one. */
  function SplitLines(s: string): (r: seq<string>)
    ensures forall k :: 0 <= k < |r| ==> BreakFree(r[k])
    decreases |s|
  {
    var j := Skip(s, 0, NON_BREAKS);
    if s == "" then [] else if j == |s| then [s]
    else [s[..j]] + SplitLines(s[j + BreakLength(s, j)..])
  }

  /** What the mutators write back: every line with a newline behind it. */
  function Written(lines: seq<string>): string {
    if |lines| == 0 then "\n"
    else if |lines| == 1 then lines[0] + "\n"
    else lines[0] + "\n" + Written(lines[1..])
  }

  lemma {:induction false} SplitFirst(first: string, rest: string)
    requires BreakFree(first)
    ensures SplitLines(first + "\n" + rest) == [first] + SplitLines(rest)
  {
    var s := first + "\n" + rest;
    NewlineBreaks(s, |first|);
    hide IsBreak;
    assert forall k :: 0 <= k < |first| ==> s[k] == first[k];
    SkipIs(s, 0, NON_BREAKS, |first|);
    assert s[..|first|] == first && s[|first| + 1..] == rest;
  }

  lemma NewlineBreaks(s: string, j: nat)
    requires j < |s| && s[j] == '\n'
    ensures IsBreak(s[j]) && s[j] !in NON_BREAKS && BreakLength(s, j) == 1
  {}

  /** Reading back what was written gives the same lines. */
  lemma {:induction false} ReadWritten(lines: seq<string>)
    requires forall k :: 0 <= k < |lines| ==> BreakFree(lines[k])
    ensures SplitLines(Written(lines)) == if lines == [] then [""] else lines
  {
    hide SplitLines;
    hide BreakFree;
    hide Written;
    if lines == [] {
      NoneWritten();
    } else {
      if |lines| == 1 {
        assert lines == [lines[0]];
        OneWritten(lines[0]);
      } else {
        assert lines == [lines[0]] + lines[1..];
        ReadWritten(lines[1..]);
        MoreWritten(lines[0], lines[1..]);
      }
    }
  }

  lemma NoneWritten()
    ensures SplitLines(Written([])) == [""]
  {
    SplitFirst("", "");
    assert "" + "\n" + "" == "\n";
  }

  lemma OneWritten(line: string)
    requires BreakFree(line)
    ensures SplitLines(Written([line])) == [line]
  {
    SplitFirst(line, "");
    assert line + "\n" + "" == line + "\n";
  }

  lemma MoreWritten(first: string, rest: seq<string>)
    requires BreakFree(first) && rest != []
    ensures SplitLines(Written([first] + rest)) == [first] + SplitLines(Written(rest))
  {
    assert ([first] + rest)[1..] == rest;
    assert Written([first] + rest) == first + "\n" + Written(rest);
    hide Written;
    hide SplitLines;
    hide BreakFree;
    SplitFirst(first, Written(rest));
  }


  // ---------------------------------------------------------------- lines of concatenations

  ghost predicate AllBreakFree(parts: seq<string>) { forall k :: 0 <= k < |parts| ==> BreakFree(parts[k]) }

  lemma Concat(a: string, b: string)
    requires BreakFree(a) && BreakFree(b)
    ensures BreakFree(a + b)
  {
    hide IsBreak;
  }

  lemma {:induction false} JoinBreakFree(parts: seq<string>, sep: string)
    requires AllBreakFree(parts) && BreakFree(sep)
    ensures BreakFree(Join(parts, sep))
  {
    hide BreakFree;
    if |parts| == 0 {
      assert BreakFree("") by { EmptyBreakFree(); }
    } else if |parts| > 1 {
      JoinBreakFree(parts[1..], sep);
      Concat(parts[0], sep);
      Concat(parts[0] + sep, Join(parts[1..], sep));
    }
  }

  lemma EmptyBreakFree()
    ensures BreakFree("") && BreakFree("| ") && BreakFree(" |") && BreakFree(" | ")
  {}

  /** Empty, or ending in a newline. */
  predicate WholeLines(text: string) { text == "" || text[|text| - 1] == '\n' }

  lemma LineStep(s: string, j: nat)
    requires s != "" && j == Skip(s, 0, NON_BREAKS) && j < |s|
    ensures IsBreak(s[j]) && SplitLines(s) == [s[..j]] + SplitLines(s[j + BreakLength(s, j)..])
  {
    hide IsBreak;
  }

  lemma BreakWithin(a: string, b: string, j: nat)
    requires WholeLines(a) && j < |a| && IsBreak(a[j])
    ensures IsBreak((a + b)[j]) && BreakLength(a + b, j) == BreakLength(a, j)
    ensures (a + b)[j + BreakLength(a, j)..] == a[j + BreakLength(a, j)..] + b && WholeLines(a[j + BreakLength(a, j)..])
  {
    hide IsBreak;
  }

  lemma FirstBreak(a: string, b: string, j: nat)
    requires WholeLines(a) && a != "" && j == Skip(a, 0, NON_BREAKS)
    ensures j < |a| && Skip(a + b, 0, NON_BREAKS) == j && (a + b)[..j] == a[..j]
  {
    NewlineBreaks(a, |a| - 1);
    hide IsBreak;
    assert forall k :: 0 <= k < |a| ==> (a + b)[k] == a[k];
    SkipIs(a + b, 0, NON_BREAKS, j);
  }

  lemma ConcatCut(a: string, b: string) returns (first: string, rest: string)
    requires WholeLines(a) && a != ""
    ensures |rest| < |a| && WholeLines(rest)
    ensures SplitLines(a) == [first] + SplitLines(rest) && SplitLines(a + b) == [first] + SplitLines(rest + b)
  {
    hide SplitLines;
    hide BreakLength;
    hide IsBreak;
    hide BreakFree;
    hide WholeLines;
    hide Skip;
    var j := Skip(a, 0, NON_BREAKS);
    FirstBreak(a, b, j);
    LineStep(a, j);
    LineStep(a + b, j);
    BreakWithin(a, b, j);
    first, rest := a[..j], a[j + BreakLength(a, j)..];
  }

  /** The lines of whole lines followed by a text are the lines of both. */
  lemma {:induction false} SplitLinesConcat(a: string, b: string)
    requires WholeLines(a)
    ensures SplitLines(a + b) == SplitLines(a) + SplitLines(b)
    decreases |a|
  {
    hide SplitLines;
    hide BreakFree;
    hide WholeLines;
    if a == "" {
      NothingSplit(b);
    } else {
      var first, rest := ConcatCut(a, b);
      SplitLinesConcat(rest, b);
      Regroup([first], SplitLines(rest), SplitLines(b));
    }
  }

  lemma Regroup(a: seq<string>, b: seq<string>, c: seq<string>)
    ensures a + (b + c) == a + b + c
  {}

  lemma NothingSplit(b: string)
    ensures "" + b == b && SplitLines("") + SplitLines(b) == SplitLines(b)
  {
    hide BreakFree;
  }
}
