/** LOCK.md: the text the lock commands write, the readers that look at it, and the commands themselves
    (commands/lock.py, commands/audit.py). */
module LockFile {
  import opened Text
  import opened Wrappers
  import opened YamlLine

  const DASH := "\U{2014}"
  const DIGITS: set<char> := set c: char | '0' <= c <= '9'
  const VISIBLE: set<char> := set c: char | !IsSpace(c)

  const EXPIRES := "expires_at:"
  const FAILURES := "consecutive_pass_failures:"

  // ---------------------------------------------------------------- numbers

  function Digit(d: nat): char
    requires d < 10
  {
    ('0' as int + d) as char
  }

  function Decimal(n: nat): (s: string)
    ensures s != "" && forall k :: 0 <= k < |s| ==> s[k] in DIGITS
  {
    if n < 10 then [Digit(n)] else Decimal(n / 10) + [Digit(n % 10)]
  }

  /** A text of digits as a number. */
  function Number(s: string): nat
    requires forall k :: 0 <= k < |s| ==> s[k] in DIGITS
  {
    if s == "" then 0 else 10 * Number(s[..|s| - 1]) + (s[|s| - 1] as int - '0' as int)
  }

  lemma {:induction false} NumberDecimal(n: nat)
    ensures Number(Decimal(n)) == n
  {
    if n < 10 {
      assert [Digit(n)][..0] == "";
    } else {
      NumberDecimal(n / 10);
      assert Decimal(n)[..|Decimal(n)| - 1] == Decimal(n / 10);
    }
  }

  // ---------------------------------------------------------------- the text

  function Field(key: string, value: string): string { key + ": " + value }

  function BodyLines(status: string, holder: string, run: string, lockedAt: string, expires: string, failures: nat): seq<string> {
    ["# LOCK", "", "```yaml", Field("status", status), Field("holder", holder), Field("run_id", run),
     Field("locked_at", lockedAt), Field("expires_at", expires), Field("consecutive_pass_failures", Decimal(failures)), "```"]
  }

  function Held(holder: string, run: string, lockedAt: string, expires: string, failures: nat): string {
    Written(BodyLines("locked", holder, run, lockedAt, expires, failures))
  }

  const RELEASED: string := Written(BodyLines("released", DASH, DASH, DASH, DASH, 0))

  // ---------------------------------------------------------------- the acquirer's reader

  /** The group of the match of  lit\s*([cs]+)  that begins at i. */
  function MatchAt(text: string, lit: string, cs: set<char>, i: nat): (r: Option<string>)
    requires i <= |text|
    ensures r.Some? ==> r.value != "" && forall k :: 0 <= k < |r.value| ==> r.value[k] in cs
  {
    if !At(text, i, lit) then None else
    var a := Skip(text, i + |lit|, SPACES);
    var b := Skip(text, a, cs);
    if b > a then Some(text[a..b]) else None
  }

  /** The group of the first match at or after i. */
  function Search(text: string, lit: string, cs: set<char>, i: nat): (r: Option<string>)
    requires i <= |text|
    ensures r.Some? ==> r.value != "" && forall k :: 0 <= k < |r.value| ==> r.value[k] in cs
    decreases |text| - i
  {
    if MatchAt(text, lit, cs, i).Some? then MatchAt(text, lit, cs, i)
    else if i < |text| then Search(text, lit, cs, i + 1)
    else None
  }

  predicate IsLocked(text: string) { Contains(text, "status: locked") || Contains(text, "status:locked") }

  function ExpiryOf(text: string): Option<string> { Search(text, EXPIRES, VISIBLE, 0) }

  function FailuresOf(text: string): nat {
    match Search(text, FAILURES, DIGITS, 0)
    case None => 0
    case Some(d) => Number(d)
  }

  // ---------------------------------------------------------------- crash-recover's reader

  predicate Initial(c: char) { 'a' <= c <= 'z' || 'A' <= c <= 'Z' || c == '_' }

  const NAME_CHARS: set<char> := set c: char | Initial(c) || '0' <= c <= '9'

  /** The name and the value of a line of the form name: value, once it is stripped. */
  function LineField(line: string): Option<(string, string)> {
    var s := Strip(line);
    if s == "" || !Initial(s[0]) then None else
    var a := Skip(s, 0, NAME_CHARS);
    var c := Skip(s, a, SPACES);
    if c == |s| || s[c] != ':' then None else
    var v := Skip(s, c + 1, SPACES);
    if v == |s| then None else Some((s[..a], Strip(s[v..])))
  }

  function LockFields(lines: seq<string>, n: nat): map<string, string>
    requires n <= |lines|
  {
    if n == 0 then map[] else
    match LineField(lines[n - 1])
    case None => LockFields(lines, n - 1)
    case Some((k, v)) => LockFields(lines, n - 1)[k := v]
  }

  function FieldsOf(text: string): map<string, string> { LockFields(SplitLines(text), |SplitLines(text)|) }

  function Get(m: map<string, string>, k: string): string { if k in m then m[k] else "" }

  // ---------------------------------------------------------------- time

  /** A timestamp as datetime.fromisoformat sees it; comparing a naive one with an aware one fails. */
  datatype Instant = Parsed(t: int) | Naive | Unparseable

  /** How instants are printed (whole seconds) and parsed (microseconds). */
  datatype Iso = Iso(format: int -> string, parse: string -> Instant)

  const SECOND := 1000000
  const MINUTE := 60 * SECOND

  // ---------------------------------------------------------------- the commands

  datatype Answer = Acquired | Denied | Failed

  /** lock-acquire at one instant */
  function Acquire(file: Option<string>, holder: string, run: string, expires: string, now: int, iso: Iso): (Option<string>, Answer) {
    var failures := if file.Some? then FailuresOf(file.value) else 0;
    var fresh_ := Some(Held(holder, run, iso.format(now / SECOND), expires, failures));
    if file.Some? && IsLocked(file.value) && ExpiryOf(file.value).Some? then
      match iso.parse(ExpiryOf(file.value).value)
      case Parsed(t) => if now < t then (file, Denied) else (fresh_, Acquired)
      case Naive => (file, Failed)
      case Unparseable => (fresh_, Acquired)
    else (fresh_, Acquired)
  }

  /** lock-release */
  function Release(file: Option<string>): (Option<string>, Answer) {
    if file.None? || !IsLocked(file.value) then (file, Denied) else (Some(RELEASED), Acquired)
  }

  datatype Verdict = NoLockFile | LockReleased | HolderUnknown | LockedAtUnparseable | Broken | TooFresh(minutes: int)
                   | NotStarted(run: string) | Completed(run: string) | Recovered(run: string, minutes: int)

  /** At position i the audit log tells of a task of the run behind T0: T1 to T9, or T0.1 to T0.9. */
  predicate StartedAt(line: string, run: string, i: nat)
    requires i <= |line|
  {
    var head := "TASK:" + run + ".T";
    && At(line, i, head)
    && var j := i + |head|;
       || (j < |line| && '1' <= line[j] <= '9')
       || (j + 2 < |line| && line[j] == '0' && line[j + 1] == '.' && '1' <= line[j + 2] <= '9')
  }

  predicate StartedLine(line: string, run: string) { exists i :: 0 <= i <= |line| && StartedAt(line, run, i) }

  predicate Started(lines: seq<string>, run: string) { exists k :: 0 <= k < |lines| && StartedLine(lines[k], run) }

  predicate Unknown(run: string) { run == "" || run == DASH || run == "-" || run == "~" }

  /** crash-recover at one instant */
  function CrashRecover(file: Option<string>, audit: string, registry: string, now: int, iso: Iso): (Option<string>, Verdict) {
    if file.None? then (file, NoLockFile) else
    var m := FieldsOf(file.value);
    var run := Strip(Get(m, "run_id"));
    if Get(m, "status") != "locked" then (file, LockReleased)
    else if Unknown(run) then (file, HolderUnknown)
    else match iso.parse(Strip(Get(m, "locked_at")))
      case Unparseable => (file, LockedAtUnparseable)
      case Naive => (file, Broken)
      case Parsed(t) =>
        var minutes := (now - t) / MINUTE;
        if minutes < 10 then (file, TooFresh(minutes))
        else if !Started(SplitLines(audit), run) then (file, NotStarted(run))
        else if Contains(registry, run) then (file, Completed(run))
        else (Some(RELEASED), Recovered(run, minutes))
  }

  /** The lock file as the commands read and overwrite it. */
  class LockMd {
    var text: Option<string>

    constructor (initial: Option<string>)
      ensures text == initial
    {
      text := initial;
    }

    method LockAcquire(holder: string, run: string, expires: string, now: int, iso: Iso) returns (answer: Answer)
      modifies this
      ensures (text, answer) == Acquire(old(text), holder, run, expires, now, iso)
    {
      var failures := 0;
      if text.Some? {
        var existing := text.value;
        if IsLocked(existing) {
          var e := ExpiryOf(existing);
          if e.Some? {
            match iso.parse(e.value) {
              case Parsed(t) =>
                if now < t {
                  return Denied;
                }
              case Naive => return Failed;
              case Unparseable =>
            }
          }
        }
        failures := FailuresOf(existing);
      }
      text := Some(Held(holder, run, iso.format(now / SECOND), expires, failures));
      return Acquired;
    }

    method LockRelease() returns (answer: Answer)
      modifies this
      ensures (text, answer) == Release(old(text))
    {
      if text.None? || !IsLocked(text.value) {
        return Denied;
      }
      text := Some(RELEASED);
      return Acquired;
    }

    method Recover(audit: string, registry: string, now: int, iso: Iso) returns (verdict: Verdict)
      modifies this
      ensures (text, verdict) == CrashRecover(old(text), audit, registry, now, iso)
    {
      hide FieldsOf;
      hide Strip;
      hide SplitLines;
      hide Started;
      hide Contains;
      hide Written;
      if text.None? {
        return NoLockFile;
      }
      var fields := ReadFields(text.value);
      if Get(fields, "status") != "locked" {
        return LockReleased;
      }
      var run := Strip(Get(fields, "run_id"));
      if Unknown(run) {
        return HolderUnknown;
      }
      var lockedAt := iso.parse(Strip(Get(fields, "locked_at")));
      if lockedAt.Unparseable? {
        return LockedAtUnparseable;
      }
      if lockedAt.Naive? {
        return Broken;
      }
      var minutes := (now - lockedAt.t) / MINUTE;
      if minutes < 10 {
        return TooFresh(minutes);
      }
      var started := HasStarted(audit, run);
      if !started {
        return NotStarted(run);
      }
      if Contains(registry, run) {
        return Completed(run);
      }
      text := Some(RELEASED);
      return Recovered(run, minutes);
    }

    static method ReadFields(text: string) returns (fields: map<string, string>)
      ensures fields == FieldsOf(text)
    {
      hide LineField;
      var lines := SplitLines(text);
      fields := map[];
      for n := 0 to |lines|
        invariant fields == LockFields(lines, n)
      {
        var f := LineField(lines[n]);
        if f.Some? {
          fields := fields[f.value.0 := f.value.1];
        }
      }
    }

    static method HasStarted(audit: string, run: string) returns (started: bool)
      ensures started == Started(SplitLines(audit), run)
    {
      hide StartedLine;
      var lines := SplitLines(audit);
      started := false;
      for n := 0 to |lines|
        invariant !started && forall k :: 0 <= k < n ==> !StartedLine(lines[k], run)
      {
        if StartedLine(lines[n], run) {
          return true;
        }
      }
    }
  }

  // ---------------------------------------------------------------- searching line by line

  lemma {:induction false} MatchShift(a: string, b: string, lit: string, cs: set<char>, i: nat)
    requires i <= |b|
    ensures MatchAt(a + b, lit, cs, |a| + i) == MatchAt(b, lit, cs, i)
  {
    hide Skip;
    var t := a + b;
    if i + |lit| <= |b| {
      assert t[|a| + i..|a| + i + |lit|] == b[i..i + |lit|];
      SkipShift(a, b, i + |lit|, SPACES);
      var v := Skip(b, i + |lit|, SPACES);
      SkipShift(a, b, v, cs);
      assert t[|a| + v..|a| + Skip(b, v, cs)] == b[v..Skip(b, v, cs)];
    }
  }

  lemma {:induction false} SearchShift(a: string, b: string, lit: string, cs: set<char>, i: nat)
    requires i <= |b|
    ensures Search(a + b, lit, cs, |a| + i) == Search(b, lit, cs, i)
    decreases |b| - i
  {
    hide MatchAt;
    MatchShift(a, b, lit, cs, i);
    if i < |b| { SearchShift(a, b, lit, cs, i + 1); }
  }

  lemma {:induction false} SkipShift(a: string, b: string, i: nat, cs: set<char>)
    requires i <= |b|
    ensures Skip(a + b, |a| + i, cs) == |a| + Skip(b, i, cs)
  {
    var t := a + b;
    var j := Skip(b, i, cs);
    assert forall k :: |a| + i <= k < |a| + j ==> t[k] == b[k - |a|];
    SkipIs(t, |a| + i, cs, |a| + j);
  }

  /** A line without the literal is searched in vain. */
  lemma {:induction false} SearchPast(line: string, rest: string, lit: string, cs: set<char>, i: nat)
    requires !Contains(line, lit) && '\n' !in lit && lit != "" && i <= |line| + 1
    ensures Search(line + "\n" + rest, lit, cs, i) == Search(rest, lit, cs, 0)
    decreases |line| + 1 - i
  {
    var t := line + "\n" + rest;
    if i == |line| + 1 {
      assert t == (line + "\n") + rest;
      SearchShift(line + "\n", rest, lit, cs, 0);
    } else {
      NotAcross(line, rest, lit, i);
      SearchPast(line, rest, lit, cs, i + 1);
    }
  }

  lemma NotAcross(line: string, rest: string, lit: string, i: nat)
    requires !Contains(line, lit) && '\n' !in lit && lit != "" && i <= |line|
    ensures !At(line + "\n" + rest, i, lit)
  {
    var t := line + "\n" + rest;
    if i + |lit| <= |line| {
      assert t[i..i + |lit|] == line[i..i + |lit|];
      assert !At(line, i, lit);
    } else if i + |lit| <= |t| {
      assert t[|line|] == '\n' && t[i..i + |lit|][|line| - i] == '\n';
    }
  }

  lemma {:induction false} SearchLines(lines: seq<string>, k: nat, lit: string, cs: set<char>)
    requires k < |lines| && '\n' !in lit && lit != ""
    requires forall j :: 0 <= j < k ==> !Contains(lines[j], lit)
    ensures Search(Written(lines), lit, cs, 0) == Search(Written(lines[k..]), lit, cs, 0)
  {
    hide Search;
    hide Contains;
    if k == 0 {
      assert lines[0..] == lines;
    } else {
      SearchPast(lines[0], Written(lines[1..]), lit, cs, 0);
      SearchLines(lines[1..], k - 1, lit, cs);
      assert lines[1..][k - 1..] == lines[k..];
    }
  }

  /** The value behind the literal, up to the end of its line. */
  lemma {:induction false} SearchHere(lit: string, value: string, rest: string, cs: set<char>)
    requires value != "" && (forall k :: 0 <= k < |value| ==> value[k] in cs) && '\n' !in cs && value[0] !in SPACES
    ensures Search(lit + " " + value + "\n" + rest, lit, cs, 0) == Some(value)
  {
    var t := lit + " " + value + "\n" + rest;
    var a := |lit| + 1;
    assert t[..|lit|] == lit && t[|lit|] == ' ' && t[a] == value[0];
    assert forall k :: a <= k < a + |value| ==> t[k] == value[k - a];
    assert t[a + |value|] == '\n';
    BlankIsSpace();
    hide IsSpace;
    SkipIs(t, |lit|, SPACES, a);
    SkipIs(t, a, cs, a + |value|);
    assert t[a..a + |value|] == value;
  }

  lemma BlankIsSpace()
    ensures ' ' in SPACES && '\n' in SPACES && '\n' !in VISIBLE && '\n' !in DIGITS
    ensures forall c {:trigger c in DIGITS} :: c in DIGITS ==> c !in SPACES
    ensures forall c {:trigger c in VISIBLE} :: c in VISIBLE <==> c !in SPACES
  {}

  // ---------------------------------------------------------------- both readers agree with the writer

  /** A single word without a colon, as run ids and holders are. */
  ghost predicate Word(s: string) { forall k :: 0 <= k < |s| ==> s[k] != ':' && !IsSpace(s[k]) }

  /** A timestamp of digits, dashes, colons, T and Z. */
  ghost predicate Stamp(s: string) {
    s != "" && forall k :: 0 <= k < |s| ==> ('0' <= s[k] <= '9' || s[k] in {'-', ':', 'T', 'Z'})
  }

  /** An expiry argument the readers get back: one word that does not name the failure counter. */
  ghost predicate PlainExpiry(s: string) {
    s != "" && (forall k :: 0 <= k < |s| ==> !IsSpace(s[k])) && !Contains(s, FAILURES)
  }

  ghost predicate Writable(holder: string, run: string, lockedAt: string, expires: string) {
    Word(holder) && Word(run) && !Unknown(run) && Stamp(lockedAt) && PlainExpiry(expires)
  }

  /** A literal that ends in its only colon and is longer than a line's key does not occur on the line
      unless it occurs in the value. */
  lemma {:induction false} FieldLacks(key: string, value: string, lit: string)
    requires ':' !in key && ' ' !in lit && |lit| > |key| + 1 && lit[|lit| - 1] == ':'
    requires !Contains(value, lit)
    ensures !Contains(Field(key, value), lit)
  {
    var line := Field(key, value);
    forall i | 0 <= i <= |line| ensures !At(line, i, lit) {
      if i + |lit| <= |line| {
        var n := |key|;
        assert line[n] == ':' && line[n + 1] == ' ';
        if i >= n + 2 {
          assert line[i..i + |lit|] == value[i - n - 2..i - n - 2 + |lit|];
          assert !At(value, i - n - 2, lit);
        } else if i + |lit| > n + 1 {
          assert line[i..i + |lit|][n + 1 - i] == ' ';
        }
      }
    }
    ContainsAt(line, lit);
  }

  lemma Lacks(s: string, lit: string)
    requires lit != "" && lit[|lit| - 1] == ':' && ':' !in s
    ensures !Contains(s, lit)
  {
    forall i | 0 <= i <= |s| ensures !At(s, i, lit) {
      if i + |lit| <= |s| { assert s[i..i + |lit|][|lit| - 1] == s[i + |lit| - 1]; }
    }
    ContainsAt(s, lit);
  }

  lemma StampLacks(s: string, lit: string)
    requires Stamp(s) && lit != "" && lit[0] in {'e', 'c'}
    ensures !Contains(s, lit)
  {
    forall i | 0 <= i <= |s| ensures !At(s, i, lit) {
      if i + |lit| <= |s| { assert s[i..i + |lit|][0] == s[i]; }
    }
    ContainsAt(s, lit);
  }

  lemma Literals()
    ensures |EXPIRES| == 11 && |FAILURES| == 26 && EXPIRES[10] == ':' && FAILURES[25] == ':'
    ensures EXPIRES[0] == 'e' && FAILURES[0] == 'c' && ' ' !in EXPIRES && ' ' !in FAILURES
    ensures '\n' !in EXPIRES && '\n' !in FAILURES
  {}

  lemma {:induction false} HeldLines(holder: string, run: string, lockedAt: string, expires: string, failures: nat, lit: string)
    requires Writable(holder, run, lockedAt, expires) && lit in {EXPIRES, FAILURES}
    ensures var lines := BodyLines("locked", holder, run, lockedAt, expires, failures);
            forall j :: 0 <= j < 7 || (j == 7 && lit == FAILURES) ==> !Contains(lines[j], lit)
  {
    hide Contains;
    Literals();
    Lacks("# LOCK", lit);
    Lacks("", lit);
    Lacks("```yaml", lit);
    Lacks("locked", lit);
    FieldLacks("status", "locked", lit);
    Lacks(holder, lit);
    FieldLacks("holder", holder, lit);
    Lacks(run, lit);
    FieldLacks("run_id", run, lit);
    StampLacks(lockedAt, lit);
    FieldLacks("locked_at", lockedAt, lit);
    if lit == FAILURES { FieldLacks("expires_at", expires, lit); }
  }

  /** The acquirer reads from a held lock exactly what was written. */
  lemma {:induction false} HeldReads(holder: string, run: string, lockedAt: string, expires: string, failures: nat)
    requires Writable(holder, run, lockedAt, expires)
    ensures var text := Held(holder, run, lockedAt, expires, failures);
            IsLocked(text) && ExpiryOf(text) == Some(expires) && FailuresOf(text) == failures
  {
    var lines := BodyLines("locked", holder, run, lockedAt, expires, failures);
    HeldStatus(holder, run, lockedAt, expires, failures);
    HeldLines(holder, run, lockedAt, expires, failures, EXPIRES);
    HeldLines(holder, run, lockedAt, expires, failures, FAILURES);
    FailuresRead(lines, failures);
    Literals();
    BlankIsSpace();
    hide Search;
    hide Contains;
    hide FailuresOf;
    SearchLines(lines, 7, EXPIRES, VISIBLE);
    TailLines(lines);
    hide IsSpace;
    assert Field("expires_at", expires) == EXPIRES + " " + expires;
    SearchHere(EXPIRES, expires, Written(lines[8..]), VISIBLE);
  }

  lemma TailLines(lines: seq<string>)
    requires |lines| == 10
    ensures Written(lines[7..]) == lines[7] + "\n" + Written(lines[8..])
    ensures Written(lines[8..]) == lines[8] + "\n" + Written(lines[9..])
  {
    assert lines[7..][1..] == lines[8..] && lines[8..][1..] == lines[9..];
  }

  lemma {:induction false} HeldStatus(holder: string, run: string, lockedAt: string, expires: string, failures: nat)
    ensures IsLocked(Held(holder, run, lockedAt, expires, failures))
  {
    var lines := BodyLines("locked", holder, run, lockedAt, expires, failures);
    var text := Written(lines);
    var rest := Written(lines[4..]);
    FourLines(lines);
    var head := "# LOCK" + "\n" + "" + "\n" + "```yaml" + "\n";
    assert text == head + "status: locked" + ("\n" + rest);
    assert At(text, |head|, "status: locked");
    ContainsAt(text, "status: locked");
  }

  lemma FourLines(lines: seq<string>)
    requires |lines| > 4
    ensures Written(lines) == lines[0] + "\n" + (lines[1] + "\n" + (lines[2] + "\n" + (lines[3] + "\n" + Written(lines[4..]))))
  {
    assert lines[1..][1..] == lines[2..] && lines[2..][1..] == lines[3..] && lines[3..][1..] == lines[4..];
    assert Written(lines[3..]) == lines[3] + "\n" + Written(lines[4..]);
    assert Written(lines[2..]) == lines[2] + "\n" + Written(lines[3..]);
    assert Written(lines[1..]) == lines[1] + "\n" + Written(lines[2..]);
  }

  // ---------------------------------------------------------------- a released lock

  lemma {:induction false} ContainsPast(line: string, rest: string, lit: string)
    requires !Contains(line, lit) && !Contains(rest, lit) && '\n' !in lit && lit != ""
    ensures !Contains(line + "\n" + rest, lit)
  {
    var t := line + "\n" + rest;
    forall i | 0 <= i <= |t| ensures !At(t, i, lit) {
      if i <= |line| {
        NotAcross(line, rest, lit, i);
      } else if i + |lit| <= |t| {
        var k := i - |line| - 1;
        assert t[i..i + |lit|] == rest[k..k + |lit|];
        assert !At(rest, k, lit);
      }
    }
    ContainsAt(t, lit);
  }

  lemma {:induction false} ContainsLines(lines: seq<string>, lit: string)
    requires lines != [] && '\n' !in lit && lit != "" && forall j :: 0 <= j < |lines| ==> !Contains(lines[j], lit)
    ensures !Contains(Written(lines), lit)
  {
    hide Contains;
    NothingIn(lit);
    if |lines| == 1 {
      ContainsPast(lines[0], "", lit);
      assert lines[0] + "\n" + "" == lines[0] + "\n";
    } else {
      ContainsLines(lines[1..], lit);
      ContainsPast(lines[0], Written(lines[1..]), lit);
    }
  }

  lemma NothingIn(lit: string)
    requires lit != ""
    ensures !Contains("", lit)
  {}

  lemma {:induction false} StatusLacks(key: string, value: string, lit: string)
    requires lit in {"status: locked", "status:locked"}
    requires ':' !in key && ':' !in value && value != "" && value[0] != 'l'
    ensures !Contains(Field(key, value), lit)
  {
    var line := Field(key, value);
    assert lit[6] == ':' && (lit[7] == 'l' || (|lit| > 8 && lit[7] == ' ' && lit[8] == 'l'));
    assert line[|key|] == ':' && line[|key| + 1] == ' ' && line[|key| + 2] == value[0];
    forall i | 0 <= i <= |line| ensures !At(line, i, lit) {
      if i + |lit| <= |line| {
        var t := line[i..i + |lit|];
        assert t[6] == line[i + 6] && t[7] == line[i + 7] && (|lit| > 8 ==> t[8] == line[i + 8]);
        assert i + 6 < |key| ==> line[i + 6] == key[i + 6];
        assert i + 6 > |key| + 1 ==> line[i + 6] == value[i + 6 - |key| - 2];
      }
    }
    ContainsAt(line, lit);
  }

  lemma StatusColon(s: string, lit: string)
    requires lit in {"status: locked", "status:locked"} && ':' !in s
    ensures !Contains(s, lit)
  {
    assert lit[6] == ':';
    forall i | 0 <= i <= |s| ensures !At(s, i, lit) {
      if i + |lit| <= |s| { assert s[i..i + |lit|][6] == s[i + 6]; }
    }
    ContainsAt(s, lit);
  }

  lemma {:induction false} ReleasedLines(lit: string)
    requires lit in {"status: locked", "status:locked"}
    ensures !Contains(RELEASED, lit)
  {
    hide Contains;
    assert Decimal(0) == "0";
    StatusColon("# LOCK", lit);
    StatusColon("", lit);
    StatusColon("```yaml", lit);
    StatusLacks("status", "released", lit);
    StatusLacks("holder", DASH, lit);
    StatusLacks("run_id", DASH, lit);
    StatusLacks("locked_at", DASH, lit);
    StatusLacks("expires_at", DASH, lit);
    StatusLacks("consecutive_pass_failures", "0", lit);
    StatusColon("```", lit);
    ContainsLines(BodyLines("released", DASH, DASH, DASH, DASH, 0), lit);
  }

  lemma {:induction false} ReleasedLacks()
    ensures var lines := BodyLines("released", DASH, DASH, DASH, DASH, 0);
            forall j :: 0 <= j < 8 ==> !Contains(lines[j], FAILURES)
  {
    hide Contains;
    hide Decimal;
    Literals();
    var lit := FAILURES;
    Lacks("# LOCK", lit);
    Lacks("", lit);
    Lacks("```yaml", lit);
    Lacks("released", lit);
    Lacks(DASH, lit);
    FieldLacks("status", "released", lit);
    FieldLacks("holder", DASH, lit);
    FieldLacks("run_id", DASH, lit);
    FieldLacks("locked_at", DASH, lit);
    FieldLacks("expires_at", DASH, lit);
  }

  lemma {:induction false} FailuresRead(lines: seq<string>, failures: nat)
    requires |lines| == 10 && lines[8] == Field("consecutive_pass_failures", Decimal(failures))
    requires forall j :: 0 <= j < 8 ==> !Contains(lines[j], FAILURES)
    ensures FailuresOf(Written(lines)) == failures
  {
    Literals();
    BlankIsSpace();
    hide Search;
    hide Contains;
    hide Number;
    hide IsSpace;
    SearchLines(lines, 8, FAILURES, DIGITS);
    TailLines(lines);
    NumberDecimal(failures);
    assert lines[8] == FAILURES + " " + Decimal(failures);
    SearchHere(FAILURES, Decimal(failures), Written(lines[9..]), DIGITS);
  }

  // ---------------------------------------------------------------- crash-recover's reader

  ghost predicate Name(key: string) { key != "" && Initial(key[0]) && forall k :: 0 <= k < |key| ==> key[k] in NAME_CHARS }

  lemma NameChars()
    ensures ':' !in NAME_CHARS && ' ' !in NAME_CHARS && ':' !in SPACES && ' ' in SPACES
    ensures forall c {:trigger c in NAME_CHARS} :: c in NAME_CHARS ==> c !in SPACES
  {}

  /** A written line is read back as its key and value. */
  lemma {:induction false} LineReads(key: string, value: string)
    requires Name(key) && value != "" && Trimmed(value, SPACES)
    ensures LineField(Field(key, value)) == Some((key, value))
  {
    var line := Field(key, value);
    NameChars();
    hide IsSpace;
    assert line[0] == key[0] && line[|line| - 1] == value[|value| - 1];
    assert Strip(line) == line;
    assert forall k :: 0 <= k < |key| ==> line[k] == key[k];
    assert line[|key|] == ':' && line[|key| + 1] == ' ' && line[|key| + 2] == value[0];
    SkipIs(line, 0, NAME_CHARS, |key|);
    SkipIs(line, |key|, SPACES, |key|);
    SkipIs(line, |key| + 1, SPACES, |key| + 2);
    assert line[..|key|] == key && line[|key| + 2..] == value;
  }

  lemma {:induction false} EmptyStrips(key: string)
    requires Name(key)
    ensures Strip(Field(key, "")) == key + ":"
  {
    var s := key + ":";
    NameChars();
    hide IsSpace;
    hide StripOf;
    assert Field(key, "") == "" + s + " ";
    assert s[0] == key[0];
    StripPadded("", s, " ", SPACES);
  }

  lemma {:induction false} EmptyReads(key: string)
    requires Name(key)
    ensures LineField(Field(key, "")).None?
  {
    EmptyStrips(key);
    hide Strip;
    hide Field;
    var s := key + ":";
    NameChars();
    hide IsSpace;
    assert forall k :: 0 <= k < |key| ==> s[k] == key[k];
    SkipIs(s, 0, NAME_CHARS, |key|);
    SkipIs(s, |key|, SPACES, |key|);
    SkipIs(s, |s|, SPACES, |s|);
  }

  lemma PlainLines()
    ensures LineField("# LOCK").None? && LineField("").None? && LineField("```yaml").None? && LineField("```").None?
  {
    assert Trimmed("# LOCK", SPACES) && Trimmed("```yaml", SPACES) && Trimmed("```", SPACES);
  }

  lemma WordTrimmed(s: string)
    requires forall k :: 0 <= k < |s| ==> !IsSpace(s[k])
    ensures Trimmed(s, SPACES) && BreakFree(s)
  {}

  lemma FieldBreakFree(key: string, value: string)
    requires BreakFree(key) && BreakFree(value)
    ensures BreakFree(Field(key, value))
  {
    var line := Field(key, value);
    assert forall k :: 0 <= k < |line| ==>
      line[k] == if k < |key| then key[k] else if k < |key| + 2 then ": "[k - |key|] else value[k - |key| - 2];
  }

  lemma KeysBreakFree()
    ensures BreakFree("status") && BreakFree("holder") && BreakFree("run_id") && BreakFree("locked_at")
    ensures BreakFree("expires_at") && BreakFree("consecutive_pass_failures")
    ensures BreakFree("# LOCK") && BreakFree("") && BreakFree("```yaml") && BreakFree("```")
    ensures BreakFree("locked") && BreakFree("released")
  {}

  lemma {:induction false} BodyBreakFree(status: string, holder: string, run: string, lockedAt: string, expires: string, failures: nat)
    requires BreakFree(status) && BreakFree(holder) && BreakFree(run) && BreakFree(lockedAt) && BreakFree(expires)
    ensures var lines := BodyLines(status, holder, run, lockedAt, expires, failures);
            forall k :: 0 <= k < |lines| ==> BreakFree(lines[k])
  {
    KeysBreakFree();
    var d := Decimal(failures);
    assert BreakFree(d) by { assert forall k :: 0 <= k < |d| ==> d[k] in DIGITS; }
    hide BreakFree;
    FieldBreakFree("status", status);
    FieldBreakFree("holder", holder);
    FieldBreakFree("run_id", run);
    FieldBreakFree("locked_at", lockedAt);
    FieldBreakFree("expires_at", expires);
    FieldBreakFree("consecutive_pass_failures", d);
  }

  const KEYS: seq<string> := ["status", "holder", "run_id", "locked_at", "expires_at", "consecutive_pass_failures"]

  lemma KeysApart()
    ensures forall i, j :: 0 <= i < j < |KEYS| ==> KEYS[i] != KEYS[j]
  {}

  /** Lines 3 to 8 are the six fields, each with its own key; the others are none. */
  ghost predicate SixFields(lines: seq<string>) {
    && |lines| == 10
    && LineField(lines[0]).None? && LineField(lines[1]).None? && LineField(lines[2]).None? && LineField(lines[9]).None?
    && forall j {:trigger KEYS[j]} :: 0 <= j < 6 && LineField(lines[j + 3]).Some? ==> LineField(lines[j + 3]).value.0 == KEYS[j]
  }

  lemma {:induction false} FieldsFrom(lines: seq<string>, n: nat)
    requires SixFields(lines) && n <= 6
    ensures forall j {:trigger KEYS[j]} :: 0 <= j < n && LineField(lines[j + 3]).Some? ==>
              Get(LockFields(lines, n + 3), KEYS[j]) == LineField(lines[j + 3]).value.1
    ensures forall j {:trigger KEYS[j]} :: n <= j < 6 ==> KEYS[j] !in LockFields(lines, n + 3)
  {
    hide LineField;
    KeysApart();
    if n > 0 {
      FieldsFrom(lines, n - 1);
      assert KEYS[n - 1] in KEYS;
    } else {
      assert LockFields(lines, 1) == map[];
      assert LockFields(lines, 2) == map[];
      assert LockFields(lines, 3) == map[];
    }
  }

  /** A value the line reader gives back. */
  ghost predicate Visible(s: string) { s != "" && Trimmed(s, SPACES) && BreakFree(s) }

  /** The line gives the value back, or nothing if the value is empty. */
  lemma {:induction false} OneField(key: string, value: string)
    requires Name(key) && (value == "" || Visible(value))
    ensures LineField(Field(key, value)) == if value == "" then None else Some((key, value))
  {
    hide LineField;
    hide Name;
    hide Trimmed;
    hide BreakFree;
    if value == "" { EmptyReads(key); } else { LineReads(key, value); }
  }

  lemma {:induction false} BodyIsSix(status: string, holder: string, run: string, lockedAt: string, expires: string, failures: nat)
    requires Visible(status) && (holder == "" || Visible(holder)) && Visible(run) && Visible(lockedAt) && Visible(expires)
    ensures var lines := BodyLines(status, holder, run, lockedAt, expires, failures);
            && SixFields(lines) && LineField(lines[3]) == Some(("status", status))
            && LineField(lines[5]) == Some(("run_id", run)) && LineField(lines[6]) == Some(("locked_at", lockedAt))
  {
    PlainLines();
    KeyNames();
    DecimalVisible(failures);
    VisibleSome(status, run, lockedAt);
    hide LineField;
    hide Decimal;
    hide Visible;
    hide Name;
    hide Field;
    OneField("status", status);
    OneField("holder", holder);
    OneField("run_id", run);
    OneField("locked_at", lockedAt);
    OneField("expires_at", expires);
    OneField("consecutive_pass_failures", Decimal(failures));
  }

  lemma VisibleSome(a: string, b: string, c: string)
    ensures (Visible(a) ==> a != "") && (Visible(b) ==> b != "") && (Visible(c) ==> c != "")
  {}

  lemma {:induction false} BodyFields(status: string, holder: string, run: string, lockedAt: string, expires: string, failures: nat)
    requires Visible(status) && (holder == "" || Visible(holder)) && Visible(run) && Visible(lockedAt) && Visible(expires)
    ensures var m := FieldsOf(Written(BodyLines(status, holder, run, lockedAt, expires, failures)));
            Get(m, "status") == status && Get(m, "run_id") == run && Get(m, "locked_at") == lockedAt
  {
    var lines := BodyLines(status, holder, run, lockedAt, expires, failures);
    BodyIsSix(status, holder, run, lockedAt, expires, failures);
    KeysBreakFree();
    hide IsSpace;
    hide BreakFree;
    hide Decimal;
    hide LineField;
    BodyBreakFree(status, holder, run, lockedAt, expires, failures);
    TextFields(lines);
    hide FieldsOf;
    hide LockFields;
    FieldsFrom(lines, 6);
    assert KEYS[0] == "status" && KEYS[2] == "run_id" && KEYS[3] == "locked_at";
  }

  lemma {:induction false} TextFields(lines: seq<string>)
    requires SixFields(lines) && forall k :: 0 <= k < |lines| ==> BreakFree(lines[k])
    ensures FieldsOf(Written(lines)) == LockFields(lines, 9)
  {
    hide BreakFree;
    hide LineField;
    hide Written;
    ReadWritten(lines);
    assert LockFields(lines, 10) == LockFields(lines, 9);
  }

  /** crash-recover reads from a held lock exactly what was written. */
  lemma {:induction false} HeldFields(holder: string, run: string, lockedAt: string, expires: string, failures: nat)
    requires Writable(holder, run, lockedAt, expires)
    ensures var m := FieldsOf(Held(holder, run, lockedAt, expires, failures));
            Get(m, "status") == "locked" && Get(m, "run_id") == run && Get(m, "locked_at") == lockedAt
            && Strip(run) == run && Strip(lockedAt) == lockedAt
  {
    StampVisible(lockedAt);
    WordTrimmed(holder);
    WordTrimmed(run);
    WordTrimmed(lockedAt);
    WordTrimmed(expires);
    WordTrimmed("locked");
    hide IsSpace;
    hide BreakFree;
    hide FieldsOf;
    hide BodyLines;
    BodyFields("locked", holder, run, lockedAt, expires, failures);
  }

  lemma StampVisible(s: string)
    requires Stamp(s)
    ensures forall k :: 0 <= k < |s| ==> !IsSpace(s[k])
  {}

  lemma DecimalVisible(n: nat)
    ensures Visible(Decimal(n))
  {
    var d := Decimal(n);
    assert forall k :: 0 <= k < |d| ==> d[k] in DIGITS;
  }

  lemma KeyNames()
    ensures Name("status") && Name("holder") && Name("run_id") && Name("locked_at") && Name("expires_at")
    ensures Name("consecutive_pass_failures")
  {}

  lemma {:induction false} ReleasedStatus()
    ensures Get(FieldsOf(RELEASED), "status") == "released"
  {
    WordTrimmed("released");
    WordTrimmed(DASH);
    hide IsSpace;
    hide BreakFree;
    hide FieldsOf;
    hide BodyLines;
    BodyFields("released", DASH, DASH, DASH, DASH, 0);
  }

  lemma {:induction false} ReleasedCounter()
    ensures FailuresOf(RELEASED) == 0
  {
    hide Contains;
    hide FailuresOf;
    ReleasedLacks();
    FailuresRead(BodyLines("released", DASH, DASH, DASH, DASH, 0), 0);
  }

  /** A released lock is released to every reader, and its failure counter is zero. */
  lemma {:induction false} ReleasedReads()
    ensures !IsLocked(RELEASED) && FailuresOf(RELEASED) == 0 && Get(FieldsOf(RELEASED), "status") == "released"
  {
    hide Contains;
    hide FailuresOf;
    hide FieldsOf;
    hide BodyLines;
    ReleasedLines("status: locked");
    ReleasedLines("status:locked");
    ReleasedCounter();
    ReleasedStatus();
  }
}
