/** Bundle specifications: resolving expressions, evaluating guards, and the static check that is to
    keep the executor out of its fail-open cases (commands/bundle.py). */
module Bundles {
  import opened Text
  import opened Wrappers
  import opened Longrunner
  import Tables
  import Store

  type Args = map<string, string>

  /** The wall clock of one command: the two formatted instants, and now plus a number of days given as text. */
  datatype Clock = Clock(now: string, today: string, plusDays: string -> string)

  datatype Write = Write(target: string, fields: seq<(string, string)>)
  datatype AppendTo = AppendTo(file: string, line: string)
  datatype Notify = Notify(priority: string, actionText: string, context: string, status: string)
  datatype Spec = Spec(args: seq<string>, validates: seq<string>, writes: seq<Write>,
                       appends: seq<AppendTo>, notify: Option<Notify>)

  // ---------------------------------------------------------------- expressions

  predicate IsWords(s: string) { s != "" && forall k :: 0 <= k < |s| ==> IsWord(s[k]) }

  /** The name in an expression that is nothing but a reference in braces, possibly one of NOW plus days. */
  function PureRef(s: string): (r: Option<string>)
    ensures r.Some? ==> s == "{" + r.value + "}"
  {
    if |s| >= 3 && s[0] == '{' && s[|s| - 1] == '}' then
      var inner := s[1..|s| - 1];
      if IsWords(inner) || ("NOW+" <= inner && IsWords(inner[4..])) then Some(inner) else None
    else None
  }

  /** A text together with the references that had no argument and became UNRESOLVED markers. */
  datatype Resolution = Resolution(text: string, missing: set<string>)

  function Argument(key: string, args: Args): Resolution {
    if key in args then Resolution(args[key], {}) else Resolution("UNRESOLVED:" + key, {key})
  }

  function Reference(key: string, args: Args, clock: Clock): Resolution {
    if key == "NOW" then Resolution(clock.now, {})
    else if key == "TODAY" then Resolution(clock.today, {})
    else Argument(key, args)
  }

  function Slug(args: Args): string { if "slug" in args then args["slug"] else "" }

  /** The timeout field {NOW+field} reads, "3" when there is none. */
  function Timeout(field: string, args: Args, files: Store.Files): string {
    var lr := if Slug(args) != "" then ParseOf(files, Slug(args)) else None;
    if lr.Some? && field in lr.value then lr.value[field] else "3"
  }

  /** Where a reference \{(\w+)\} that starts at i ends, or 0. */
  function RefEnd(s: string, i: nat): (e: nat)
    requires i < |s|
    ensures e != 0 ==> i + 2 < e <= |s| && s[i] == '{' && s[e - 1] == '}'
  {
    if s[i] != '{' then 0 else
    var j := Skip(s, i + 1, WORDS);
    if j > i + 1 && j < |s| && s[j] == '}' then j + 1 else 0
  }

  /** The names of all references in braces from position i on. */
  function Refs(s: string, i: nat): seq<string>
    requires i <= |s|
    decreases |s| - i
  {
    if i == |s| then [] else
    var e := RefEnd(s, i);
    if e != 0 then [s[i + 1..e - 1]] + Refs(s, e) else Refs(s, i + 1)
  }

  /** re.sub over the same references */
  function Substitute(s: string, i: nat, args: Args, clock: Clock): Resolution
    requires i <= |s|
    decreases |s| - i
  {
    if i == |s| then Resolution("", {}) else
    var e := RefEnd(s, i);
    if e != 0 then
      var r := Reference(s[i + 1..e - 1], args, clock);
      var rest := Substitute(s, e, args, clock);
      Resolution(r.text + rest.text, r.missing + rest.missing)
    else
      var rest := Substitute(s, i + 1, args, clock);
      Resolution([s[i]] + rest.text, rest.missing)
  }

  /** resolve_expression */
  function Resolve(expr: string, args: Args, clock: Clock, files: Store.Files, template: bool): Resolution {
    var s := Strip(expr);
    if s == "~" then Resolution("~", {}) else
    match PureRef(s)
    case Some(key) =>
      if "NOW+" <= key then Resolution(clock.plusDays(Timeout(key[4..], args, files)), {})
      else Reference(key, args, clock)
    case None =>
      if template then Substitute(s, 0, args, clock) else Resolution(s, {})
  }

  // ---------------------------------------------------------------- guards

  /** The words of a text, from position i on. */
  function Tokens(s: string, i: nat): seq<string>
    requires i <= |s|
    decreases |s| - i
  {
    var a := Skip(s, i, SPACES);
    if a == |s| then [] else
    var b := Skip(s, a, NON_SPACES);
    [s[a..b]] + Tokens(s, b)
  }

  const NON_SPACES: set<char> := set c: char | !IsSpace(c)

  /** The text without its qualifiers: the name, a colon, a word with or without braces, and a dot. */
  function DropRef(name: string, s: string, i: nat): string
    requires i <= |s|
    decreases |s| - i
  {
    if i == |s| then "" else
    var e := DropEnd(name, s, i);
    if e > i then DropRef(name, s, e) else [s[i]] + DropRef(name, s, i + 1)
  }

  function DropEnd(name: string, s: string, i: nat): (e: nat)
    requires i <= |s|
    ensures e == 0 || i < e <= |s|
  {
    if !At(s, i, name + ":") then 0 else
    var a := i + |name| + 1;
    var b := if a < |s| && s[a] == '{' then a + 1 else a;
    var w := Skip(s, b, WORDS);
    var c := if w < |s| && s[w] == '}' then w + 1 else w;
    if w > b && c < |s| && s[c] == '.' then c + 1 else 0
  }

  /** How a guard was decided: it could not be parsed, its operator is unknown (both let the bundle pass),
      or a known operator said yes or no. */
  datatype Verdict = Unparsed | UnknownOperator | Decided(holds: bool)

  predicate Passes(v: Verdict) { !v.Decided? || v.holds }

  predicate Known(op: string) { op == "NOT_EMPTY" || op == "EQUALS" || op == "==" || op == "IN" }

  /** The value a guard looks at; None when the LONGRUNNER it names cannot be read. */
  function Actual(ref: string, args: Args, files: Store.Files): Option<string> {
    if Contains(ref, "LONGRUNNER") then
      var field := DropRef("LONGRUNNER", ref, 0);
      match ParseOf(files, Slug(args))
      case None => None
      case Some(lr) => Some(if field in lr then lr[field] else "")
    else if Contains(ref, "DISPATCH") then
      var field := DropRef("DISPATCH", ref, 0);
      var content := if "ACTIVE-PROJECTS.md" in files then files["ACTIVE-PROJECTS.md"] else "";
      var lines := SplitLines(content);
      Some(RowField(Tables.RowsOf(lines, |lines|), Slug(args), field, 0))
    else Some(if ref in args then args[ref] else "")
  }

  function RowField(rows: seq<Tables.Record>, slug: string, field: string, i: nat): string
    requires i <= |rows|
    decreases |rows| - i
  {
    if i == |rows| then ""
    else if Tables.SlugOf(rows[i]) == slug then (if field in rows[i] then rows[i][field] else "")
    else RowField(rows, slug, field, i + 1)
  }

  predicate EmptyMarker(s: string) {
    s == "~" || s == "null" || s == "None" || s == "none" || s == "" || s == "\"\""
  }

  predicate Member(x: string, items: seq<string>) {
    exists k :: 0 <= k < |items| && Uppered(Strip(items[k])) == x
  }

  /** evaluate_guard */
  function Guard(guard: string, args: Args, files: Store.Files): Verdict {
    var parts := Tokens(guard, 0);
    if |parts| < 2 then Unparsed else
    var expected := if |parts| > 2 then parts[2] else "None";
    match Actual(parts[0], args, files)
    case None => Decided(false)
    case Some(raw) =>
      var actual := Strip(raw);
      if parts[1] == "NOT_EMPTY" then Decided(!EmptyMarker(actual))
      else if parts[1] == "==" || parts[1] == "EQUALS" then Decided(Uppered(actual) == Uppered(expected))
      else if parts[1] == "IN" then Decided(Member(Uppered(actual), Split(expected, ',')))
      else UnknownOperator
  }

  // ---------------------------------------------------------------- validate-bundles

  predicate Declared(ref: string, spec: Spec) { ref in spec.args || ref == "NOW" || ref == "TODAY" || "NOW+" <= ref }

  predicate RefsDeclared(expr: string, spec: Spec) {
    forall k :: 0 <= k < |Refs(expr, 0)| ==> Declared(Refs(expr, 0)[k], spec)
  }

  predicate GuardKnown(guard: string) {
    var parts := Tokens(guard, 0); |parts| >= 2 ==> Known(parts[1])
  }

  /** What validate-bundles reports no error about (its check of protected paths aside). */
  predicate Validated(spec: Spec) {
    && (forall i :: 0 <= i < |spec.validates| ==> GuardKnown(spec.validates[i]))
    && (forall i, j :: 0 <= i < |spec.writes| && 0 <= j < |spec.writes[i].fields| ==>
                         RefsDeclared(spec.writes[i].fields[j].1, spec))
    && (forall i :: 0 <= i < |spec.appends| ==> RefsDeclared(spec.appends[i].line, spec))
  }

  /** The declared arguments are all there, as the executor checks before anything else. */
  predicate Supplied(spec: Spec, args: Args) {
    forall k :: 0 <= k < |spec.args| ==> spec.args[k] in args
  }

  lemma {:induction false} RefAt(s: string, a: string, t: string, b: string, i: nat)
    requires s == a + t + b && i < |t|
    requires forall k :: 0 <= k < |b| ==> b[k] in SPACES
    ensures RefEnd(s, |a| + i) == if RefEnd(t, i) == 0 then 0 else |a| + RefEnd(t, i)
  {
    assert forall k :: 0 <= k < |t| ==> s[|a| + k] == t[k];
    BlankIsNoWord();
    hide IsSpace;
    hide IsWord;
    if t[i] == '{' {
      var j := Skip(t, i + 1, WORDS);
      assert |a| + j < |s| ==> s[|a| + j] == if j < |t| then t[j] else b[j - |t|];
      SkipIs(s, |a| + i + 1, WORDS, |a| + j);
    }
  }

  lemma BlankIsNoWord()
    ensures forall c {:trigger c in SPACES} :: c in SPACES ==> c !in WORDS && c != '}' && c != '{'
  {}

  lemma RefsStep(s: string, i: nat)
    requires i <= |s|
    ensures Refs(s, i) ==
            if i == |s| then [] else if RefEnd(s, i) == 0 then Refs(s, i + 1)
            else [s[i + 1..RefEnd(s, i) - 1]] + Refs(s, RefEnd(s, i))
  {
    hide RefEnd;
  }

  /** Blanks around a text hold no references. */
  lemma {:induction false} RefsInside(s: string, a: string, t: string, b: string, i: nat)
    requires s == a + t + b && i <= |t|
    requires forall k :: 0 <= k < |b| ==> b[k] in SPACES
    ensures Refs(s, |a| + i) == Refs(t, i)
    decreases |t| - i
  {
    hide IsSpace;
    hide IsWord;
    hide Refs;
    hide RefEnd;
    RefsStep(t, i);
    if i < |t| {
      RefsStep(s, |a| + i);
      RefAt(s, a, t, b, i);
      var e := RefEnd(t, i);
      if e != 0 {
        SliceInside(a, t, b, i + 1, e - 1);
        RefsInside(s, a, t, b, e);
      } else {
        RefsInside(s, a, t, b, i + 1);
      }
    } else {
      NoRefsBehind(s, a, t, b);
    }
  }

  lemma {:induction false} NoRefsBehind(s: string, a: string, t: string, b: string)
    requires s == a + t + b && forall k :: 0 <= k < |b| ==> b[k] in SPACES
    ensures Refs(s, |a| + |t|) == []
  {
    hide IsSpace;
    hide Refs;
    assert forall k :: |a| + |t| <= k < |s| ==> s[k] == b[k - |a| - |t|];
    NoRefs(s, |a| + |t|);
  }

  lemma {:induction false} NoRefs(s: string, i: nat)
    requires i <= |s| && forall k :: i <= k < |s| ==> s[k] in SPACES
    ensures Refs(s, i) == []
    decreases |s| - i
  {
    BlankIsNoWord();
    hide IsSpace;
    hide IsWord;
    if i < |s| { NoRefs(s, i + 1); }
  }

  lemma {:induction false} SkipBlanks(s: string, i: nat, n: nat)
    requires i <= n <= |s| && forall k :: i <= k < n ==> s[k] in SPACES
    ensures Refs(s, i) == Refs(s, n)
    decreases n - i
  {
    BlankIsNoWord();
    hide IsSpace;
    hide IsWord;
    if i < n { SkipBlanks(s, i + 1, n); }
  }

  lemma Thirds(s: string, i: nat, j: nat)
    requires i <= j <= |s|
    ensures s == s[..i] + s[i..j] + s[j..]
  {}

  lemma {:induction false} MiddleRefs(s: string, i: nat, j: nat)
    requires i <= j <= |s| && (forall k :: 0 <= k < i ==> s[k] in SPACES) && (forall k :: j <= k < |s| ==> s[k] in SPACES)
    ensures Refs(s[i..j], 0) == Refs(s, 0)
  {
    hide IsSpace;
    hide Refs;
    SkipBlanks(s, 0, i);
    Thirds(s, i, j);
    var b := s[j..];
    forall k | 0 <= k < |b| ensures b[k] in SPACES { assert b[k] == s[j + k]; }
    RefsInside(s, s[..i], s[i..j], b, 0);
  }

  lemma {:induction false} StrippedRefs(s: string)
    ensures Refs(Strip(s), 0) == Refs(s, 0)
  {
    hide IsSpace;
    hide Refs;
    var i, j := Skip(s, 0, SPACES), SkipBack(s, |s|, SPACES);
    if i < j {
      MiddleRefs(s, i, j);
    } else {
      assert forall k :: 0 <= k < |s| ==> s[k] in SPACES;
      NoRefs(s, 0);
      NoRefs("", 0);
    }
  }

  lemma {:induction false} PureIsRef(s: string, key: string)
    requires PureRef(s) == Some(key) && !("NOW+" <= key)
    ensures Refs(s, 0) == [key]
  {
    assert s == "{" + key + "}";
    assert forall k :: 0 <= k < |key| ==> s[k + 1] == key[k];
    SkipIs(s, 1, WORDS, |s| - 1);
    assert RefEnd(s, 0) == |s|;
    assert s[1..|s| - 1] == key;
    assert Refs(s, |s|) == [];
  }

  lemma {:induction false} SubstituteMissing(s: string, i: nat, args: Args, clock: Clock, spec: Spec)
    requires i <= |s| && Supplied(spec, args)
    requires forall k :: 0 <= k < |Refs(s, i)| ==> Declared(Refs(s, i)[k], spec)
    ensures Substitute(s, i, args, clock).missing == {}
    decreases |s| - i
  {
    hide IsWord;
    if i < |s| {
      var e := RefEnd(s, i);
      if e != 0 {
        var key := s[i + 1..e - 1];
        assert Refs(s, i)[0] == key;
        assert Refs(s, i)[1..] == Refs(s, e);
        forall k | 0 <= k < |Refs(s, e)| ensures Declared(Refs(s, e)[k], spec) { assert Refs(s, e)[k] == Refs(s, i)[k + 1]; }
        SubstituteMissing(s, e, args, clock, spec);
        WordNotPlus(s, i);
      } else {
        SubstituteMissing(s, i + 1, args, clock, spec);
      }
    }
  }

  lemma WordNotPlus(s: string, i: nat)
    requires i < |s| && RefEnd(s, i) != 0
    ensures !("NOW+" <= s[i + 1..RefEnd(s, i) - 1])
  {
    var e := RefEnd(s, i);
    var key := s[i + 1..e - 1];
    assert "NOW+"[3] == '+' && '+' !in WORDS;
    assert forall k :: 0 <= k < |key| ==> key[k] == s[i + 1 + k] && s[i + 1 + k] in WORDS;
  }

  /** What validate-bundles promises for one expression: with the declared arguments supplied, no
      reference in it is left unresolved, in a field or in a line. */
  lemma {:induction false} ExpressionSound(expr: string, spec: Spec, args: Args, clock: Clock, files: Store.Files, template: bool)
    requires RefsDeclared(expr, spec) && Supplied(spec, args)
    ensures Resolve(expr, args, clock, files, template).missing == {}
  {
    hide IsSpace;
    hide IsWord;
    hide Timeout;
    StrippedRefs(expr);
    var s := Strip(expr);
    hide Strip;
    hide Refs;
    match PureRef(s)
    case Some(key) =>
      if !("NOW+" <= key) {
        PureIsRef(s, key);
        assert Declared(Refs(expr, 0)[0], spec);
      }
    case None =>
      if template { SubstituteMissing(s, 0, args, clock, spec); }
  }

  /** validate-bundles is sound for the executor: in a validated bundle run with its declared arguments no
      write expression and no appended line meets the UNRESOLVED case, and every guard of two or more
      words is decided by a known operator. */
  lemma {:induction false} ValidatedSound(spec: Spec, args: Args, clock: Clock, files: Store.Files)
    requires Validated(spec) && Supplied(spec, args)
    ensures forall i, j :: 0 <= i < |spec.writes| && 0 <= j < |spec.writes[i].fields| ==>
              Resolve(spec.writes[i].fields[j].1, args, clock, files, false).missing == {}
    ensures forall i :: 0 <= i < |spec.appends| ==>
              Resolve(spec.appends[i].line, args, clock, files, true).missing == {}
    ensures forall i :: 0 <= i < |spec.validates| ==>
              (Guard(spec.validates[i], args, files).Decided? <==> |Tokens(spec.validates[i], 0)| >= 2)
  {
    hide Resolve;
    hide Actual;
    hide RefsDeclared;
    forall i, j | 0 <= i < |spec.writes| && 0 <= j < |spec.writes[i].fields|
      ensures Resolve(spec.writes[i].fields[j].1, args, clock, files, false).missing == {}
    {
      ExpressionSound(spec.writes[i].fields[j].1, spec, args, clock, files, false);
    }
    forall i | 0 <= i < |spec.appends|
      ensures Resolve(spec.appends[i].line, args, clock, files, true).missing == {}
    {
      ExpressionSound(spec.appends[i].line, spec, args, clock, files, true);
    }
    forall i | 0 <= i < |spec.validates|
      ensures Guard(spec.validates[i], args, files).Decided? <==> |Tokens(spec.validates[i], 0)| >= 2
    {
      GuardDecided(spec.validates[i], args, files);
    }
  }

  lemma GuardDecided(guard: string, args: Args, files: Store.Files)
    requires GuardKnown(guard)
    ensures Guard(guard, args, files).Decided? <==> |Tokens(guard, 0)| >= 2
  {
    hide Actual;
    hide Tokens;
    hide Strip;
    hide Upper;
    hide Member;
    hide EmptyMarker;
  }
}
