/** schema-sync: the generated sections of REGISTRY.md are rewritten in place between their markers
    (commands/bundle.py). */
module SchemaSync {
  import opened Text
  import opened Wrappers

  // ---------------------------------------------------------------- markers

  const CLOSE := "<!-- /nightclaw:render -->"
  const HEAD := "<!-- nightclaw:render section=\""
  const MIDDLE := "\" source=\"orchestration-os/" + "schema\" schema_fingerprint=\""
  const TAIL := "\" -->"

  predicate IsHex(c: char) { '0' <= c <= '9' || 'a' <= c <= 'f' }

  function Lead(sid: string): string { HEAD + sid + MIDDLE }

  /** The open marker of a section with its 64 hexadecimal digits stands at i. */
  predicate OpenAt(text: string, sid: string, i: nat) {
    var j := i + |Lead(sid)|;
    && At(text, i, Lead(sid)) && j + 64 <= |text|
    && (forall k :: j <= k < j + 64 ==> IsHex(text[k])) && At(text, j + 64, TAIL)
  }

  function OpenLength(sid: string): nat { |Lead(sid)| + 64 + |TAIL| }

  /** Where the first open marker of the section at or behind position i starts. */
  function FindOpen(text: string, sid: string, i: nat): (r: Option<nat>)
    requires i <= |text|
    ensures r.Some? ==> i <= r.value && OpenAt(text, sid, r.value) && r.value + OpenLength(sid) <= |text|
    decreases |text| - i
  {
    if OpenAt(text, sid, i) then Some(i) else if i == |text| then None else FindOpen(text, sid, i + 1)
  }

  // ---------------------------------------------------------------- splicing

  datatype Marker = OpenMarker | CloseMarker
  datatype Result = Ok(text: string) | Missing(marker: Marker, sid: string)

  /** Where the body of a section starts and ends. */
  function Region(text: string, sid: string): (r: Option<(nat, nat)>)
    ensures r.Some? ==> r.value.0 <= r.value.1 <= |text|
  {
    match FindOpen(text, sid, 0)
    case None => None
    case Some(m) =>
      var c := Find(text, CLOSE, m + OpenLength(sid));
      if c == -1 then None else Some((m + OpenLength(sid), c))
  }

  /** _splice_section */
  function Splice(text: string, sid: string, body: string): Result {
    if FindOpen(text, sid, 0).None? then Missing(OpenMarker, sid)
    else match Region(text, sid)
      case None => Missing(CloseMarker, sid)
      case Some((a, c)) => Ok(text[..a] + body + text[c..])
  }

  type Bodies = map<string, string>

  /** The first n sections spliced one after the other. */
  function Spliced(text: string, ids: seq<string>, bodies: Bodies, n: nat): Result
    requires n <= |ids| && forall k :: 0 <= k < |ids| ==> ids[k] in bodies
  {
    if n == 0 then Ok(text) else
    match Spliced(text, ids, bodies, n - 1)
    case Ok(t) => Splice(t, ids[n - 1], bodies[ids[n - 1]])
    case Missing(m, s) => Missing(m, s)
  }

  predicate Differs(text: string, sid: string, body: string) {
    Region(text, sid).Some? && text[Region(text, sid).value.0..Region(text, sid).value.1] != body
  }

  /** How many of the first n sections differ from their bodies, each looked at after the splices before it. */
  function Changed(text: string, ids: seq<string>, bodies: Bodies, n: nat): nat
    requires n <= |ids| && forall k :: 0 <= k < |ids| ==> ids[k] in bodies
  {
    if n == 0 then 0 else
    var t := Spliced(text, ids, bodies, n - 1);
    Changed(text, ids, bodies, n - 1) + if t.Ok? && Differs(t.text, ids[n - 1], bodies[ids[n - 1]]) then 1 else 0
  }

  datatype Report = Error(marker: Marker, sid: string) | Noop(sections: nat) | Synced(sections: nat, changed: nat)

  /** cmd_schema_sync on the registry's text: the text written, and the report. */
  function Sync(text: string, ids: seq<string>, bodies: Bodies): (string, Report)
    requires forall k :: 0 <= k < |ids| ==> ids[k] in bodies
  {
    match Spliced(text, ids, bodies, |ids|)
    case Missing(m, s) => (text, Error(m, s))
    case Ok(t) => if t == text then (text, Noop(|ids|)) else (t, Synced(|ids|, Changed(text, ids, bodies, |ids|)))
  }

  const SECTIONS: seq<string> := ["R1", "R2", "R3", "R4", "R5", "R6", "CL5"]

  /** The registry file and the command that rewrites it. */
  class Registry {
    var text: string
    var generated: string

    constructor (initial: string, rendered: string)
      ensures text == initial && generated == rendered
    {
      text := initial;
      generated := rendered;
    }

    /** cmd_schema_sync: the parallel render of the whole schema is refreshed only when the registry changes. */
    method SchemaSync(ids: seq<string>, bodies: Bodies, rendered: string) returns (report: Report)
      requires forall k :: 0 <= k < |ids| ==> ids[k] in bodies
      modifies this
      ensures (text, report) == Sync(old(text), ids, bodies)
      ensures generated == if report.Synced? then rendered else old(generated)
    {
      hide Splice;
      var newText := text;
      for n := 0 to |ids|
        invariant Spliced(text, ids, bodies, n) == Ok(newText)
        invariant text == old(text)
      {
        var r := Splice(newText, ids[n], bodies[ids[n]]);
        if r.Missing? {
          StaysMissing(text, ids, bodies, n + 1, |ids|);
          return Error(r.marker, r.sid);
        }
        newText := r.text;
      }
      var changed := CountChanged(text, ids, bodies);
      if newText == text {
        return Noop(|ids|);
      }
      text := newText;
      generated := rendered;
      return Synced(|ids|, changed);
    }
  }

  /** The second loop of cmd_schema_sync. */
  method CountChanged(text: string, ids: seq<string>, bodies: Bodies) returns (changed: nat)
    requires forall k :: 0 <= k < |ids| ==> ids[k] in bodies
    requires Spliced(text, ids, bodies, |ids|).Ok?
    ensures changed == Changed(text, ids, bodies, |ids|)
  {
    hide Region;
    hide Splice;
    changed := 0;
    var trial := text;
    for n := 0 to |ids|
      invariant Spliced(text, ids, bodies, n) == Ok(trial) && changed == Changed(text, ids, bodies, n)
    {
      OkBefore(text, ids, bodies, n + 1, |ids|);
      SpliceHas(trial, ids[n], bodies[ids[n]]);
      var (afterOpen, close) := Region(trial, ids[n]).value;
      var prior := trial[afterOpen..close];
      if prior != bodies[ids[n]] {
        changed := changed + 1;
      }
      trial := trial[..afterOpen] + bodies[ids[n]] + trial[close..];
    }
  }

  lemma SpliceHas(text: string, sid: string, body: string)
    requires Splice(text, sid, body).Ok?
    ensures Region(text, sid).Some?
    ensures var (a, c) := Region(text, sid).value; Splice(text, sid, body) == Ok(text[..a] + body + text[c..])
  {
    hide Region;
    hide FindOpen;
  }

  lemma {:induction false} StaysMissing(text: string, ids: seq<string>, bodies: Bodies, n: nat, m: nat)
    requires forall k :: 0 <= k < |ids| ==> ids[k] in bodies
    requires n <= m <= |ids| && Spliced(text, ids, bodies, n).Missing?
    ensures Spliced(text, ids, bodies, m) == Spliced(text, ids, bodies, n)
  {
    hide Splice;
    if n < m { StaysMissing(text, ids, bodies, n, m - 1); }
  }

  lemma {:induction false} OkBefore(text: string, ids: seq<string>, bodies: Bodies, n: nat, m: nat)
    requires forall k :: 0 <= k < |ids| ==> ids[k] in bodies
    requires n <= m <= |ids| && Spliced(text, ids, bodies, m).Ok?
    ensures Spliced(text, ids, bodies, n).Ok?
  {
    hide Splice;
    if Spliced(text, ids, bodies, n).Missing? { StaysMissing(text, ids, bodies, n, m); }
  }

  // ---------------------------------------------------------------- documents with regions

  datatype Part = Part(gap: string, sid: string, stamp: string, body: string)

  function Open(p: Part): string { Lead(p.sid) + p.stamp + TAIL }

  /** A document: regions with text between them, and text behind the last one. */
  function Render(parts: seq<Part>, end: string): string {
    if parts == [] then end else parts[0].gap + (Open(parts[0]) + (parts[0].body + (CLOSE + Render(parts[1..], end))))
  }

  ghost predicate NoOpen(s: string, sid: string) { forall i :: 0 <= i <= |s| ==> !OpenAt(s, sid, i) }

  ghost predicate Clean(s: string, ids: set<string>) { forall sid :: sid in ids ==> NoOpen(s, sid) }

  ghost predicate CleanBody(s: string, ids: set<string>) { Clean(s, ids) && !Contains(s, CLOSE) }

  predicate PlainId(sid: string) { '"' !in sid && '<' !in sid }

  ghost predicate CleanPart(p: Part, ids: set<string>) {
    && Clean(p.gap, ids) && CleanBody(p.body, ids) && PlainId(p.sid)
    && |p.stamp| == 64 && forall k :: 0 <= k < 64 ==> IsHex(p.stamp[k])
  }

  /** Every section has one marker pair, the pairs are disjoint, and no other text looks like a marker. */
  ghost predicate CleanDoc(parts: seq<Part>, end: string, ids: set<string>) {
    && (forall k :: 0 <= k < |parts| ==> CleanPart(parts[k], ids)) && Clean(end, ids)
    && (forall i, j :: 0 <= i < j < |parts| ==> parts[i].sid != parts[j].sid)
    && (forall sid :: sid in ids ==> PlainId(sid))
  }

  // ---------------------------------------------------------------- markers cannot straddle

  lemma CloseChars()
    ensures CLOSE[0] == '<' && CLOSE[5] == '/' && |CLOSE| == 26 && forall k :: 0 < k < |CLOSE| ==> CLOSE[k] != '<'
  {}

  lemma FixedChars()
    ensures |HEAD| == 31 && HEAD[0] == '<' && HEAD[5] == 'n' && forall k :: 0 < k < |HEAD| ==> HEAD[k] != '<'
    ensures forall k :: 0 <= k < |TAIL| ==> TAIL[k] != '<'
  {}

  lemma MiddleChars()
    ensures MIDDLE[0] == '"' && forall k :: 0 <= k < |MIDDLE| ==> MIDDLE[k] != '<'
  {}

  lemma LeadChars(sid: string)
    requires PlainId(sid)
    ensures |Lead(sid)| > 31 && Lead(sid)[0] == '<' && Lead(sid)[5] == 'n' && forall k :: 0 < k < |Lead(sid)| ==> Lead(sid)[k] != '<'
    ensures forall k :: 0 <= k < |TAIL| ==> TAIL[k] != '<'
    ensures CLOSE[0] == '<' && CLOSE[5] == '/' && |CLOSE| == 26 && forall k :: 0 < k < |CLOSE| ==> CLOSE[k] != '<'
  {
    CloseChars();
    FixedChars();
    MiddleChars();
    Joined(HEAD, sid, MIDDLE);
  }

  lemma Joined(a: string, b: string, c: string)
    requires '<' !in b && (forall k :: 0 <= k < |c| ==> c[k] != '<') && forall k :: 0 < k < |a| ==> a[k] != '<'
    requires |a| > 5 && c != ""
    ensures var s := a + b + c; |s| > |a| && s[0] == a[0] && s[5] == a[5] && forall k :: 0 < k < |s| ==> s[k] != '<'
  {
    var s := a + b + c;
    forall k | 0 < k < |s| ensures s[k] != '<' {
      assert s[k] == if k < |a| then a[k] else if k < |a| + |b| then b[k - |a|] else c[k - |a| - |b|];
    }
  }

  /** An open marker holds its only < at its start. */
  lemma OneAngle(text: string, sid: string, i: nat, k: nat)
    requires PlainId(sid) && OpenAt(text, sid, i) && i <= k < i + OpenLength(sid)
    ensures k < |text| && (text[k] == '<' <==> k == i)
  {
    LeadChars(sid);
    var j := i + |Lead(sid)|;
    if k < j {
      assert text[k] == text[i..j][k - i];
    } else if k >= j + 64 {
      assert text[k] == text[j + 64..j + 64 + |TAIL|][k - j - 64];
    }
  }

  lemma {:induction false} OpenShift(a: string, b: string, sid: string, i: nat)
    ensures OpenAt(a + b, sid, |a| + i) <==> OpenAt(b, sid, i)
  {
    var t := a + b;
    AtShift(a, b, Lead(sid), i);
    var j := i + |Lead(sid)|;
    AtShift(a, b, TAIL, j + 64);
    if j + 64 <= |b| {
      assert forall k :: j <= k < j + 64 ==> t[|a| + k] == b[k];
      assert (forall k :: |a| + j <= k < |a| + j + 64 ==> IsHex(t[k])) <==> (forall k :: j <= k < j + 64 ==> IsHex(b[k])) by {
        if forall k :: |a| + j <= k < |a| + j + 64 ==> IsHex(t[k]) {
          forall k | j <= k < j + 64 ensures IsHex(b[k]) { assert IsHex(t[|a| + k]); }
        }
        if forall k :: j <= k < j + 64 ==> IsHex(b[k]) {
          forall k | |a| + j <= k < |a| + j + 64 ensures IsHex(t[k]) { assert IsHex(b[k - |a|]); }
        }
      }
    }
  }

  lemma AtShift(a: string, b: string, p: string, i: nat)
    ensures At(a + b, |a| + i, p) <==> At(b, i, p)
  {
    if i + |p| <= |b| { assert (a + b)[|a| + i..|a| + i + |p|] == b[i..i + |p|]; }
  }

  lemma AtTwo(t: string, p: string, i: nat)
    requires At(t, i, p) && |p| > 5
    ensures t[i] == p[0] && t[i + 5] == p[5]
  {
    assert t[i] == t[i..i + |p|][0] && t[i + 5] == t[i..i + |p|][5];
  }

  lemma AtPrefix(a: string, b: string, p: string, i: nat)
    requires i + |p| <= |a|
    ensures At(a + b, i, p) <==> At(a, i, p)
  {
    assert (a + b)[i..i + |p|] == a[i..i + |p|];
  }

  /** Text without an open marker, before something that starts with <, or before the end. */
  lemma {:induction false} NoStraddle(a: string, b: string, sid: string, i: nat)
    requires PlainId(sid) && NoOpen(a, sid) && (b == "" || b[0] == '<') && i < |a|
    ensures !OpenAt(a + b, sid, i)
  {
    var t := a + b;
    if OpenAt(t, sid, i) {
      if i + OpenLength(sid) <= |a| {
        OpenInside(a, b, sid, i);
      } else {
        OneAngle(t, sid, i, |a|);
      }
    }
  }

  lemma OpenInside(a: string, b: string, sid: string, i: nat)
    requires i + OpenLength(sid) <= |a| && OpenAt(a + b, sid, i)
    ensures OpenAt(a, sid, i)
  {
    AtPrefix(a, b, Lead(sid), i);
    AtPrefix(a, b, TAIL, i + |Lead(sid)| + 64);
    assert forall k :: i <= k < i + OpenLength(sid) ==> (a + b)[k] == a[k];
  }

  /** The open marker of another section, or a close marker, is no open marker of this one. */
  lemma {:induction false} OtherOpen(p: Part, rest: string, sid: string, i: nat)
    requires PlainId(sid) && PlainId(p.sid) && |p.stamp| == 64 && (forall k :: 0 <= k < 64 ==> IsHex(p.stamp[k]))
    requires i < |Open(p)|
    ensures OpenAt(Open(p) + rest, sid, i) <==> i == 0 && p.sid == sid
  {
    var t := Open(p) + rest;
    IsOpen(p, rest);
    OneAngle(t, p.sid, 0, i);
    LeadChars(sid);
    if i > 0 {
      if At(t, i, Lead(sid)) { AtTwo(t, Lead(sid), i); }
    } else if p.sid != sid && At(t, 0, Lead(sid)) {
      SameLead(t, sid, p.sid);
    }
  }

  lemma IsOpen(p: Part, rest: string)
    requires |p.stamp| == 64 && (forall k :: 0 <= k < 64 ==> IsHex(p.stamp[k]))
    ensures OpenAt(Open(p) + rest, p.sid, 0) && |Open(p)| == OpenLength(p.sid)
  {
    var t := Open(p) + rest;
    var n := |Lead(p.sid)|;
    assert t[..n] == Lead(p.sid);
    assert t[n..n + 64] == p.stamp;
    assert forall k :: n <= k < n + 64 ==> t[k] == t[n..n + 64][k - n];
    assert t[n + 64..n + 64 + |TAIL|] == TAIL;
  }

  /** Two leads at one place belong to the same section: an id ends at the first quote. */
  lemma {:induction false} SameLead(t: string, a: string, b: string)
    requires PlainId(a) && PlainId(b) && At(t, 0, Lead(a)) && At(t, 0, Lead(b))
    ensures a == b
  {
    var h := |HEAD|;
    LeadAt(t, a);
    LeadAt(t, b);
    assert |a| == |b|;
    assert a == t[h..h + |a|] == b;
  }

  lemma LeadAt(t: string, a: string)
    requires PlainId(a) && At(t, 0, Lead(a))
    ensures |HEAD| + |a| < |t| && t[|HEAD|..|HEAD| + |a|] == a && t[|HEAD| + |a|] == '"'
    ensures forall k :: |HEAD| <= k < |HEAD| + |a| ==> t[k] != '"'
  {
    var h := |HEAD|;
    var p := t[..|Lead(a)|];
    assert p == HEAD + a + MIDDLE;
    assert p[h..h + |a|] == a && p[h + |a|] == MIDDLE[0];
    MiddleChars();
    assert t[h..h + |a|] == p[h..h + |a|] && t[h + |a|] == p[h + |a|];
    assert forall k :: h <= k < h + |a| ==> t[k] == a[k - h];
  }

  lemma CloseIsNotOpen(rest: string, sid: string, i: nat)
    requires PlainId(sid) && i < |CLOSE|
    ensures !OpenAt(CLOSE + rest, sid, i)
  {
    LeadChars(sid);
    var t := CLOSE + rest;
    assert t[i] == CLOSE[i] && (i == 0 ==> t[5] == CLOSE[5]);
    if At(t, i, Lead(sid)) { AtTwo(t, Lead(sid), i); }
  }

  // ---------------------------------------------------------------- finding regions

  lemma {:induction false} FindPast(a: string, b: string, sid: string, i: nat)
    requires i <= |a| && forall k :: i <= k < |a| ==> !OpenAt(a + b, sid, k)
    ensures FindOpen(a + b, sid, i) ==
            match FindOpen(b, sid, 0) case None => None case Some(m) => Some(|a| + m)
    decreases |a| - i
  {
    hide OpenAt;
    if i < |a| {
      FindPast(a, b, sid, i + 1);
    } else {
      FindShift(a, b, sid, 0);
    }
  }

  lemma {:induction false} FindShift(a: string, b: string, sid: string, i: nat)
    requires i <= |b|
    ensures FindOpen(a + b, sid, |a| + i) ==
            match FindOpen(b, sid, i) case None => None case Some(m) => Some(|a| + m)
    decreases |b| - i
  {
    OpenShift(a, b, sid, i);
    hide OpenAt;
    if i < |b| { FindShift(a, b, sid, i + 1); }
  }

  lemma {:induction false} FindPastGap(gap: string, rest: string, sid: string)
    requires PlainId(sid) && NoOpen(gap, sid) && (rest == "" || rest[0] == '<')
    ensures FindOpen(gap + rest, sid, 0) == match FindOpen(rest, sid, 0) case None => None case Some(m) => Some(|gap| + m)
  {
    forall k | 0 <= k < |gap| ensures !OpenAt(gap + rest, sid, k) { NoStraddle(gap, rest, sid, k); }
    FindPast(gap, rest, sid, 0);
  }

  /** The search for a section's open marker steps over another section's region. */
  lemma {:induction false} FindPastPart(p: Part, rest: string, sid: string, ids: set<string>)
    requires CleanPart(p, ids) && sid in ids && PlainId(sid) && p.sid != sid
    ensures var region := Open(p) + (p.body + (CLOSE + rest));
            FindOpen(region, sid, 0) ==
            match FindOpen(rest, sid, 0) case None => None case Some(m) => Some(|Open(p)| + |p.body| + |CLOSE| + m)
  {
    hide FindOpen;
    hide OpenAt;
    hide Contains;
    var tail := p.body + (CLOSE + rest);
    forall k | 0 <= k < |Open(p)| ensures !OpenAt(Open(p) + tail, sid, k) { OtherOpen(p, tail, sid, k); }
    FindPast(Open(p), tail, sid, 0);
    assert (CLOSE + rest)[0] == '<';
    FindPastGap(p.body, CLOSE + rest, sid);
    forall k | 0 <= k < |CLOSE| ensures !OpenAt(CLOSE + rest, sid, k) { CloseIsNotOpen(rest, sid, k); }
    FindPast(CLOSE, rest, sid, 0);
  }

  lemma {:induction false} CloseShift(a: string, b: string, i: nat)
    requires i <= |b|
    ensures Find(a + b, CLOSE, |a| + i) == if Find(b, CLOSE, i) == -1 then -1 else |a| + Find(b, CLOSE, i)
    decreases |b| - i
  {
    AtShift(a, b, CLOSE, i);
    hide At;
    if i < |b| { CloseShift(a, b, i + 1); }
  }

  /** The close marker found behind a body is the region's own. */
  lemma {:induction false} CloseFound(body: string, rest: string)
    requires !Contains(body, CLOSE)
    ensures Find(body + (CLOSE + rest), CLOSE, 0) == |body|
  {
    var t := body + (CLOSE + rest);
    LeadChars("");
    assert t[|body|] == '<';
    forall i | 0 <= i < |body| ensures !At(t, i, CLOSE) {
      if i + |CLOSE| <= |body| {
        AtPrefix(body, CLOSE + rest, CLOSE, i);
        assert !At(body, i, CLOSE);
      } else {
        AngleInside(t, i, |body|);
      }
    }
    assert t[|body|..|body| + |CLOSE|] == CLOSE;
    FindIs(t, CLOSE, 0, |body|);
  }

  lemma AngleInside(t: string, i: nat, k: nat)
    requires i < k < i + |CLOSE| && k < |t| && t[k] == '<'
    ensures !At(t, i, CLOSE)
  {
    LeadChars("");
    if i + |CLOSE| <= |t| { assert t[k] == t[i..i + |CLOSE|][k - i]; }
  }

  function Whole(p: Part, rest: string): string { p.gap + (Open(p) + (p.body + (CLOSE + rest))) }

  lemma {:induction false} OpenFound(p: Part, rest: string, ids: set<string>)
    requires CleanPart(p, ids) && p.sid in ids
    ensures FindOpen(Whole(p, rest), p.sid, 0) == Some(|p.gap|) && |Open(p)| == OpenLength(p.sid)
  {
    hide Contains;
    var tail := p.body + (CLOSE + rest);
    IsOpen(p, tail);
    LeadChars(p.sid);
    hide OpenAt;
    assert (Open(p) + tail)[0] == '<';
    hide Open;
    FindPastGap(p.gap, Open(p) + tail, p.sid);
    assert FindOpen(Open(p) + tail, p.sid, 0) == Some(0);
  }

  lemma {:induction false} CloseFoundAt(p: Part, rest: string, ids: set<string>)
    requires CleanPart(p, ids)
    ensures Find(Whole(p, rest), CLOSE, |p.gap| + |Open(p)|) == |p.gap| + |Open(p)| + |p.body|
  {
    hide Contains;
    hide Open;
    hide Clean;
    var head, tail := p.gap + Open(p), p.body + (CLOSE + rest);
    CloseFound(p.body, rest);
    assert Whole(p, rest) == head + tail;
    hide Find;
    CloseShift(head, tail, 0);
  }

  /** The region of the document's first part. */
  lemma {:induction false} FirstRegion(p: Part, rest: string, ids: set<string>)
    requires CleanPart(p, ids) && p.sid in ids
    ensures var a := |p.gap| + |Open(p)|; Region(Whole(p, rest), p.sid) == Some((a, a + |p.body|))
  {
    hide FindOpen;
    hide Find;
    hide Open;
    hide Whole;
    hide CleanPart;
    OpenFound(p, rest, ids);
    CloseFoundAt(p, rest, ids);
  }

  /** A part up to and including its close marker. */
  function Ahead(p: Part): string { p.gap + Open(p) + p.body + CLOSE }

  lemma WholeIs(p: Part, rest: string)
    ensures Whole(p, rest) == Ahead(p) + rest
    ensures |Ahead(p)| == |p.gap| + |Open(p)| + |p.body| + |CLOSE|
  {
    hide Open;
  }

  lemma {:induction false} FindLater(p: Part, rest: string, sid: string, ids: set<string>)
    requires CleanPart(p, ids) && sid in ids && PlainId(sid) && p.sid != sid
    ensures FindOpen(Ahead(p) + rest, sid, 0) ==
            match FindOpen(rest, sid, 0) case None => None case Some(m) => Some(|Ahead(p)| + m)
  {
    hide Contains;
    hide OpenAt;
    hide FindOpen;
    var region := Open(p) + (p.body + (CLOSE + rest));
    LeadChars(p.sid);
    assert region[0] == '<';
    FindPastGap(p.gap, region, sid);
    FindPastPart(p, rest, sid, ids);
    WholeIs(p, rest);
  }

  /** The region of a later part is found behind the first one. */
  lemma {:induction false} LaterRegion(p: Part, rest: string, sid: string, ids: set<string>)
    requires CleanPart(p, ids) && sid in ids && PlainId(sid) && p.sid != sid
    ensures FindOpen(Ahead(p) + rest, sid, 0).None? <==> FindOpen(rest, sid, 0).None?
    ensures Region(Ahead(p) + rest, sid) ==
            match Region(rest, sid) case None => None case Some((a, c)) => Some((|Ahead(p)| + a, |Ahead(p)| + c))
  {
    hide At;
    hide PlainId;
    hide FindOpen;
    hide Find;
    hide Ahead;
    FindLater(p, rest, sid, ids);
    hide CleanPart;
    hide OpenAt;
    hide OpenLength;
    if FindOpen(rest, sid, 0).Some? {
      CloseShift(Ahead(p), rest, FindOpen(rest, sid, 0).value + OpenLength(sid));
    }
  }

  lemma Slices(gap: string, open: string, body: string, rest: string, new_: string)
    ensures var t := gap + (open + (body + rest)); var a := |gap| + |open|;
            && t[a..a + |body|] == body
            && t[..a] + new_ + t[a + |body|..] == gap + (open + (new_ + rest))
  {
    var t := gap + (open + (body + rest));
    var a := |gap| + |open|;
    assert t[..a] == gap + open && t[a + |body|..] == rest;
  }

  lemma SlicesLater(head: string, rest: string, a: nat, c: nat, new_: string)
    requires a <= c <= |rest|
    ensures var t := head + rest; var n := |head|;
            && t[n + a..n + c] == rest[a..c]
            && t[..n + a] + new_ + t[n + c..] == head + (rest[..a] + new_ + rest[c..])
  {
    var t := head + rest;
    var n := |head|;
    assert t[..n + a] == head + rest[..a] && t[n + c..] == rest[c..];
  }

  lemma RenderFirst(parts: seq<Part>, end: string)
    requires parts != []
    ensures Render(parts, end) == Whole(parts[0], Render(parts[1..], end)) == Ahead(parts[0]) + Render(parts[1..], end)
  {
    hide Open;
    WholeIs(parts[0], Render(parts[1..], end));
  }

  /** The region of a section holds a body, and with another body in its place the text is another one. */
  ghost predicate Holds(text: string, sid: string, body: string, new_: string, after: string) {
    var r := Region(text, sid);
    r.Some? && text[r.value.0..r.value.1] == body && text[..r.value.0] + new_ + text[r.value.1..] == after
  }

  lemma {:induction false} HoldsFirst(p: Part, rest: string, ids: set<string>, body: string)
    requires CleanPart(p, ids) && p.sid in ids
    ensures Holds(Whole(p, rest), p.sid, p.body, body, Whole(p.(body := body), rest))
  {
    SameOpen(p, body);
    hide Open;
    hide Region;
    hide CleanPart;
    hide PlainId;
    FirstRegion(p, rest, ids);
    Slices(p.gap, Open(p), p.body, CLOSE + rest, body);
  }

  lemma {:induction false} HoldsLater(p: Part, rest: string, sid: string, ids: set<string>, old_: string, new_: string, after: string)
    requires CleanPart(p, ids) && sid in ids && PlainId(sid) && p.sid != sid
    requires Holds(rest, sid, old_, new_, after)
    ensures Holds(Ahead(p) + rest, sid, old_, new_, Ahead(p) + after)
  {
    hide PlainId;
    hide FindOpen;
    hide Region;
    hide Ahead;
    hide CleanPart;
    LaterRegion(p, rest, sid, ids);
    var (a, c) := Region(rest, sid).value;
    SlicesLater(Ahead(p), rest, a, c, new_);
  }

  /** A part's region in the rendered document holds its body, and replacing it renders the document with
      the new body. */
  lemma {:induction false} RegionIs(parts: seq<Part>, end: string, ids: set<string>, k: nat, body: string)
    requires CleanDoc(parts, end, ids) && k < |parts| && parts[k].sid in ids
    ensures Holds(Render(parts, end), parts[k].sid, parts[k].body, body, Render(parts[k := parts[k].(body := body)], end))
  {
    var after := parts[k := parts[k].(body := body)];
    CleanRest(parts, end, ids);
    hide CleanDoc;
    hide CleanPart;
    hide PlainId;
    hide Clean;
    hide Region;
    hide Open;
    hide Holds;
    hide Render;
    hide Whole;
    hide Ahead;
    RenderFirst(parts, end);
    RenderFirst(after, end);
    var rest := Render(parts[1..], end);
    PutRest(parts, k, parts[k].(body := body));
    if k == 0 {
      HoldsFirst(parts[0], rest, ids, body);
    } else {
      RegionIs(parts[1..], end, ids, k - 1, body);
      HoldsLater(parts[0], rest, parts[k].sid, ids, parts[k].body, body, Render(after[1..], end));
    }
  }

  lemma PutRest(parts: seq<Part>, k: nat, p: Part)
    requires k < |parts|
    ensures var after := parts[k := p];
            if k == 0 then after[0] == p && after[1..] == parts[1..]
            else after[0] == parts[0] && after[1..] == parts[1..][k - 1 := p] && parts[k] == parts[1..][k - 1]
  {}

  lemma SameOpen(p: Part, body: string)
    ensures Open(p.(body := body)) == Open(p)
  {}

  lemma CleanRest(parts: seq<Part>, end: string, ids: set<string>)
    requires CleanDoc(parts, end, ids) && parts != []
    ensures CleanPart(parts[0], ids) && CleanDoc(parts[1..], end, ids)
    ensures forall k :: 0 < k < |parts| ==> parts[k].sid != parts[0].sid
    ensures forall sid :: sid in ids ==> PlainId(sid)
  {
    hide CleanPart;
    hide Clean;
    var rest := parts[1..];
    forall k | 0 <= k < |rest| ensures CleanPart(rest[k], ids) { assert rest[k] == parts[k + 1]; }
  }

  /** A section the document has no part for is not found. */
  lemma {:induction false} NotThere(parts: seq<Part>, end: string, ids: set<string>, sid: string)
    requires CleanDoc(parts, end, ids) && sid in ids && forall k :: 0 <= k < |parts| ==> parts[k].sid != sid
    ensures FindOpen(Render(parts, end), sid, 0).None?
  {
    hide OpenAt;
    if parts == [] {
      NoneFound(end, sid, 0);
    } else {
      hide CleanPart;
      CleanRest(parts, end, ids);
      NotThere(parts[1..], end, ids, sid);
      RenderFirst(parts, end);
      hide Render;
      LaterRegion(parts[0], Render(parts[1..], end), sid, ids);
    }
  }

  lemma {:induction false} NoneFound(s: string, sid: string, i: nat)
    requires NoOpen(s, sid) && i <= |s|
    ensures FindOpen(s, sid, i).None?
    decreases |s| - i
  {
    hide OpenAt;
    if i < |s| { NoneFound(s, sid, i + 1); }
  }

  // ---------------------------------------------------------------- the whole synchronisation

  /** The document with the generated bodies in the parts of the given sections, and nothing else changed. */
  function Filled(parts: seq<Part>, done: set<string>, bodies: Bodies): (r: seq<Part>)
    requires done <= bodies.Keys
    ensures |r| == |parts|
  {
    seq(|parts|, k requires 0 <= k < |parts| =>
      if parts[k].sid in done then parts[k].(body := bodies[parts[k].sid]) else parts[k])
  }

  function Elements(ids: seq<string>, n: nat): set<string>
    requires n <= |ids|
  {
    set k | 0 <= k < n :: ids[k]
  }

  predicate HasPart(parts: seq<Part>, sid: string) { exists k :: 0 <= k < |parts| && parts[k].sid == sid }

  /** The section's part does not hold its generated body. */
  predicate Stale(parts: seq<Part>, sid: string, bodies: Bodies) {
    sid in bodies && exists k :: 0 <= k < |parts| && parts[k].sid == sid && parts[k].body != bodies[sid]
  }

  function StaleSet(parts: seq<Part>, ids: seq<string>, n: nat, bodies: Bodies): set<string>
    requires n <= |ids|
  {
    set sid | sid in Elements(ids, n) && Stale(parts, sid, bodies)
  }

  /** What is asked of a synchronisation: distinct sections with clean generated bodies. */
  ghost predicate CleanInput(parts: seq<Part>, end: string, ids: seq<string>, bodies: Bodies) {
    && CleanDoc(parts, end, Elements(ids, |ids|)) && Distinct(ids)
    && forall k :: 0 <= k < |ids| ==> ids[k] in bodies && CleanBody(bodies[ids[k]], Elements(ids, |ids|))
  }

  /** The seven sections meet the conditions on ids. */
  lemma SectionsPlain()
    ensures Distinct(SECTIONS) && forall k :: 0 <= k < |SECTIONS| ==> PlainId(SECTIONS[k])
  {}

  lemma FilledClean(parts: seq<Part>, end: string, ids: seq<string>, bodies: Bodies, done: set<string>)
    requires CleanInput(parts, end, ids, bodies) && done <= Elements(ids, |ids|) && done <= bodies.Keys
    ensures CleanDoc(Filled(parts, done, bodies), end, Elements(ids, |ids|))
  {
    hide CleanBody;
    hide Clean;
    var all := Elements(ids, |ids|);
    var after := Filled(parts, done, bodies);
    forall k | 0 <= k < |after| ensures CleanPart(after[k], all) {
      assert CleanPart(parts[k], all);
      if parts[k].sid in done {
        var j :| 0 <= j < |ids| && ids[j] == parts[k].sid;
        assert CleanBody(bodies[ids[j]], all);
        BodyClean(parts[k], bodies[ids[j]], all);
      }
    }
  }

  lemma BodyClean(p: Part, body: string, ids: set<string>)
    requires CleanPart(p, ids) && CleanBody(body, ids)
    ensures CleanPart(p.(body := body), ids)
  {
    hide Clean;
    hide Contains;
  }

  lemma FillNext(parts: seq<Part>, ids: seq<string>, bodies: Bodies, n: nat, k: nat)
    requires n < |ids| && Elements(ids, n) <= bodies.Keys && ids[n] in bodies
    requires k < |parts| && parts[k].sid == ids[n] && forall i :: 0 <= i < |parts| && i != k ==> parts[i].sid != ids[n]
    ensures Elements(ids, n + 1) <= bodies.Keys
    ensures var f := Filled(parts, Elements(ids, n), bodies);
            f[k := f[k].(body := bodies[ids[n]])] == Filled(parts, Elements(ids, n + 1), bodies)
  {
    ElementsNext(ids, n);
  }

  lemma ElementsNext(ids: seq<string>, n: nat)
    requires n < |ids|
    ensures Elements(ids, n + 1) == Elements(ids, n) + {ids[n]}
    ensures Elements(ids, n) <= Elements(ids, |ids|) && ids[n] in Elements(ids, |ids|)
  {}

  lemma NotYet(ids: seq<string>, n: nat)
    requires Distinct(ids) && n < |ids|
    ensures ids[n] !in Elements(ids, n)
  {}

  lemma {:induction false} OnlyPart(parts: seq<Part>, end: string, ids: set<string>, k: nat)
    requires CleanDoc(parts, end, ids) && k < |parts|
    ensures forall i :: 0 <= i < |parts| && i != k ==> parts[i].sid != parts[k].sid
  {
    hide CleanPart;
    hide Clean;
  }

  lemma KeysOf(parts: seq<Part>, end: string, ids: seq<string>, bodies: Bodies, n: nat)
    requires CleanInput(parts, end, ids, bodies) && n <= |ids|
    ensures Elements(ids, n) <= bodies.Keys && Elements(ids, n) <= Elements(ids, |ids|)
  {
    hide CleanDoc;
    hide CleanBody;
  }

  /** After n splices: the first n sections hold their bodies, everything else is as it was, and Changed
      has counted those that did not hold them before. */
  lemma {:induction false} SyncSteps(parts: seq<Part>, end: string, ids: seq<string>, bodies: Bodies, n: nat)
    requires CleanInput(parts, end, ids, bodies) && n <= |ids|
    requires forall k :: 0 <= k < |ids| ==> HasPart(parts, ids[k])
    ensures Elements(ids, n) <= bodies.Keys
    ensures var text := Render(parts, end);
            && Spliced(text, ids, bodies, n) == Ok(Render(Filled(parts, Elements(ids, n), bodies), end))
            && Changed(text, ids, bodies, n) == |StaleSet(parts, ids, n, bodies)|
  {
    hide Render;
    hide CleanBody;
    hide CleanPart;
    hide Splice;
    hide Region;
    var text := Render(parts, end);
    KeysOf(parts, end, ids, bodies, n);
    if n == 0 {
      assert Elements(ids, 0) == {};
      assert Filled(parts, {}, bodies) == parts;
    } else {
      SyncSteps(parts, end, ids, bodies, n - 1);
      SyncStep(parts, end, ids, bodies, n - 1);
    }
  }

  lemma {:induction false} SyncStep(parts: seq<Part>, end: string, ids: seq<string>, bodies: Bodies, n: nat)
    requires CleanInput(parts, end, ids, bodies) && n < |ids| && HasPart(parts, ids[n])
    requires Elements(ids, n) <= bodies.Keys && Elements(ids, n + 1) <= bodies.Keys
    ensures var text, sid := Render(Filled(parts, Elements(ids, n), bodies), end), ids[n];
            && Splice(text, sid, bodies[sid]) == Ok(Render(Filled(parts, Elements(ids, n + 1), bodies), end))
            && |StaleSet(parts, ids, n + 1, bodies)| ==
               |StaleSet(parts, ids, n, bodies)| + if Differs(text, sid, bodies[sid]) then 1 else 0
  {
    hide Render;
    hide CleanBody;
    hide CleanPart;
    hide Region;
    hide FindOpen;
    var sid := ids[n];
    var done := Elements(ids, n);
    var now := Filled(parts, done, bodies);
    var k :| 0 <= k < |parts| && parts[k].sid == sid;
    ElementsNext(ids, n);
    NotYet(ids, n);
    FilledClean(parts, end, ids, bodies, done);
    OnlyPart(parts, end, Elements(ids, |ids|), k);
    hide CleanDoc;
    FillNext(parts, ids, bodies, n, k);
    RegionIs(now, end, Elements(ids, |ids|), k, bodies[sid]);
    SpliceHolds(Render(now, end), sid, now[k].body, bodies[sid], Render(Filled(parts, Elements(ids, n + 1), bodies), end));
    StaleNext(parts, ids, bodies, n, k);
  }

  lemma SpliceHolds(text: string, sid: string, body: string, new_: string, after: string)
    requires Holds(text, sid, body, new_, after)
    ensures Splice(text, sid, new_) == Ok(after) && (Differs(text, sid, new_) <==> body != new_)
  {
    hide FindOpen;
    hide Find;
  }

  lemma StaleNext(parts: seq<Part>, ids: seq<string>, bodies: Bodies, n: nat, k: nat)
    requires n < |ids| && ids[n] in bodies && ids[n] !in Elements(ids, n)
    requires k < |parts| && parts[k].sid == ids[n] && forall i :: 0 <= i < |parts| && i != k ==> parts[i].sid != ids[n]
    ensures |StaleSet(parts, ids, n + 1, bodies)| ==
            |StaleSet(parts, ids, n, bodies)| + if parts[k].body != bodies[ids[n]] then 1 else 0
  {
    ElementsNext(ids, n);
    assert Stale(parts, ids[n], bodies) <==> parts[k].body != bodies[ids[n]];
    hide Stale;
    hide Elements;
    var more: set<string> := if Stale(parts, ids[n], bodies) then {ids[n]} else {};
    assert StaleSet(parts, ids, n + 1, bodies) == StaleSet(parts, ids, n, bodies) + more;
  }

  /** schema-sync on a clean document: every section's region ends up equal to its generated body, every
      other character is kept, and the report counts exactly the regions that differed, NOOP if none. */
  lemma {:induction false} SyncIs(parts: seq<Part>, end: string, ids: seq<string>, bodies: Bodies)
    requires CleanInput(parts, end, ids, bodies) && forall k :: 0 <= k < |ids| ==> HasPart(parts, ids[k])
    ensures Elements(ids, |ids|) <= bodies.Keys
    ensures var stale := StaleSet(parts, ids, |ids|, bodies);
            Sync(Render(parts, end), ids, bodies) ==
            (Render(Filled(parts, Elements(ids, |ids|), bodies), end),
             if stale == {} then Noop(|ids|) else Synced(|ids|, |stale|))
  {
    hide Render;
    hide CleanDoc;
    hide CleanBody;
    hide Spliced;
    hide Changed;
    hide Stale;
    SyncSteps(parts, end, ids, bodies, |ids|);
    var all := Elements(ids, |ids|);
    var stale := StaleSet(parts, ids, |ids|, bodies);
    if stale == {} {
      NoneStale(parts, ids, bodies);
    } else {
      var sid :| sid in stale;
      SomeStale(parts, end, ids, bodies, sid);
    }
  }

  lemma NoneStale(parts: seq<Part>, ids: seq<string>, bodies: Bodies)
    requires Elements(ids, |ids|) <= bodies.Keys && StaleSet(parts, ids, |ids|, bodies) == {}
    ensures Filled(parts, Elements(ids, |ids|), bodies) == parts
  {
    var all := Elements(ids, |ids|);
    var after := Filled(parts, all, bodies);
    forall k | 0 <= k < |parts| ensures after[k] == parts[k] {
      if parts[k].sid in all { assert parts[k].sid !in StaleSet(parts, ids, |ids|, bodies); }
    }
  }

  lemma {:induction false} SomeStale(parts: seq<Part>, end: string, ids: seq<string>, bodies: Bodies, sid: string)
    requires CleanInput(parts, end, ids, bodies) && sid in Elements(ids, |ids|) && Stale(parts, sid, bodies)
    requires Elements(ids, |ids|) <= bodies.Keys
    ensures Render(Filled(parts, Elements(ids, |ids|), bodies), end) != Render(parts, end)
  {
    hide Render;
    hide CleanBody;
    hide CleanPart;
    hide Region;
    var all := Elements(ids, |ids|);
    var after := Filled(parts, all, bodies);
    var k :| 0 <= k < |parts| && parts[k].sid == sid && parts[k].body != bodies[sid];
    FilledClean(parts, end, ids, bodies, all);
    hide CleanDoc;
    RegionIs(parts, end, all, k, "");
    RegionIs(after, end, all, k, "");
    assert after[k].body == bodies[sid];
  }

  /** A second synchronisation changes nothing and says so. */
  lemma {:induction false} SyncTwice(parts: seq<Part>, end: string, ids: seq<string>, bodies: Bodies)
    requires CleanInput(parts, end, ids, bodies) && forall k :: 0 <= k < |ids| ==> HasPart(parts, ids[k])
    ensures var once := Sync(Render(parts, end), ids, bodies).0;
            Sync(once, ids, bodies) == (once, Noop(|ids|))
  {
    hide Render;
    hide CleanBody;
    hide Sync;
    hide CleanPart;
    hide Clean;
    SyncIs(parts, end, ids, bodies);
    var all := Elements(ids, |ids|);
    var after := Filled(parts, all, bodies);
    FilledClean(parts, end, ids, bodies, all);
    forall k | 0 <= k < |ids| ensures HasPart(after, ids[k]) {
      assert HasPart(parts, ids[k]);
      var j :| 0 <= j < |parts| && parts[j].sid == ids[k];
      assert after[j].sid == ids[k];
    }
    assert StaleSet(after, ids, |ids|, bodies) == {};
    assert Filled(after, all, bodies) == after;
    SyncIs(after, end, ids, bodies);
  }

  /** The order of the sections does not matter. */
  lemma {:induction false} SyncOrder(parts: seq<Part>, end: string, ids: seq<string>, other: seq<string>, bodies: Bodies)
    requires CleanInput(parts, end, ids, bodies) && forall k :: 0 <= k < |ids| ==> HasPart(parts, ids[k])
    requires Distinct(other) && |other| == |ids| && Elements(other, |other|) == Elements(ids, |ids|)
    ensures forall k :: 0 <= k < |other| ==> other[k] in bodies
    ensures Sync(Render(parts, end), other, bodies) == Sync(Render(parts, end), ids, bodies)
  {
    hide Render;
    hide CleanBody;
    hide CleanDoc;
    hide Sync;
    hide Stale;
    forall k | 0 <= k < |other|
      ensures HasPart(parts, other[k]) && other[k] in bodies && CleanBody(bodies[other[k]], Elements(ids, |ids|))
    {
      assert other[k] in Elements(other, |other|);
      var j :| 0 <= j < |ids| && ids[j] == other[k];
    }
    hide HasPart;
    SyncIs(parts, end, ids, bodies);
    SyncIs(parts, end, other, bodies);
  }

  /** When a section has no part, the command reports the first such section and writes nothing. */
  lemma {:induction false} SyncMissing(parts: seq<Part>, end: string, ids: seq<string>, bodies: Bodies, n: nat)
    requires CleanInput(parts, end, ids, bodies) && n < |ids| && !HasPart(parts, ids[n])
    requires forall k :: 0 <= k < n ==> HasPart(parts, ids[k])
    ensures Sync(Render(parts, end), ids, bodies) == (Render(parts, end), Error(OpenMarker, ids[n]))
  {
    hide Render;
    hide CleanBody;
    hide CleanPart;
    hide Clean;
    hide CleanDoc;
    hide PlainId;
    hide FindOpen;
    hide Region;
    FoundSoFar(parts, end, ids, bodies, n);
    var all := Elements(ids, |ids|);
    var done := Elements(ids, n);
    FilledClean(parts, end, ids, bodies, done);
    ElementsNext(ids, n);
    var now := Filled(parts, done, bodies);
    forall k | 0 <= k < |now| ensures now[k].sid != ids[n] { assert now[k].sid == parts[k].sid; }
    NotThere(now, end, all, ids[n]);
    assert Spliced(Render(parts, end), ids, bodies, n + 1) == Missing(OpenMarker, ids[n]);
    StaysMissing(Render(parts, end), ids, bodies, n + 1, |ids|);
  }

  lemma {:induction false} FoundSoFar(parts: seq<Part>, end: string, ids: seq<string>, bodies: Bodies, n: nat)
    requires CleanInput(parts, end, ids, bodies) && n <= |ids|
    requires forall k :: 0 <= k < n ==> HasPart(parts, ids[k])
    ensures Elements(ids, n) <= bodies.Keys && Elements(ids, n) <= Elements(ids, |ids|)
    ensures Spliced(Render(parts, end), ids, bodies, n) == Ok(Render(Filled(parts, Elements(ids, n), bodies), end))
  {
    hide Render;
    hide CleanBody;
    hide CleanPart;
    hide Splice;
    hide Region;
    KeysOf(parts, end, ids, bodies, n);
    if n == 0 {
      assert Elements(ids, 0) == {};
      assert Filled(parts, {}, bodies) == parts;
    } else {
      FoundSoFar(parts, end, ids, bodies, n - 1);
      SyncStep(parts, end, ids, bodies, n - 1);
    }
  }
}
