/** The bridge's event log and two ways of turning it into per-run timelines: a batch fold with an index
    of open steps, and the monitor's streaming update that looks for the step to close from the end. */
module EventLog {
  import opened Wrappers

  /** The value of an exit_code key, when the key is there. */
  datatype Code = Null | Num(n: int)

  datatype Event = Event(etype: string, run: string, cmd: Option<string>, slug: Option<string>, exit: Option<Code>,
                         ts: string, tier: string, session: string, kind: Option<string>)

  type Timelines = map<string, seq<Event>>

  datatype Key = Key(run: string, cmd: Option<string>, slug: Option<string>)

  function KeyOf(ev: Event): Key { Key(ev.run, ev.cmd, ev.slug) }

  predicate IsStep(ev: Event) { ev.run != "" && ev.etype == "opsstepevent" }

  function Timeline(t: Timelines, run: string): seq<Event> { if run in t then t[run] else [] }

  function Close(tl: seq<Event>, i: nat, exit: Option<Code>): (r: seq<Event>)
    requires i < |tl|
    ensures |r| == |tl|
  {
    tl[i := tl[i].(exit := exit)]
  }

  // ---------------------------------------------------------------- the batch fold

  /** The sessions and timelines built so far, and where the last step opened under each key stands. */
  datatype View = View(sessions: map<string, seq<Option<string>>>, timeline: Timelines, open: map<Key, nat>)

  const EMPTY := View(map[], map[], map[])

  /** The indexed step of the event's key is still open. */
  predicate IndexOpen(v: View, key: Key) {
    key in v.open && v.open[key] < |Timeline(v.timeline, key.run)| && Timeline(v.timeline, key.run)[v.open[key]].exit.None?
  }

  function FoldStep(v: View, ev: Event): View {
    if ev.run == "" then v
    else if ev.etype == "sessionsevent" then
      v.(sessions := v.sessions[ev.run := (if ev.run in v.sessions then v.sessions[ev.run] else []) + [ev.kind]])
    else if ev.etype != "opsstepevent" then v
    else
      var tl := Timeline(v.timeline, ev.run);
      var key := KeyOf(ev);
      if IndexOpen(v, key) && ev.exit.Some? then
        v.(timeline := v.timeline[ev.run := Close(tl, v.open[key], ev.exit)])
      else
        View(v.sessions, v.timeline[ev.run := tl + [ev]], if ev.exit.None? then v.open[key := |tl|] else v.open)
  }

  /** fold_eventlog_views over the first n events. */
  function Folded(events: seq<Event>, n: nat): View
    requires n <= |events|
  {
    if n == 0 then EMPTY else FoldStep(Folded(events, n - 1), events[n - 1])
  }

  // ---------------------------------------------------------------- the times of a run's steps

  type Times = map<string, seq<string>>

  function TimesOf(t: Times, run: string): seq<string> { if run in t then t[run] else [] }

  function TimesStep(t: Times, ev: Event): Times {
    if !IsStep(ev) || ev.ts == "" || ev.ts in TimesOf(t, ev.run) then t else t[ev.run := TimesOf(t, ev.run) + [ev.ts]]
  }

  /** step_times over the first n events. */
  function StepTimes(events: seq<Event>, n: nat): Times
    requires n <= |events|
  {
    if n == 0 then map[] else TimesStep(StepTimes(events, n - 1), events[n - 1])
  }

  predicate Emits(ev: Event, run: string, ts: string) { IsStep(ev) && ev.run == run && ev.ts == ts }

  /** The times kept for a run are those its step events carry, each once. */
  lemma {:induction false} TimesExact(events: seq<Event>, n: nat, run: string, ts: string)
    requires n <= |events|
    ensures ts in TimesOf(StepTimes(events, n), run) <==> ts != "" && exists i :: 0 <= i < n && Emits(events[i], run, ts)
    ensures var t := TimesOf(StepTimes(events, n), run); forall a, b :: 0 <= a < b < |t| ==> t[a] != t[b]
  {
    if n > 0 {
      TimesExact(events, n - 1, run, ts);
      var ev := events[n - 1];
      if ts in TimesOf(StepTimes(events, n), run) && ts !in TimesOf(StepTimes(events, n - 1), run) {
        assert Emits(ev, run, ts);
      }
    }
  }

  /** They stand in the order in which they were first emitted. */
  lemma {:induction false} TimesInOrder(events: seq<Event>, n: nat, run: string, a: nat, b: nat) returns (i: nat)
    requires n <= |events| && a < b < |TimesOf(StepTimes(events, n), run)|
    ensures i < n && Emits(events[i], run, TimesOf(StepTimes(events, n), run)[a])
    ensures forall k :: 0 <= k <= i ==> !Emits(events[k], run, TimesOf(StepTimes(events, n), run)[b])
  {
    var t, before := TimesOf(StepTimes(events, n), run), TimesOf(StepTimes(events, n - 1), run);
    if b < |before| {
      i := TimesInOrder(events, n - 1, run, a, b);
    } else {
      TimesExact(events, n - 1, run, t[a]);
      TimesExact(events, n - 1, run, t[b]);
      i :| 0 <= i < n - 1 && Emits(events[i], run, t[a]);
    }
  }

  // ---------------------------------------------------------------- the streaming update

  predicate Matches(step: Event, cmd: Option<string>, slug: Option<string>) {
    step.cmd == cmd && step.slug == slug && step.exit.None?
  }

  /** The newest open step of a command and slug among the first n. */
  function NewestOpen(tl: seq<Event>, cmd: Option<string>, slug: Option<string>, n: nat): (r: Option<nat>)
    requires n <= |tl|
    ensures r.Some? ==> r.value < n && Matches(tl[r.value], cmd, slug)
    ensures forall k :: (if r.Some? then r.value + 1 else 0) <= k < n ==> !Matches(tl[k], cmd, slug)
  {
    if n == 0 then None
    else if Matches(tl[n - 1], cmd, slug) then Some(n - 1)
    else NewestOpen(tl, cmd, slug, n - 1)
  }

  function StreamStep(t: Timelines, ev: Event): Timelines {
    if !IsStep(ev) then t else
    var tl := Timeline(t, ev.run);
    var hit := if ev.exit.Some? then NewestOpen(tl, ev.cmd, ev.slug, |tl|) else None;
    t[ev.run := match hit case Some(i) => Close(tl, i, ev.exit) case None => tl + [ev]]
  }

  /** A monitor that starts from given timelines and is sent the first n events. */
  function Streamed(t: Timelines, events: seq<Event>, n: nat): Timelines
    requires n <= |events|
  {
    if n == 0 then t else StreamStep(Streamed(t, events, n - 1), events[n - 1])
  }

  // ---------------------------------------------------------------- the index

  predicate PointsRight(v: View, key: Key) {
    var tl := Timeline(v.timeline, key.run);
    key in v.open ==> v.open[key] < |tl| && tl[v.open[key]].cmd == key.cmd && tl[v.open[key]].slug == key.slug
  }

  predicate NotBehind(v: View, run: string, i: nat)
    requires i < |Timeline(v.timeline, run)|
  {
    var e := Timeline(v.timeline, run)[i];
    var key := Key(run, e.cmd, e.slug);
    e.exit.None? ==> key in v.open && i <= v.open[key]
  }

  /** The index points at a step of its key, and no open step of a key stands behind the indexed one. */
  ghost predicate Indexed(v: View) {
    (forall key :: PointsRight(v, key)) && forall run, i :: 0 <= i < |Timeline(v.timeline, run)| ==> NotBehind(v, run, i)
  }

  predicate ClosesInPlace(v: View, ev: Event) { IsStep(ev) && IndexOpen(v, KeyOf(ev)) && ev.exit.Some? }

  /** What one event does to the timelines and to the index. */
  lemma FoldEffect(v: View, ev: Event)
    ensures var w := FoldStep(v, ev);
            && (forall run :: run != ev.run || !IsStep(ev) ==> Timeline(w.timeline, run) == Timeline(v.timeline, run))
            && (IsStep(ev) ==>
                  var tl := Timeline(v.timeline, ev.run);
                  if ClosesInPlace(v, ev) then
                    w.timeline == v.timeline[ev.run := Close(tl, v.open[KeyOf(ev)], ev.exit)] && w.open == v.open
                  else w.timeline == v.timeline[ev.run := tl + [ev]]
                       && w.open == (if ev.exit.None? then v.open[KeyOf(ev) := |tl|] else v.open))
            && (!IsStep(ev) ==> w.timeline == v.timeline && w.open == v.open)
  {}

  lemma IndexedStep(v: View, ev: Event)
    requires Indexed(v)
    ensures Indexed(FoldStep(v, ev))
  {
    hide Indexed;
    FoldEffect(v, ev);
    hide FoldStep;
    var w := FoldStep(v, ev);
    assert Indexed(w) by {
      forall key ensures PointsRight(w, key) {
        PointsStep(v, ev, key);
      }
      forall run, i | 0 <= i < |Timeline(w.timeline, run)| ensures NotBehind(w, run, i) {
        NotBehindStep(v, ev, run, i);
      }
      IndexedIs(w);
    }
  }

  lemma IndexedIs(v: View)
    requires forall key :: PointsRight(v, key)
    requires forall run, i :: 0 <= i < |Timeline(v.timeline, run)| ==> NotBehind(v, run, i)
    ensures Indexed(v)
  {}

  lemma PointsStep(v: View, ev: Event, key: Key)
    requires Indexed(v)
    ensures PointsRight(FoldStep(v, ev), key)
  {
    FoldEffect(v, ev);
    hide FoldStep;
    assert PointsRight(v, key);
    hide Indexed;
  }

  lemma NotBehindStep(v: View, ev: Event, run: string, i: nat)
    requires Indexed(v) && i < |Timeline(FoldStep(v, ev).timeline, run)|
    ensures NotBehind(FoldStep(v, ev), run, i)
  {
    FoldEffect(v, ev);
    hide FoldStep;
    assert PointsRight(v, KeyOf(ev));
    if i < |Timeline(v.timeline, run)| { assert NotBehind(v, run, i); }
    hide Indexed;
  }

  lemma {:induction false} FoldedIndexed(events: seq<Event>, n: nat)
    requires n <= |events|
    ensures Indexed(Folded(events, n))
  {
    hide Indexed;
    hide FoldStep;
    if n == 0 {
      assert Indexed(EMPTY) by { EmptyIndexed(); }
    } else {
      FoldedIndexed(events, n - 1);
      IndexedStep(Folded(events, n - 1), events[n - 1]);
    }
  }

  lemma EmptyIndexed()
    ensures Indexed(EMPTY)
  {}

  /** An open indexed step is the newest open one, and without an index entry nothing is open. */
  lemma IndexIsNewest(v: View, ev: Event)
    requires Indexed(v)
    ensures var tl := Timeline(v.timeline, ev.run); var newest := NewestOpen(tl, ev.cmd, ev.slug, |tl|);
            && (IndexOpen(v, KeyOf(ev)) ==> newest == Some(v.open[KeyOf(ev)]))
            && (KeyOf(ev) !in v.open ==> newest == None)
  {
    var tl := Timeline(v.timeline, ev.run);
    var newest := NewestOpen(tl, ev.cmd, ev.slug, |tl|);
    assert PointsRight(v, KeyOf(ev));
    if newest.Some? { assert NotBehind(v, ev.run, newest.value); }
    hide Indexed;
  }

  // ---------------------------------------------------------------- snapshot and stream against batch

  /** A close arrives while the newest step opened under its key is closed but an older one is still open. */
  predicate Stray(v: View, ev: Event) {
    && IsStep(ev) && ev.exit.Some? && !IndexOpen(v, KeyOf(ev))
    && var tl := Timeline(v.timeline, ev.run); NewestOpen(tl, ev.cmd, ev.slug, |tl|).Some?
  }

  /** From equal timelines one event leads to equal timelines, unless it is stray; then the fold has grown
      by one step more. */
  lemma OneEvent(v: View, ev: Event)
    requires Indexed(v)
    ensures var a, b := FoldStep(v, ev).timeline, StreamStep(v.timeline, ev);
            if Stray(v, ev) then |Timeline(a, ev.run)| == |Timeline(b, ev.run)| + 1 else a == b
  {
    IndexIsNewest(v, ev);
    hide Indexed;
  }

  // ---------------------------------------------------------------- counting open steps

  /** Which open steps to count: all of them, or those of one command and slug. */
  datatype Choice = All | Only(cmd: Option<string>, slug: Option<string>)

  predicate Counts(e: Event, c: Choice) { e.exit.None? && (c.Only? ==> e.cmd == c.cmd && e.slug == c.slug) }

  function Weight(e: Event, c: Choice): nat { if Counts(e, c) then 1 else 0 }

  function OpenSteps(tl: seq<Event>, c: Choice): nat {
    if tl == [] then 0 else OpenSteps(tl[..|tl| - 1], c) + Weight(tl[|tl| - 1], c)
  }

  lemma {:induction false} OpenAppend(tl: seq<Event>, e: Event, c: Choice)
    ensures OpenSteps(tl + [e], c) == OpenSteps(tl, c) + Weight(e, c)
  {
    assert (tl + [e])[..|tl|] == tl;
  }

  lemma {:induction false} OpenClose(tl: seq<Event>, i: nat, exit: Option<Code>, c: Choice)
    requires i < |tl| && exit.Some?
    ensures OpenSteps(Close(tl, i, exit), c) + Weight(tl[i], c) == OpenSteps(tl, c)
  {
    var n := |tl| - 1;
    var after := Close(tl, i, exit);
    if i == n {
      assert after[..n] == tl[..n];
    } else {
      assert after[..n] == Close(tl[..n], i, exit);
      OpenClose(tl[..n], i, exit, c);
    }
  }

  lemma {:induction false} NoneOpen(tl: seq<Event>, cmd: Option<string>, slug: Option<string>)
    ensures OpenSteps(tl, Only(cmd, slug)) == 0 <==> NewestOpen(tl, cmd, slug, |tl|).None?
  {
    if tl != [] {
      var n := |tl| - 1;
      NoneOpen(tl[..n], cmd, slug);
      NewestPrefix(tl, cmd, slug, n);
    }
  }

  lemma {:induction false} NewestPrefix(tl: seq<Event>, cmd: Option<string>, slug: Option<string>, n: nat)
    requires n < |tl|
    ensures NewestOpen(tl[..n], cmd, slug, n) == NewestOpen(tl, cmd, slug, n)
  {}

  // ---------------------------------------------------------------- the exact relation

  /** How many events of a run's log close something, and how many are steps at all. */
  function Closings(events: seq<Event>, run: string, n: nat): nat
    requires n <= |events|
  {
    if n == 0 then 0 else
    Closings(events, run, n - 1) + if IsStep(events[n - 1]) && events[n - 1].run == run && events[n - 1].exit.Some? then 1 else 0
  }

  /** Closed entries and closing events correspond one to one, in both constructions. */
  lemma FoldBalance(v: View, ev: Event, run: string)
    requires Indexed(v)
    ensures var a, b := Timeline(v.timeline, run), Timeline(FoldStep(v, ev).timeline, run);
            |b| - OpenSteps(b, All) == |a| - OpenSteps(a, All) + if IsStep(ev) && ev.run == run && ev.exit.Some? then 1 else 0
  {
    FoldEffect(v, ev);
    hide FoldStep;
    assert PointsRight(v, KeyOf(ev));
    hide Indexed;
    var tl := Timeline(v.timeline, ev.run);
    OpenAppend(tl, ev, All);
    if ClosesInPlace(v, ev) { OpenClose(tl, v.open[KeyOf(ev)], ev.exit, All); }
    hide OpenSteps;
  }

  /** What one event does to the streamed timelines. */
  lemma StreamEffect(t: Timelines, ev: Event)
    ensures var u := StreamStep(t, ev);
            && (forall run :: run != ev.run || !IsStep(ev) ==> Timeline(u, run) == Timeline(t, run))
            && (IsStep(ev) ==>
                  var tl := Timeline(t, ev.run);
                  var hit := NewestOpen(tl, ev.cmd, ev.slug, |tl|);
                  Timeline(u, ev.run) ==
                  if ev.exit.Some? && hit.Some? then Close(tl, hit.value, ev.exit) else tl + [ev])
  {
    hide NewestOpen;
  }

  lemma StreamBalance(t: Timelines, ev: Event, run: string)
    ensures var a, b := Timeline(t, run), Timeline(StreamStep(t, ev), run);
            |b| - OpenSteps(b, All) == |a| - OpenSteps(a, All) + if IsStep(ev) && ev.run == run && ev.exit.Some? then 1 else 0
  {
    StreamEffect(t, ev);
    hide StreamStep;
    var tl := Timeline(t, ev.run);
    OpenAppend(tl, ev, All);
    var hit := NewestOpen(tl, ev.cmd, ev.slug, |tl|);
    if ev.exit.Some? && hit.Some? { OpenClose(tl, hit.value, ev.exit, All); }
    hide OpenSteps;
    hide NewestOpen;
    hide Timeline;
  }

  /** The fold is never behind: it has at least as many open steps under every key, and whatever it would
      close in place the stream would close in place too. */
  predicate AheadAt(v: View, t: Timelines, run: string, cmd: Option<string>, slug: Option<string>) {
    var a, b := Timeline(v.timeline, run), Timeline(t, run);
    && OpenSteps(a, Only(cmd, slug)) >= OpenSteps(b, Only(cmd, slug))
    && (IndexOpen(v, Key(run, cmd, slug)) ==> OpenSteps(b, Only(cmd, slug)) > 0)
  }

  ghost predicate Ahead(v: View, t: Timelines) { forall run, cmd, slug :: AheadAt(v, t, run, cmd, slug) }

  lemma AheadStart(v: View)
    requires Indexed(v)
    ensures Ahead(v, v.timeline)
  {
    forall run, cmd, slug ensures AheadAt(v, v.timeline, run, cmd, slug) {
      AheadSame(v, run, cmd, slug);
    }
  }

  lemma AheadSame(v: View, run: string, cmd: Option<string>, slug: Option<string>)
    requires Indexed(v)
    ensures AheadAt(v, v.timeline, run, cmd, slug)
  {
    hide Indexed;
    var ev := Event("opsstepevent", run, cmd, slug, None, "", "", "", None);
    IndexIsNewest(v, ev);
    NoneOpen(Timeline(v.timeline, run), cmd, slug);
  }

  lemma AheadStep(v: View, t: Timelines, ev: Event)
    requires Indexed(v) && Ahead(v, t)
    ensures Ahead(FoldStep(v, ev), StreamStep(t, ev))
  {
    forall run, cmd, slug ensures AheadAt(FoldStep(v, ev), StreamStep(t, ev), run, cmd, slug) {
      AheadStepAt(v, t, ev, run, cmd, slug);
    }
  }

  /** What one event does to the number of open steps of a run. */
  lemma FoldOpen(v: View, ev: Event, run: string, c: Choice)
    requires PointsRight(v, KeyOf(ev))
    ensures var before, after := Timeline(v.timeline, run), Timeline(FoldStep(v, ev).timeline, run);
            if !IsStep(ev) || run != ev.run then OpenSteps(after, c) == OpenSteps(before, c)
            else if ClosesInPlace(v, ev) then OpenSteps(after, c) + Weight(before[v.open[KeyOf(ev)]], c) == OpenSteps(before, c)
            else OpenSteps(after, c) == OpenSteps(before, c) + Weight(ev, c)
  {
    FoldEffect(v, ev);
    hide FoldStep;
    hide Weight;
    hide OpenSteps;
    var a := Timeline(v.timeline, ev.run);
    OpenAppend(a, ev, c);
    if ClosesInPlace(v, ev) { OpenClose(a, v.open[KeyOf(ev)], ev.exit, c); }
  }

  /** And to which keys have an open indexed step. */
  lemma FoldIndex(v: View, ev: Event, key: Key)
    requires PointsRight(v, KeyOf(ev)) && PointsRight(v, key)
    ensures IndexOpen(FoldStep(v, ev), key) == if IsStep(ev) && KeyOf(ev) == key then ev.exit.None? else IndexOpen(v, key)
  {
    FoldEffect(v, ev);
    hide FoldStep;
  }

  /** How one event changes the number of open steps of a key, in the fold. */
  lemma FoldCounts(v: View, ev: Event, run: string, cmd: Option<string>, slug: Option<string>)
    requires Indexed(v)
    ensures var w := FoldStep(v, ev); var c := Only(cmd, slug);
            var same := IsStep(ev) && KeyOf(ev) == Key(run, cmd, slug);
            var before, after := OpenSteps(Timeline(v.timeline, run), c), OpenSteps(Timeline(w.timeline, run), c);
            && after == (if !same then before else if ev.exit.None? then before + 1
                         else if IndexOpen(v, KeyOf(ev)) then before - 1 else before)
            && IndexOpen(w, Key(run, cmd, slug)) == (if same then ev.exit.None? else IndexOpen(v, Key(run, cmd, slug)))
  {
    assert PointsRight(v, KeyOf(ev)) && PointsRight(v, Key(run, cmd, slug));
    hide Indexed;
    hide FoldStep;
    hide OpenSteps;
    FoldOpen(v, ev, run, Only(cmd, slug));
    FoldIndex(v, ev, Key(run, cmd, slug));
    hide OpenSteps;
  }

  /** The same in the stream. */
  lemma StreamCounts(t: Timelines, ev: Event, run: string, cmd: Option<string>, slug: Option<string>)
    ensures var c := Only(cmd, slug);
            var before, after := OpenSteps(Timeline(t, run), c), OpenSteps(Timeline(StreamStep(t, ev), run), c);
            after == (if !IsStep(ev) || KeyOf(ev) != Key(run, cmd, slug) then before
                      else if ev.exit.None? then before + 1 else if before > 0 then before - 1 else 0)
  {
    StreamEffect(t, ev);
    hide StreamStep;
    var b := Timeline(t, ev.run);
    OpenAppend(b, ev, Only(cmd, slug));
    NoneOpen(b, ev.cmd, ev.slug);
    var hit := NewestOpen(b, ev.cmd, ev.slug, |b|);
    if ev.exit.Some? && hit.Some? { OpenClose(b, hit.value, ev.exit, Only(cmd, slug)); }
    hide OpenSteps;
    hide NewestOpen;
  }

  lemma AheadStepAt(v: View, t: Timelines, ev: Event, run: string, cmd: Option<string>, slug: Option<string>)
    requires Indexed(v) && Ahead(v, t)
    ensures AheadAt(FoldStep(v, ev), StreamStep(t, ev), run, cmd, slug)
  {
    assert AheadAt(v, t, run, cmd, slug);
    hide Ahead;
    hide FoldStep;
    hide StreamStep;
    hide OpenSteps;
    hide Indexed;
    hide IndexOpen;
    FoldCounts(v, ev, run, cmd, slug);
    StreamCounts(t, ev, run, cmd, slug);
  }

  /** The fold's timelines grow at least as fast as the stream's. */
  lemma LagStep(v: View, t: Timelines, ev: Event, run: string)
    requires Indexed(v) && Ahead(v, t)
    ensures |Timeline(FoldStep(v, ev).timeline, run)| - |Timeline(v.timeline, run)|
         >= |Timeline(StreamStep(t, ev), run)| - |Timeline(t, run)|
  {
    FoldEffect(v, ev);
    hide FoldStep;
    assert AheadAt(v, t, ev.run, ev.cmd, ev.slug);
    NoneOpen(Timeline(t, ev.run), ev.cmd, ev.slug);
    hide Ahead;
    hide Indexed;
    hide OpenSteps;
    hide NewestOpen;
  }

  lemma {:induction false} FoldedPrefix(a: seq<Event>, b: seq<Event>, n: nat)
    requires n <= |a|
    ensures Folded(a + b, n) == Folded(a, n)
  {
    hide FoldStep;
    if n > 0 { FoldedPrefix(a, b, n - 1); }
  }

  /** The state of the batch fold when the k-th streamed event arrives. */
  function At(before: seq<Event>, after: seq<Event>, k: nat): View
    requires k <= |after|
  {
    Folded(before + after, |before| + k)
  }

  ghost predicate Clean(before: seq<Event>, after: seq<Event>, n: nat)
    requires n <= |after|
  {
    forall k :: 0 <= k < n ==> !Stray(At(before, after, k), after[k])
  }

  function Loaded(before: seq<Event>): Timelines { Folded(before, |before|).timeline }

  /** After n streamed events: the relation between fold and stream, exactly. */
  lemma {:induction false} StreamLaw(before: seq<Event>, after: seq<Event>, n: nat)
    requires n <= |after|
    ensures var v, t := At(before, after, n), Streamed(Loaded(before), after, n);
            && Indexed(v) && Ahead(v, t)
            && (forall run :: |Timeline(v.timeline, run)| >= |Timeline(t, run)|)
            && (if Clean(before, after, n) then v.timeline == t
                else exists run :: |Timeline(v.timeline, run)| > |Timeline(t, run)|)
  {
    hide Indexed;
    hide Ahead;
    hide FoldStep;
    hide StreamStep;
    hide Stray;
    hide Timeline;
    FoldedIndexed(before + after, |before| + n);
    if n == 0 {
      FoldedPrefix(before, after, |before|);
      AheadStart(At(before, after, 0));
    } else {
      StreamLaw(before, after, n - 1);
      var v, t, ev := At(before, after, n - 1), Streamed(Loaded(before), after, n - 1), after[n - 1];
      FoldedIndexed(before + after, |before| + n - 1);
      assert (before + after)[|before| + n - 1] == ev;
      AheadStep(v, t, ev);
      forall run
        ensures |Timeline(FoldStep(v, ev).timeline, run)| - |Timeline(v.timeline, run)|
             >= |Timeline(StreamStep(t, ev), run)| - |Timeline(t, run)|
      {
        LagStep(v, t, ev, run);
      }
      OneEvent(v, ev);
      hide Folded;
      hide Streamed;
    }
  }

  /** A snapshot of the log's beginning followed by the stream of the rest gives the timelines of the
      whole log if and only if no streamed close is stray. */
  lemma {:induction false} SnapshotPlusStream(before: seq<Event>, after: seq<Event>)
    ensures Streamed(Loaded(before), after, |after|) == Loaded(before + after) <==> Clean(before, after, |after|)
  {
    hide Timeline;
    hide Folded;
    hide Streamed;
    hide Clean;
    StreamLaw(before, after, |after|);
  }

  lemma {:induction false} Balances(before: seq<Event>, after: seq<Event>, n: nat, run: string)
    requires n <= |after|
    ensures var a, b := Timeline(At(before, after, n).timeline, run), Timeline(Streamed(Loaded(before), after, n), run);
            |a| - OpenSteps(a, All) == |b| - OpenSteps(b, All)
  {
    hide FoldStep;
    hide StreamStep;
    hide OpenSteps;
    hide Timeline;
    hide Indexed;
    if n == 0 {
      FoldedPrefix(before, after, |before|);
    } else {
      Balances(before, after, n - 1, run);
      FoldedIndexed(before + after, |before| + n - 1);
      assert (before + after)[|before| + n - 1] == after[n - 1];
      FoldBalance(At(before, after, n - 1), after[n - 1], run);
      StreamBalance(Streamed(Loaded(before), after, n - 1), after[n - 1], run);
    }
  }

  /** On every log: per run and key the fold has at least as many open steps as the stream, and the
      timelines differ in length exactly by the difference in open steps. */
  lemma {:induction false} StreamRelation(before: seq<Event>, after: seq<Event>, run: string, cmd: Option<string>, slug: Option<string>)
    ensures var a, b := Timeline(Loaded(before + after), run), Timeline(Streamed(Loaded(before), after, |after|), run);
            && OpenSteps(a, Only(cmd, slug)) >= OpenSteps(b, Only(cmd, slug))
            && |a| - |b| == OpenSteps(a, All) - OpenSteps(b, All) >= 0
  {
    hide Folded;
    hide Streamed;
    hide OpenSteps;
    hide Timeline;
    StreamLaw(before, after, |after|);
    Balances(before, after, |after|, run);
    assert AheadAt(At(before, after, |after|), Streamed(Loaded(before), after, |after|), run, cmd, slug);
  }

  // ---------------------------------------------------------------- conservation

  function Steps(events: seq<Event>, run: string, n: nat): nat
    requires n <= |events|
  {
    if n == 0 then 0 else Steps(events, run, n - 1) + if IsStep(events[n - 1]) && events[n - 1].run == run then 1 else 0
  }

  /** How often the fold closed a step of the run in place. */
  function InPlace(events: seq<Event>, run: string, n: nat): nat
    requires n <= |events|
  {
    if n == 0 then 0 else
    InPlace(events, run, n - 1) + if events[n - 1].run == run && ClosesInPlace(Folded(events, n - 1), events[n - 1]) then 1 else 0
  }

  /** Every step event is an entry or closed one: entries and in-place closes add up to the step events,
      and the entries that are closed are as many as the closing events. */
  lemma {:induction false} Conservation(events: seq<Event>, run: string, n: nat)
    requires n <= |events|
    ensures var tl := Timeline(Folded(events, n).timeline, run);
            |tl| + InPlace(events, run, n) == Steps(events, run, n)
            && |tl| - OpenSteps(tl, All) == Closings(events, run, n)
  {
    hide OpenSteps;
    hide Indexed;
    if n == 0 {
      assert OpenSteps([], All) == 0 by { OpenNone(); }
    } else {
      Conservation(events, run, n - 1);
      FoldedIndexed(events, n - 1);
      FoldBalance(Folded(events, n - 1), events[n - 1], run);
      FoldEffect(Folded(events, n - 1), events[n - 1]);
      hide FoldStep;
      hide IndexOpen;
    }
  }

  lemma OpenNone()
    ensures OpenSteps([], All) == 0
  {}

  // ---------------------------------------------------------------- runs do not mix

  function OnlyRun(events: seq<Event>, run: string): seq<Event> {
    if events == [] then [] else
    OnlyRun(events[..|events| - 1], run) + if events[|events| - 1].run == run then [events[|events| - 1]] else []
  }

  ghost predicate SameRun(v: View, w: View, run: string) {
    && Timeline(v.timeline, run) == Timeline(w.timeline, run)
    && forall key: Key :: key.run == run ==> (key in v.open <==> key in w.open) && (key in v.open ==> v.open[key] == w.open[key])
  }

  lemma SameRunStep(v: View, w: View, ev: Event, run: string)
    requires SameRun(v, w, run)
    ensures if ev.run == run then SameRun(FoldStep(v, ev), FoldStep(w, ev), run) else SameRun(FoldStep(v, ev), w, run)
  {
    FoldEffect(v, ev);
    FoldEffect(w, ev);
    hide FoldStep;
  }

  /** A run's timeline depends only on that run's part of the log. */
  lemma {:induction false} RunsApart(events: seq<Event>, run: string)
    ensures SameRun(Folded(events, |events|), Folded(OnlyRun(events, run), |OnlyRun(events, run)|), run)
    ensures Timeline(Loaded(events), run) == Timeline(Loaded(OnlyRun(events, run)), run)
  {
    hide FoldStep;
    hide SameRun;
    if events == [] {
      SameRunItself(EMPTY, run);
    } else {
      var n := |events| - 1;
      var rest, ev := events[..n], events[n];
      RunsApart(rest, run);
      var own := OnlyRun(rest, run);
      SameRunStep(Folded(rest, n), Folded(own, |own|), ev, run);
      FoldedSnoc(rest, ev);
      FoldedSnoc(own, ev);
      assert rest + [ev] == events;
      assert own + [] == own;
    }
    SameTimeline(Folded(events, |events|), Folded(OnlyRun(events, run), |OnlyRun(events, run)|), run);
  }

  lemma {:induction false} FoldedSnoc(a: seq<Event>, ev: Event)
    ensures Folded(a + [ev], |a| + 1) == FoldStep(Folded(a, |a|), ev)
  {
    hide FoldStep;
    FoldedPrefix(a, [ev], |a|);
    assert (a + [ev])[|a|] == ev;
  }

  lemma SameRunItself(v: View, run: string)
    ensures SameRun(v, v, run)
  {}

  lemma SameTimeline(v: View, w: View, run: string)
    requires SameRun(v, w, run)
    ensures Timeline(v.timeline, run) == Timeline(w.timeline, run)
  {}

  // ---------------------------------------------------------------- logs that never reopen an open step

  predicate Opens(ev: Event, key: Key) { IsStep(ev) && ev.exit.None? && KeyOf(ev) == key }
  predicate Closes(ev: Event, key: Key) { IsStep(ev) && ev.exit.Some? && KeyOf(ev) == key }

  predicate ClosedBetween(events: seq<Event>, i: nat, j: nat, key: Key)
    requires i < j <= |events|
  {
    exists k :: i < k < j && Closes(events[k], key)
  }

  /** No run, command and slug is opened again while it is open. */
  ghost predicate NeverReopened(events: seq<Event>, n: nat)
    requires n <= |events|
  {
    forall i, j, key :: 0 <= i < j < n && Opens(events[i], key) && Opens(events[j], key) ==> ClosedBetween(events, i, j, key)
  }

  /** When a key's indexed step is open, it was opened by an event not followed by a close. */
  lemma {:induction false} OpenedBy(events: seq<Event>, n: nat, key: Key) returns (i: nat)
    requires n <= |events| && IndexOpen(Folded(events, n), key)
    ensures i < n && Opens(events[i], key) && forall k :: i < k < n ==> !Closes(events[k], key)
  {
    FoldedIndexed(events, n - 1);
    FoldCounts(Folded(events, n - 1), events[n - 1], key.run, key.cmd, key.slug);
    hide FoldStep;
    hide Indexed;
    hide IndexOpen;
    hide OpenSteps;
    if Opens(events[n - 1], key) { i := n - 1; } else { i := OpenedBy(events, n - 1, key); }
  }

  /** At most the indexed step of a key is open. */
  ghost predicate AtMostOne(v: View) {
    forall run, cmd, slug :: AtMostOneAt(v, run, cmd, slug)
  }

  predicate AtMostOneAt(v: View, run: string, cmd: Option<string>, slug: Option<string>) {
    OpenSteps(Timeline(v.timeline, run), Only(cmd, slug)) == if IndexOpen(v, Key(run, cmd, slug)) then 1 else 0
  }

  lemma {:induction false} OneOpen(events: seq<Event>, n: nat)
    requires n <= |events| && NeverReopened(events, n)
    ensures AtMostOne(Folded(events, n))
  {
    hide FoldStep;
    hide Indexed;
    hide IndexOpen;
    hide OpenSteps;
    forall run, cmd, slug ensures AtMostOneAt(Folded(events, n), run, cmd, slug) {
      var key := Key(run, cmd, slug);
      if n == 0 {
        NothingOpen(run, cmd, slug);
      } else {
        OneOpen(events, n - 1);
        assert AtMostOneAt(Folded(events, n - 1), run, cmd, slug);
        FoldedIndexed(events, n - 1);
        FoldCounts(Folded(events, n - 1), events[n - 1], run, cmd, slug);
        if Opens(events[n - 1], key) { NotReopened(events, n, key); }
      }
    }
  }

  lemma {:induction false} NotReopened(events: seq<Event>, n: nat, key: Key)
    requires 0 < n <= |events| && NeverReopened(events, n) && Opens(events[n - 1], key)
    ensures !IndexOpen(Folded(events, n - 1), key)
  {
    hide Folded;
    hide IndexOpen;
    if IndexOpen(Folded(events, n - 1), key) {
      var i := OpenedBy(events, n - 1, key);
    }
  }

  lemma NothingOpen(run: string, cmd: Option<string>, slug: Option<string>)
    ensures AtMostOneAt(EMPTY, run, cmd, slug)
  {}

  /** Where no key is reopened while open, snapshot plus stream is batch, wherever the log is cut. */
  lemma {:induction false} SnapshotPlusStreamIsBatch(before: seq<Event>, after: seq<Event>)
    requires NeverReopened(before + after, |before + after|)
    ensures Streamed(Loaded(before), after, |after|) == Loaded(before + after)
  {
    hide Folded;
    hide Streamed;
    hide IndexOpen;
    hide OpenSteps;
    var all := before + after;
    forall k | 0 <= k < |after| ensures !Stray(At(before, after, k), after[k]) {
      var v, ev := At(before, after, k), after[k];
      OneOpen(all, |before| + k);
      assert AtMostOneAt(v, ev.run, ev.cmd, ev.slug);
      NoneOpen(Timeline(v.timeline, ev.run), ev.cmd, ev.slug);
    }
    SnapshotPlusStream(before, after);
  }

  function Shown(tl: seq<Event>, key: Key, i: nat): View { View(map[], map[key.run := tl], map[key := i]) }

  lemma OpenedTwice(o: Event)
    requires IsStep(o) && o.exit.None?
    ensures FoldStep(EMPTY, o) == Shown([o], KeyOf(o), 0) && FoldStep(Shown([o], KeyOf(o), 0), o) == Shown([o, o], KeyOf(o), 1)
    ensures StreamStep(map[], o) == map[o.run := [o]] && StreamStep(map[o.run := [o]], o) == map[o.run := [o, o]]
  {
    assert [o] + [o] == [o, o] && [] + [o] == [o];
  }

  lemma ClosedTwice(o: Event, c: Event)
    requires IsStep(o) && o.exit.None? && c.exit.Some? && c == o.(exit := c.exit)
    ensures FoldStep(Shown([o, o], KeyOf(o), 1), c) == Shown([o, c], KeyOf(o), 1)
    ensures FoldStep(Shown([o, c], KeyOf(o), 1), c).timeline == map[o.run := [o, c, c]]
  {
    assert Close([o, o], 1, c.exit) == [o, c] && [o, c] + [c] == [o, c, c];
  }

  lemma StreamedTwice(o: Event, c: Event)
    requires IsStep(o) && o.exit.None? && c.exit.Some? && c == o.(exit := c.exit)
    ensures StreamStep(map[o.run := [o, o]], c) == map[o.run := [o, c]]
    ensures StreamStep(map[o.run := [o, c]], c) == map[o.run := [c, c]]
  {
    assert Close([o, o], 1, c.exit) == [o, c] && Close([o, c], 0, c.exit) == [c, c];
    assert NewestOpen([o, o], o.cmd, o.slug, 2) == Some(1);
    assert NewestOpen([o, c], o.cmd, o.slug, 2) == NewestOpen([o, c], o.cmd, o.slug, 1) == Some(0);
    hide NewestOpen;
  }

  /** Any step that is opened twice and then closed twice is shown differently: the fold closes the second and
      adds the second close as an entry of its own, the stream closes both. */
  lemma ReopenedDiffers(o: Event, c: Event)
    requires IsStep(o) && o.exit.None? && c.exit.Some? && c == o.(exit := c.exit)
    ensures var events := [o, o, c, c];
            Loaded(events) == map[o.run := [o, c, c]] && Streamed(Loaded([]), events, 4) == map[o.run := [c, c]]
  {
    OpenedTwice(o);
    ClosedTwice(o, c);
    StreamedTwice(o, c);
    FourEvents(o, o, c, c);
    hide FoldStep;
    hide StreamStep;
  }

  lemma FourEvents(a: Event, b: Event, c: Event, d: Event)
    ensures var events := [a, b, c, d];
            && Folded(events, 4) == FoldStep(FoldStep(FoldStep(FoldStep(EMPTY, a), b), c), d)
            && Streamed(map[], events, 4) == StreamStep(StreamStep(StreamStep(StreamStep(map[], a), b), c), d)
  {
    hide FoldStep;
    hide StreamStep;
    var events := [a, b, c, d];
    assert Folded(events, 1) == FoldStep(Folded(events, 0), a);
    assert Folded(events, 2) == FoldStep(Folded(events, 1), b);
    assert Folded(events, 3) == FoldStep(Folded(events, 2), c);
    assert Streamed(map[], events, 1) == StreamStep(Streamed(map[], events, 0), a);
    assert Streamed(map[], events, 2) == StreamStep(Streamed(map[], events, 1), b);
    assert Streamed(map[], events, 3) == StreamStep(Streamed(map[], events, 2), c);
  }
}
