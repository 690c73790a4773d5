/** The timelines as the programs hold them: lists of mutable steps, shared with the index of open steps
    and closed in place. */
module EventViews {
  import opened Wrappers
  import opened EventLog

  /** A timeline entry; closing it sets the exit code of the entry itself. */
  class Step {
    var event: Event

    constructor (ev: Event)
      ensures event == ev
    {
      event := ev;
    }
  }

  type Lists = map<string, seq<Step>>

  function List(t: Lists, run: string): seq<Step> { if run in t then t[run] else [] }

  /** No step stands at two places. */
  ghost predicate Apart(t: Lists) {
    forall a, i, b, j :: a in t && b in t && 0 <= i < |t[a]| && 0 <= j < |t[b]| && t[a][i] == t[b][j] ==> a == b && i == j
  }

  lemma ApartGrown(t: Lists, repr: set<Step>, run: string, step: Step)
    requires Apart(t) && step !in repr && forall a, i :: a in t && 0 <= i < |t[a]| ==> t[a][i] in repr
    ensures Apart(t[run := List(t, run) + [step]])
  {}

  /** The ops_timeline dictionary. Ghost fields: the events it shows, and the steps it is made of. */
  class Board {
    var timeline: Lists
    ghost var view: Timelines
    ghost var Repr: set<Step>

    ghost predicate Valid()
      reads this, Repr
    {
      && timeline.Keys == view.Keys && Apart(timeline)
      && (forall run :: run in timeline ==> |timeline[run]| == |view[run]|)
      && (forall run, i :: run in timeline && 0 <= i < |timeline[run]| ==>
            timeline[run][i] in Repr && timeline[run][i].event == view[run][i])
    }

    constructor ()
      ensures Valid() && view == map[] && Repr == {}
    {
      timeline := map[];
      view := map[];
      Repr := {};
    }

    method Append(ev: Event) returns (step: Step)
      requires Valid()
      modifies this
      ensures Valid() && fresh(step) && Repr == old(Repr) + {step}
      ensures timeline == old(timeline)[ev.run := List(old(timeline), ev.run) + [step]]
      ensures view == old(view)[ev.run := Timeline(old(view), ev.run) + [ev]]
    {
      step := new Step(ev);
      ApartGrown(timeline, Repr, ev.run, step);
      timeline := timeline[ev.run := List(timeline, ev.run) + [step]];
      view := view[ev.run := Timeline(view, ev.run) + [ev]];
      Repr := Repr + {step};
    }

    /** The timeline is as long as what it shows. */
    lemma Place(run: string)
      requires Valid()
      ensures |List(timeline, run)| == |Timeline(view, run)|
      ensures forall i :: 0 <= i < |List(timeline, run)| ==> timeline[run][i] in Repr
    {}

    /** The step gets its exit code, in place. */
    method CloseStep(step: Step, ghost run: string, ghost i: nat, exit: Option<Code>)
      requires Valid() && run in timeline && i < |timeline[run]| && timeline[run][i] == step
      modifies step, this`view
      ensures Valid() && view == old(view)[run := Close(old(view)[run], i, exit)]
    {
      step.event := step.event.(exit := exit);
      view := view[run := Close(view[run], i, exit)];
    }

    /** The reversed scan over the run's steps. */
    method FindOpen(ev: Event) returns (hit: Option<nat>)
      requires Valid()
      ensures hit == NewestOpen(Timeline(view, ev.run), ev.cmd, ev.slug, |Timeline(view, ev.run)|)
    {
      var tl := List(timeline, ev.run);
      ghost var values := Timeline(view, ev.run);
      var i := |tl|;
      while i > 0
        invariant 0 <= i <= |tl|
        invariant NewestOpen(values, ev.cmd, ev.slug, |tl|) == NewestOpen(values, ev.cmd, ev.slug, i)
      {
        i := i - 1;
        var step := tl[i];
        if step.event.cmd == ev.cmd && step.event.slug == ev.slug && step.event.exit.None? {
          return Some(i);
        }
      }
      return None;
    }
  }

  /** The monitor's store (monitor/store.py). */
  class MonitorStore {
    var board: Board
    var lastEmitted: Option<string>

    constructor ()
      ensures fresh(board) && board.Valid() && board.view == map[] && board.Repr == {} && lastEmitted == None
    {
      board := new Board();
      lastEmitted := None;
    }

    /** apply_sessionssnapshot: everything is replaced. */
    method ApplySessionsSnapshot(snapshot: Board, emitted: string)
      requires snapshot.Valid()
      modifies this
      ensures board == snapshot && board.Valid() && board.view == old(snapshot.view) && lastEmitted == Some(emitted)
    {
      board := snapshot;
      lastEmitted := Some(emitted);
    }

    /** apply_opsstepevent */
    method ApplyOpsStepEvent(ev: Event)
      requires board.Valid() && ev.etype == "opsstepevent"
      modifies board, board.Repr
      ensures board.Valid() && board.view == StreamStep(old(board.view), ev)
      ensures fresh(board.Repr - old(board.Repr))
    {
      if ev.run == "" {
        return;
      }
      if ev.exit.Some? {
        var hit := board.FindOpen(ev);
        if hit.Some? {
          board.CloseStep(board.timeline[ev.run][hit.value], ev.run, hit.value, ev.exit);
          return;
        }
      }
      var _ := board.Append(ev);
    }
  }

  /** The client-side handler's store (bridge/client_handlers.py), which also counts notifications. */
  class ClientStore {
    var board: Board
    var notifications: nat

    constructor ()
      ensures fresh(board) && board.Valid() && board.view == map[] && board.Repr == {} && notifications == 0
    {
      board := new Board();
      notifications := 0;
    }

    method OnOpsStepEvent(ev: Event)
      requires board.Valid() && ev.etype == "opsstepevent"
      modifies this`notifications, board, board.Repr
      ensures board.Valid() && board.view == StreamStep(old(board.view), ev)
      ensures notifications == old(notifications) + if ev.run == "" then 0 else 1
      ensures fresh(board.Repr - old(board.Repr))
    {
      hide Board.Valid;
      hide NewestOpen;
      if ev.run == "" {
        return;
      }
      if ev.exit.Some? {
        var hit := board.FindOpen(ev);
        if hit.Some? {
          board.Place(ev.run);
          board.CloseStep(board.timeline[ev.run][hit.value], ev.run, hit.value, ev.exit);
          notifications := notifications + 1;
          return;
        }
      }
      var _ := board.Append(ev);
      notifications := notifications + 1;
    }
  }

  /** Every index entry is the very step the view's index points at. */
  ghost predicate Shares(t: Lists, index: map<Key, Step>, open: map<Key, nat>) {
    && index.Keys == open.Keys
    && forall key :: key in index ==> open[key] < |List(t, key.run)| && List(t, key.run)[open[key]] == index[key]
  }

  lemma SharesGrown(t: Lists, index: map<Key, Step>, open: map<Key, nat>, key: Key, step: Step)
    requires Shares(t, index, open)
    ensures var after := t[key.run := List(t, key.run) + [step]];
            Shares(after, index, open) && Shares(after, index[key := step], open[key := |List(t, key.run)|])
  {}

  lemma IndexShows(board: Board, index: map<Key, Step>, v: View, key: Key)
    requires board.Valid() && board.view == v.timeline && Shares(board.timeline, index, v.open)
    ensures |List(board.timeline, key.run)| == |Timeline(v.timeline, key.run)|
    ensures key in index ==> (index[key].event.exit.None? <==> IndexOpen(v, key)) && key.run in board.timeline
                             && index[key] in board.Repr
    ensures IndexOpen(v, key) ==> key in index
  {}

  /** What the fold does with a step event. */
  method FoldOne(board: Board, index: map<Key, Step>, ev: Event, ghost v: View) returns (after: map<Key, Step>)
    requires IsStep(ev) && board.Valid() && board.view == v.timeline && Shares(board.timeline, index, v.open)
    modifies board, board.Repr
    ensures board.Valid() && fresh(board.Repr - old(board.Repr)) && board.view == FoldStep(v, ev).timeline
    ensures Shares(board.timeline, after, FoldStep(v, ev).open)
  {
    hide Board.Valid;
    hide IndexOpen;
    hide Shares;
    FoldEffect(v, ev);
    hide FoldStep;
    var key := KeyOf(ev);
    IndexShows(board, index, v, key);
    if key in index && ev.exit.Some? && index[key].event.exit.None? {
      InIndex(board.timeline, index, v.open, key);
      board.CloseStep(index[key], ev.run, v.open[key], ev.exit);
      return index;
    }
    ghost var before := board.timeline;
    var step := board.Append(ev);
    SharesGrown(before, index, v.open, key, step);
    after := if ev.exit.None? then index[key := step] else index;
  }

  lemma InIndex(t: Lists, index: map<Key, Step>, open: map<Key, nat>, key: Key)
    requires Shares(t, index, open) && key in index
    ensures key in open && open[key] < |List(t, key.run)| && List(t, key.run)[open[key]] == index[key]
  {}

  lemma NoTime(times: Times, ev: Event)
    ensures !IsStep(ev) ==> TimesStep(times, ev) == times
  {}

  method NoteTime(times: Times, ev: Event) returns (after: Times)
    requires IsStep(ev)
    ensures after == TimesStep(times, ev)
  {
    after := times;
    if ev.ts != "" {
      var seen := if ev.run in times then times[ev.run] else [];
      if ev.ts !in seen {
        after := times[ev.run := seen + [ev.ts]];
      }
    }
  }

  /** fold_eventlog_views, its sessions, timelines and step times: open steps are found through an index of the
      step objects themselves. */
  method FoldEventlogViews(events: seq<Event>)
    returns (sessions: map<string, seq<Option<string>>>, board: Board, times: Times)
    ensures fresh(board) && board.Valid() && fresh(board.Repr)
    ensures sessions == Folded(events, |events|).sessions && board.view == Folded(events, |events|).timeline
    ensures times == StepTimes(events, |events|)
  {
    hide Board.Valid;
    hide IndexOpen;
    hide TimesStep;
    sessions := map[];
    times := map[];
    board := new Board();
    var index: map<Key, Step> := map[];
    for n := 0 to |events|
      invariant fresh(board) && board.Valid() && fresh(board.Repr)
      invariant sessions == Folded(events, n).sessions && board.view == Folded(events, n).timeline
      invariant Shares(board.timeline, index, Folded(events, n).open)
      invariant times == StepTimes(events, n)
    {
      var ev := events[n];
      NoTime(times, ev);
      if ev.run == "" {
        continue;
      }
      if ev.etype == "sessionsevent" {
        sessions := sessions[ev.run := (if ev.run in sessions then sessions[ev.run] else []) + [ev.kind]];
        continue;
      }
      if ev.etype != "opsstepevent" {
        continue;
      }
      times := NoteTime(times, ev);
      index := FoldOne(board, index, ev, Folded(events, n));
    }
  }
}
