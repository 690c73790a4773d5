/** How a run ended: three separate folds over the event log compute it, without workspace files
    (bridge/runtime.py and bridge/state.py). */
module Outcomes {
  import opened Wrappers
  import opened EventLog

  datatype Outcome = Clean | Crash | Running | CompletedNoT9

  predicate Success(exit: Code) { exit == Null || exit == Num(0) }

  predicate EngineRun(run: string) { "RUN-" <= run }

  /** _classify_run_outcome, with staleness of a timestamp at the present instant as a parameter. */
  function Classify(lastTs: string, sawT9: bool, exit: Code, stale: string -> bool): Outcome {
    if sawT9 then (if Success(exit) then Clean else Crash)
    else if stale(lastTs) then CompletedNoT9 else Running
  }

  function Exit(ev: Event, missing: Code): Code { if ev.exit.Some? then ev.exit.value else missing }

  // ---------------------------------------------------------------- state replay

  datatype Row = Row(outcome: Outcome, ts: string, hasT0: bool, sawT9: bool)

  datatype Replay = Replay(rows: map<string, Row>, current: Option<string>, last: map<string, string>)

  function LastOf(last: map<string, string>, run: string, missing: string): string {
    if run in last then last[run] else missing
  }

  function ReplayStep(r: Replay, ev: Event): Replay {
    if !IsStep(ev) then r else
    var run := ev.run;
    var starts := ev.tier == "T0" && EngineRun(run);
    var row := if run in r.rows then r.rows[run] else Row(Running, ev.ts, false, false);
    var row1 := if starts then row.(hasT0 := true, ts := ev.ts) else row;
    var row2 := if ev.tier == "T9"
                then row1.(sawT9 := true, outcome := if Success(Exit(ev, Num(0))) then Clean else Crash) else row1;
    var current := if starts then Some(run) else r.current;
    Replay(r.rows[run := row2],
           if ev.tier == "T9" && current == Some(run) then None else current,
           r.last[run := if ev.ts != "" then ev.ts else LastOf(r.last, run, "")])
  }

  function Replayed(events: seq<Event>, n: nat): Replay
    requires n <= |events|
  {
    if n == 0 then Replay(map[], None, map[]) else ReplayStep(Replayed(events, n - 1), events[n - 1])
  }

  /** The rows after a stale current run was closed. */
  function Settled(r: Replay, stale: string -> bool): map<string, Row> {
    if r.current.Some? && r.current.value in r.rows && stale(LastOf(r.last, r.current.value, ""))
    then r.rows[r.current.value := r.rows[r.current.value].(outcome := CompletedNoT9)] else r.rows
  }

  function Reclassified(row: Row, last: string, stale: string -> bool): Outcome {
    Classify(last, row.sawT9, if row.outcome == Clean then Num(0) else if row.outcome == Crash then Num(1) else Null, stale)
  }

  /** _state_replay_payload: the outcome shown for every engine run. */
  function StateOutcomes(events: seq<Event>, stale: string -> bool): map<string, Outcome> {
    var r := Replayed(events, |events|);
    var rows := Settled(r, stale);
    map run | run in rows && EngineRun(run) :: Reclassified(rows[run], LastOf(r.last, run, rows[run].ts), stale)
  }

  method StateReplay(events: seq<Event>, stale: string -> bool) returns (outcomes: map<string, Outcome>)
    ensures outcomes == StateOutcomes(events, stale)
  {
    hide Reclassified;
    hide Success;
    hide EngineRun;
    var rows: map<string, Row> := map[];
    var current: Option<string> := None;
    var last: map<string, string> := map[];
    for n := 0 to |events|
      invariant Replay(rows, current, last) == Replayed(events, n)
      invariant current.Some? ==> current.value in rows
    {
      var ev := events[n];
      if ev.etype != "opsstepevent" {
        continue;
      }
      var run := ev.run;
      if run == "" {
        continue;
      }
      last := last[run := if ev.ts != "" then ev.ts else LastOf(last, run, "")];
      if run !in rows {
        rows := rows[run := Row(Running, ev.ts, false, false)];
      }
      if ev.tier == "T0" && EngineRun(run) {
        rows := rows[run := rows[run].(hasT0 := true, ts := ev.ts)];
        current := Some(run);
      }
      if ev.tier == "T9" {
        rows := rows[run := rows[run].(sawT9 := true, outcome := if Success(Exit(ev, Num(0))) then Clean else Crash)];
        if current == Some(run) {
          current := None;
        }
      }
    }
    if current.Some? && stale(LastOf(last, current.value, "")) {
      rows := rows[current.value := rows[current.value].(outcome := CompletedNoT9)];
    }
    outcomes := map run | run in rows && EngineRun(run) :: Reclassified(rows[run], LastOf(last, run, rows[run].ts), stale);
  }

  // ---------------------------------------------------------------- session replay

  datatype Replaying = Replaying(last: string, sawT9: bool, exit: Code)

  predicate Of(ev: Event, run: string) { ev.etype == "opsstepevent" && ev.run == run }

  function SessionStep(s: Replaying, ev: Event, run: string): Replaying {
    if !Of(ev, run) then s else
    Replaying(if ev.ts != "" then ev.ts else s.last, s.sawT9 || ev.tier == "T9",
              if ev.tier == "T9" then Exit(ev, Num(0)) else s.exit)
  }

  function SessionState(events: seq<Event>, run: string, n: nat): Replaying
    requires n <= |events|
  {
    if n == 0 then Replaying("", false, Null) else SessionStep(SessionState(events, run, n - 1), events[n - 1], run)
  }

  function SessionOutcome(events: seq<Event>, run: string, stale: string -> bool): Outcome {
    var s := SessionState(events, run, |events|);
    Classify(s.last, s.sawT9, s.exit, stale)
  }

  /** _session_replay_payload for one run */
  method SessionReplay(events: seq<Event>, run: string, stale: string -> bool) returns (outcome: Outcome)
    ensures outcome == SessionOutcome(events, run, stale)
  {
    var last, sawT9, exit := "", false, Null;
    for n := 0 to |events|
      invariant Replaying(last, sawT9, exit) == SessionState(events, run, n)
    {
      var ev := events[n];
      if ev.etype != "opsstepevent" || ev.run != run {
        continue;
      }
      last := if ev.ts != "" then ev.ts else last;
      if ev.tier == "T9" {
        sawT9 := true;
        exit := Exit(ev, Num(0));
      }
    }
    return Classify(last, sawT9, exit, stale);
  }

  // ---------------------------------------------------------------- sessions snapshot

  datatype RunRow = RunRow(ts: string, hasT0: bool, sawT9: bool, lastExit: Code)

  function RowStep(rows: map<string, RunRow>, ev: Event): map<string, RunRow> {
    if !IsStep(ev) then rows else
    var row := if ev.run in rows then rows[ev.run] else RunRow(ev.ts, false, false, Null);
    var row1 := if ev.tier == "T0" then row.(hasT0 := true, ts := ev.ts)
                else if ev.ts != "" then row.(ts := ev.ts) else row;
    rows[ev.run := if ev.tier == "T9" then row1.(sawT9 := true, lastExit := Exit(ev, Null)) else row1]
  }

  /** The runs of fold_eventlog_views over the first n events. */
  function RunRows(events: seq<Event>, n: nat): map<string, RunRow>
    requires n <= |events|
  {
    if n == 0 then map[] else RowStep(RunRows(events, n - 1), events[n - 1])
  }

  /** _sessions_snapshot_payload: the outcome shown for every engine run. */
  function SnapshotOutcomes(events: seq<Event>, stale: string -> bool): map<string, Outcome> {
    var rows := RunRows(events, |events|);
    map run | run in rows && EngineRun(run) :: Classify(rows[run].ts, rows[run].sawT9, rows[run].lastExit, stale)
  }

  method SessionsSnapshot(events: seq<Event>, stale: string -> bool) returns (outcomes: map<string, Outcome>)
    ensures outcomes == SnapshotOutcomes(events, stale)
  {
    var rows: map<string, RunRow> := map[];
    for n := 0 to |events|
      invariant rows == RunRows(events, n)
    {
      var ev := events[n];
      if ev.run == "" || ev.etype != "opsstepevent" {
        continue;
      }
      if ev.run !in rows {
        rows := rows[ev.run := RunRow(ev.ts, false, false, Null)];
      }
      if ev.tier == "T0" {
        rows := rows[ev.run := rows[ev.run].(hasT0 := true, ts := ev.ts)];
      } else if ev.ts != "" {
        rows := rows[ev.run := rows[ev.run].(ts := ev.ts)];
      }
      if ev.tier == "T9" {
        rows := rows[ev.run := rows[ev.run].(sawT9 := true, lastExit := Exit(ev, Null))];
      }
    }
    outcomes := map run | run in rows && EngineRun(run) :: Classify(rows[run].ts, rows[run].sawT9, rows[run].lastExit, stale);
  }

  // ---------------------------------------------------------------- how the three relate

  predicate Seen(events: seq<Event>, run: string, n: nat)
    requires n <= |events|
  {
    exists k :: 0 <= k < n && Of(events[k], run)
  }

  /** The run was opened last of all engine runs and has not been closed since. */
  function Current(events: seq<Event>, n: nat): Option<string>
    requires n <= |events|
  {
    if n == 0 then None else
    var ev := events[n - 1];
    if !IsStep(ev) then Current(events, n - 1)
    else if ev.tier == "T0" && EngineRun(ev.run) then Some(ev.run)
    else if ev.tier == "T9" && Current(events, n - 1) == Some(ev.run) then None
    else Current(events, n - 1)
  }

  /** The run's last timestamp is older than a later T0 that carries none. */
  predicate UntimedStart(events: seq<Event>, run: string, n: nat)
    requires n <= |events|
  {
    n > 0 &&
    var ev := events[n - 1];
    if Of(ev, run) && ev.ts != "" then false
    else (Of(ev, run) && ev.tier == "T0") || UntimedStart(events, run, n - 1)
  }

  /** What the fold of the whole log keeps about one run is what the fold of the run's events keeps. */
  lemma {:induction false} ReplayOfRun(events: seq<Event>, run: string, n: nat)
    requires n <= |events| && run != ""
    ensures var r, s := Replayed(events, n), SessionState(events, run, n);
            && r.current == Current(events, n)
            && (run in r.rows <==> Seen(events, run, n)) && (run in r.last <==> run in r.rows)
            && (run in r.rows ==>
                  && r.last[run] == s.last && r.rows[run].sawT9 == s.sawT9
                  && r.rows[run].outcome == if s.sawT9 then (if Success(s.exit) then Clean else Crash) else Running)
            && (run !in r.rows ==> s == Replaying("", false, Null))
  {
    if n > 0 {
      ReplayOfRun(events, run, n - 1);
      assert Seen(events, run, n) <==> Seen(events, run, n - 1) || Of(events[n - 1], run);
    }
  }

  lemma {:induction false} RowOfRun(events: seq<Event>, run: string, n: nat)
    requires n <= |events| && run != ""
    ensures var rows, s := RunRows(events, n), SessionState(events, run, n);
            && (run in rows <==> Seen(events, run, n))
            && (run in rows ==>
                  && rows[run].sawT9 == s.sawT9 && Success(rows[run].lastExit) == Success(s.exit)
                  && rows[run].ts == if UntimedStart(events, run, n) then "" else s.last)
            && (run !in rows ==> s == Replaying("", false, Null) && !UntimedStart(events, run, n))
  {
    if n > 0 {
      RowOfRun(events, run, n - 1);
      assert Seen(events, run, n) <==> Seen(events, run, n - 1) || Of(events[n - 1], run);
    }
  }

  /** The three folds speak of the same runs. State replay and session replay differ exactly for a run
      that crashed, was started again, and went stale as the current one: state replay calls it clean.
      Session replay and snapshot differ exactly for a run without T9 whose last timestamp is fresh but
      followed by a T0 that has none. */
  lemma {:induction false} OutcomesAgree(events: seq<Event>, run: string, stale: string -> bool)
    requires EngineRun(run) && stale("")
    ensures var s := SessionState(events, run, |events|);
            && (run in StateOutcomes(events, stale) <==> Seen(events, run, |events|))
            && (run in SnapshotOutcomes(events, stale) <==> Seen(events, run, |events|))
            && (Seen(events, run, |events|) ==>
                  && (StateOutcomes(events, stale)[run] == SessionOutcome(events, run, stale) <==>
                      !(Current(events, |events|) == Some(run) && stale(s.last) && s.sawT9 && !Success(s.exit)))
                  && (SnapshotOutcomes(events, stale)[run] == SessionOutcome(events, run, stale) <==>
                      !(!s.sawT9 && UntimedStart(events, run, |events|) && !stale(s.last))))
  {
    assert run != "";
    ReplayOfRun(events, run, |events|);
    RowOfRun(events, run, |events|);
    hide Replayed;
    hide RunRows;
    hide SessionState;
    hide UntimedStart;
    hide Current;
    hide Seen;
  }

  /** With a timestamp on every event no T0 is untimed. */
  lemma {:induction false} TimedLogs(events: seq<Event>, run: string, n: nat)
    requires n <= |events| && forall k :: 0 <= k < n && Of(events[k], run) ==> events[k].ts != ""
    ensures !UntimedStart(events, run, n)
  {
    if n > 0 { TimedLogs(events, run, n - 1); }
  }

  /** The disagreement is real: a crashed run that was started again and went stale. */
  lemma CrashForgotten(stale: string -> bool)
    requires stale("") && stale("t")
    ensures var crash := Event("opsstepevent", "RUN-1", None, None, Some(Num(1)), "t", "T9", "", None);
            var again := crash.(exit := None, tier := "T0");
            var events := [crash, again];
            && "RUN-1" in StateOutcomes(events, stale) && StateOutcomes(events, stale)["RUN-1"] == Clean
            && SessionOutcome(events, "RUN-1", stale) == Crash
  {
    var crash := Event("opsstepevent", "RUN-1", None, None, Some(Num(1)), "t", "T9", "", None);
    var again := crash.(exit := None, tier := "T0");
    var events := [crash, again];
    assert EngineRun("RUN-1");
    assert Of(events[0], "RUN-1") && Of(events[1], "RUN-1");
    assert SessionState(events, "RUN-1", 1) == Replaying("t", true, Num(1));
    assert SessionState(events, "RUN-1", 2) == Replaying("t", true, Num(1));
    assert Current(events, 2) == Some("RUN-1");
    assert Seen(events, "RUN-1", 2);
    OutcomesAgree(events, "RUN-1", stale);
    ReplayOfRun(events, "RUN-1", 2);
  }
}
