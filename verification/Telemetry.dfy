/** The telemetry queue (ops/telemetry.py): bounded, dropping its oldest item for a newer one, filled by
    any number of producers and emptied by one worker, every queue operation being one atomic step. */
module Telemetry {
  import opened Wrappers

  const MAXSIZE: nat := 512

  /** A payload, with the number of its successful put. */
  datatype Item = Item(at: nat, payload: string)

  /** Where a producer is inside _enqueue: outside, before its first put, before dropping the oldest item,
      before task_done for the one it dropped, before its second put. */
  datatype Producer =
    | Outside | Putting(payload: string) | Dropping(payload: string) | Settling(payload: string) | Retrying(payload: string)

  /** The worker waits, holds an item, or has sent it and owes task_done. */
  datatype Worker = Waiting | Holding(item: Item) | Sent

  /** Ghost history: all payloads put, the items the worker took, the items dropped, the payloads given up. */
  datatype System = System(queue: seq<Item>, unfinished: int, producers: map<nat, Producer>, worker: Worker,
                           puts: seq<string>, taken: seq<Item>, dropped: seq<Item>, lost: seq<string>)

  datatype Action = Enter(p: nat, payload: string) | Move(p: nat) | Take | Send | Done

  ghost predicate Enabled(s: System, a: Action) {
    match a
    case Enter(p, _) => p in s.producers && s.producers[p].Outside?
    case Move(p) => p in s.producers && !s.producers[p].Outside?
    case Take => s.worker.Waiting? && s.queue != []
    case Send => s.worker.Holding?
    case Done => s.worker.Sent?
  }

  /** put_nowait, when there is room */
  function Put(s: System, payload: string): System {
    s.(queue := s.queue + [Item(|s.puts|, payload)], puts := s.puts + [payload], unfinished := s.unfinished + 1)
  }

  function At(s: System, p: nat, to: Producer): System { s.(producers := s.producers[p := to]) }

  function MoveProducer(s: System, p: nat, size: nat): System
    requires p in s.producers
  {
    match s.producers[p]
    case Outside => s
    case Putting(x) => if |s.queue| < size then At(Put(s, x), p, Outside) else At(s, p, Dropping(x))
    case Dropping(x) =>
      if s.queue == [] then At(s, p, Retrying(x))
      else At(s.(queue := s.queue[1..], dropped := s.dropped + [s.queue[0]]), p, Settling(x))
    case Settling(x) => At(s.(unfinished := s.unfinished - 1), p, Retrying(x))
    case Retrying(x) =>
      if |s.queue| < size then At(Put(s, x), p, Outside) else At(s.(lost := s.lost + [x]), p, Outside)
  }

  function Do(s: System, a: Action, size: nat): System {
    match a
    case Enter(p, x) => At(s, p, Putting(x))
    case Move(p) => if p in s.producers then MoveProducer(s, p, size) else s
    case Take => if s.queue == [] then s else s.(queue := s.queue[1..], taken := s.taken + [s.queue[0]], worker := Holding(s.queue[0]))
    case Send => s.(worker := Sent)
    case Done => s.(unfinished := s.unfinished - 1, worker := Waiting)
  }

  /** The state after a run of actions. */
  function After(s: System, actions: seq<Action>, size: nat): System {
    if actions == [] then s else Do(After(s, actions[..|actions| - 1], size), actions[|actions| - 1], size)
  }

  /** A run whose every action is one that somebody can take. */
  ghost predicate Possible(s: System, actions: seq<Action>, size: nat) {
    actions != [] ==>
      var before := actions[..|actions| - 1];
      Possible(s, before, size) && Enabled(After(s, before, size), actions[|actions| - 1])
  }

  /** An empty queue, its producers outside and its worker waiting. */
  ghost predicate Start(s: System) {
    && s.queue == [] && s.unfinished == 0 && s.worker == Waiting && s.puts == [] && s.taken == [] && s.dropped == [] && s.lost == []
    && forall p :: p in s.producers ==> s.producers[p] == Outside
  }

  // ---------------------------------------------------------------- the invariant

  /** Items in the order they were put, each one of them a payload put. */
  ghost predicate InPutOrder(items: seq<Item>, puts: seq<string>) {
    && (forall i :: 0 <= i < |items| ==> items[i].at < |puts| && puts[items[i].at] == items[i].payload)
    && forall i, j :: 0 <= i < j < |items| ==> items[i].at < items[j].at
  }

  /** The producers that have dropped an item and not yet called task_done for it. */
  function Owing(producers: map<nat, Producer>): set<nat> { set p | p in producers && producers[p].Settling? }

  function InHand(w: Worker): nat { if w.Waiting? then 0 else 1 }

  ghost predicate Holds(s: System, size: nat) {
    && |s.queue| <= size
    && InPutOrder(s.taken + s.queue, s.puts)
    && s.unfinished == |s.queue| + InHand(s.worker) + |Owing(s.producers)|
    && |s.puts| == |s.taken| + |s.dropped| + |s.queue|
  }

  lemma OwingChange(producers: map<nat, Producer>, p: nat, to: Producer)
    requires p in producers
    ensures |Owing(producers[p := to])| ==
            |Owing(producers)| - (if producers[p].Settling? then 1 else 0) + (if to.Settling? then 1 else 0)
  {
    OwingOthers(producers, p, to);
    assert (p in Owing(producers) <==> producers[p].Settling?) && (p in Owing(producers[p := to]) <==> to.Settling?);
    hide Owing;
    Without(Owing(producers), p);
    Without(Owing(producers[p := to]), p);
  }

  lemma OwingOthers(producers: map<nat, Producer>, p: nat, to: Producer)
    requires p in producers
    ensures Owing(producers[p := to]) - {p} == Owing(producers) - {p}
  {}

  lemma Without(s: set<nat>, p: nat)
    ensures |s| == |s - {p}| + if p in s then 1 else 0
  {
    if p in s { assert s == (s - {p}) + {p}; } else { assert s - {p} == s; }
  }

  lemma PutKeepsOrder(taken: seq<Item>, queue: seq<Item>, puts: seq<string>, payload: string)
    requires InPutOrder(taken + queue, puts)
    ensures InPutOrder(taken + (queue + [Item(|puts|, payload)]), puts + [payload])
  {
    assert taken + (queue + [Item(|puts|, payload)]) == (taken + queue) + [Item(|puts|, payload)];
  }

  lemma TakeKeepsOrder(taken: seq<Item>, queue: seq<Item>, puts: seq<string>)
    requires queue != [] && InPutOrder(taken + queue, puts)
    ensures InPutOrder((taken + [queue[0]]) + queue[1..], puts)
  {
    assert (taken + [queue[0]]) + queue[1..] == taken + queue;
  }

  lemma DropKeepsOrder(taken: seq<Item>, queue: seq<Item>, puts: seq<string>)
    requires queue != [] && InPutOrder(taken + queue, puts)
    ensures InPutOrder(taken + queue[1..], puts)
  {
    var all, after := taken + queue, taken + queue[1..];
    assert forall i :: 0 <= i < |after| ==> after[i] == all[if i < |taken| then i else i + 1];
  }

  lemma {:induction false} HoldsStep(s: System, a: Action, size: nat)
    requires Holds(s, size) && Enabled(s, a) && size > 0
    ensures Holds(Do(s, a, size), size)
  {
    hide InPutOrder;
    hide Owing;
    match a
    case Enter(p, x) => OwingChange(s.producers, p, Putting(x));
    case Move(p) => MoveKeeps(s, p, size);
    case Take => TakeKeepsOrder(s.taken, s.queue, s.puts);
    case _ =>
  }

  lemma {:induction false} MoveKeeps(s: System, p: nat, size: nat)
    requires Holds(s, size) && p in s.producers && size > 0
    ensures Holds(MoveProducer(s, p, size), size)
  {
    hide InPutOrder;
    hide Owing;
    OwingChange(s.producers, p, MoveProducer(s, p, size).producers[p]);
    match s.producers[p]
    case Outside => assert s.producers[p := Outside] == s.producers;
    case Putting(x) => PutKeepsOrder(s.taken, s.queue, s.puts, x);
    case Dropping(x) => if s.queue != [] { DropKeepsOrder(s.taken, s.queue, s.puts); }
    case Settling(x) =>
    case Retrying(x) => PutKeepsOrder(s.taken, s.queue, s.puts, x);
  }

  /** Under every interleaving of any number of producers with the worker: the queue never exceeds its
      size; what the worker took, followed by what is queued, are payloads in the order they were put; every
      payload put is taken, queued or dropped; and the unfinished count is the number of items queued or in
      somebody's hand, so no task_done can find it at zero. */
  lemma {:induction false} QueueInvariant(s: System, actions: seq<Action>, size: nat)
    requires Start(s) && Possible(s, actions, size) && size > 0
    ensures Holds(After(s, actions, size), size)
    ensures var t := After(s, actions, size);
            && (t.worker.Sent? ==> t.unfinished > 0)
            && (forall p :: p in t.producers && t.producers[p].Settling? ==> t.unfinished > 0)
  {
    hide InPutOrder;
    hide Do;
    hide Enabled;
    if actions == [] {
      StartHolds(s, size);
    } else {
      var n := |actions| - 1;
      QueueInvariant(s, actions[..n], size);
      HoldsStep(After(s, actions[..n], size), actions[n], size);
    }
    OwedIsCounted(After(s, actions, size));
  }

  lemma StartHolds(s: System, size: nat)
    requires Start(s)
    ensures Holds(s, size)
  {
    assert Owing(s.producers) == {};
  }

  lemma OwedIsCounted(s: System)
    ensures forall p :: p in s.producers && s.producers[p].Settling? ==> |Owing(s.producers)| > 0
  {
    forall p | p in s.producers && s.producers[p].Settling? ensures |Owing(s.producers)| > 0 {
      assert p in Owing(s.producers);
    }
  }

  // ---------------------------------------------------------------- one producer, or more

  /** A single producer that has made room finds room when it tries again. */
  ghost predicate RoomMade(s: System, p: nat, size: nat) {
    && s.producers.Keys <= {p} && s.lost == []
    && (p in s.producers && (s.producers[p].Settling? || s.producers[p].Retrying?) ==> |s.queue| < size)
  }

  lemma {:induction false} RoomStep(s: System, a: Action, p: nat, size: nat)
    requires Holds(s, size) && RoomMade(s, p, size) && Enabled(s, a) && size > 0
    ensures RoomMade(Do(s, a, size), p, size)
  {
    hide InPutOrder;
    hide Owing;
  }

  /** With a single producer the newest payload is never the one given up. */
  lemma {:induction false} NewestKept(s: System, actions: seq<Action>, p: nat, size: nat)
    requires Start(s) && s.producers.Keys <= {p} && Possible(s, actions, size) && size > 0
    ensures RoomMade(After(s, actions, size), p, size) && After(s, actions, size).lost == []
  {
    hide InPutOrder;
    hide Do;
    hide Enabled;
    if actions != [] {
      var n := |actions| - 1;
      NewestKept(s, actions[..n], p, size);
      QueueInvariant(s, actions[..n], size);
      RoomStep(After(s, actions[..n], size), actions[n], p, size);
    }
  }

  lemma Then(s: System, actions: seq<Action>, a: Action, size: nat)
    requires Possible(s, actions, size) && Enabled(After(s, actions, size), a)
    ensures Possible(s, actions + [a], size) && After(s, actions + [a], size) == Do(After(s, actions, size), a, size)
  {
    hide Do;
    hide Enabled;
    assert (actions + [a])[..|actions|] == actions;
  }

  /** A producer that is left alone fills the queue. */
  lemma {:induction false} Fill(s: System, p: nat, x: string, size: nat, n: nat) returns (actions: seq<Action>)
    requires Start(s) && p in s.producers && n <= size
    ensures Possible(s, actions, size)
    ensures var t := After(s, actions, size); |t.queue| == n && t.lost == [] && t.producers == s.producers
  {
    actions := [];
    if n > 0 {
      actions := Fill(s, p, x, size, n - 1);
      var t := After(s, actions, size);
      Then(s, actions, Enter(p, x), size);
      Then(s, actions + [Enter(p, x)], Move(p), size);
      actions := actions + [Enter(p, x)] + [Move(p)];
      assert s.producers[p := Putting(x)][p := Outside] == s.producers;
    }
  }

  /** On a full queue the first producer drops the oldest item to make room. */
  lemma {:induction false} MakesRoom(s: System, actions: seq<Action>, p: nat, x: string, size: nat) returns (all: seq<Action>)
    requires Possible(s, actions, size) && size > 0
    requires var t := After(s, actions, size); |t.queue| == size && p in t.producers && t.producers[p].Outside?
    ensures Possible(s, all, size)
    ensures var t, u := After(s, actions, size), After(s, all, size);
            |u.queue| == size - 1 && u.producers == t.producers[p := Settling(x)] && u.lost == t.lost
  {
    hide After;
    hide Possible;
    var t := After(s, actions, size);
    Then(s, actions, Enter(p, x), size);
    Then(s, actions + [Enter(p, x)], Move(p), size);
    all := actions + [Enter(p, x)] + [Move(p)];
    assert After(s, all, size) == t.(producers := t.producers[p := Dropping(x)]);
    Then(s, all, Move(p), size);
    all := all + [Move(p)];
    assert t.producers[p := Dropping(x)][p := Settling(x)] == t.producers[p := Settling(x)];
  }

  /** The second producer takes it. */
  lemma {:induction false} TakesRoom(s: System, actions: seq<Action>, q: nat, y: string, size: nat) returns (all: seq<Action>)
    requires Possible(s, actions, size) && size > 0
    requires var t := After(s, actions, size); |t.queue| == size - 1 && q in t.producers && t.producers[q].Outside?
    ensures Possible(s, all, size)
    ensures var t, u := After(s, actions, size), After(s, all, size);
            |u.queue| == size && u.producers == t.producers[q := Outside] && u.lost == t.lost
  {
    hide After;
    hide Possible;
    var t := After(s, actions, size);
    Then(s, actions, Enter(q, y), size);
    Then(s, actions + [Enter(q, y)], Move(q), size);
    all := actions + [Enter(q, y)] + [Move(q)];
    assert t.producers[q := Putting(y)][q := Outside] == t.producers[q := Outside];
  }

  /** And the first one gives its payload up. */
  lemma {:induction false} GivesUp(s: System, actions: seq<Action>, p: nat, x: string, size: nat) returns (all: seq<Action>)
    requires Possible(s, actions, size) && size > 0
    requires var t := After(s, actions, size); |t.queue| == size && p in t.producers && t.producers[p] == Settling(x)
    ensures Possible(s, all, size) && After(s, all, size).lost == After(s, actions, size).lost + [x]
  {
    hide After;
    hide Possible;
    Then(s, actions, Move(p), size);
    Then(s, actions + [Move(p)], Move(p), size);
    all := actions + [Move(p)] + [Move(p)];
  }

  lemma {:induction false} Race(s: System, actions: seq<Action>, p: nat, q: nat, x: string, y: string, size: nat)
    returns (all: seq<Action>)
    requires Possible(s, actions, size) && size > 0 && p != q
    requires var t := After(s, actions, size);
             |t.queue| == size && t.lost == [] && p in t.producers && q in t.producers
             && t.producers[p].Outside? && t.producers[q].Outside?
    ensures Possible(s, all, size) && After(s, all, size).lost == [x]
  {
    hide After;
    hide Possible;
    all := MakesRoom(s, actions, p, x, size);
    all := TakesRoom(s, all, q, y, size);
    all := GivesUp(s, all, p, x, size);
  }

  lemma OneOrNone(s: set<nat>)
    ensures |s| <= 1 <==> exists p :: s <= {p}
  {
    if s == {} {
      assert s <= {0};
    } else {
      var p :| p in s;
      assert s == {p} + (s - {p});
      if |s| <= 1 { assert s - {p} == {}; }
      if q :| s <= {q} { assert s == {q}; }
    }
  }

  /** Whatever the size of the queue: a payload just sent can be given up if and only if there is more than one
      producer. */
  lemma {:induction false} NewestKeptExactly(s: System, size: nat)
    requires Start(s) && size > 0
    ensures (forall actions :: Possible(s, actions, size) ==> After(s, actions, size).lost == []) <==> |s.producers| <= 1
  {
    hide After;
    hide Possible;
    OneOrNone(s.producers.Keys);
    if p :| s.producers.Keys <= {p} {
      forall actions | Possible(s, actions, size) ensures After(s, actions, size).lost == [] { NewestKept(s, actions, p, size); }
    }
    if |s.producers| > 1 {
      var p :| p in s.producers;
      assert !(s.producers.Keys <= {p});
      var q :| q in s.producers && q != p;
      var full := Fill(s, p, "", size, size);
      var actions := Race(s, full, p, q, "", "", size);
    }
  }

  // ---------------------------------------------------------------- _enqueue by itself

  /** The shared queue and _enqueue when nobody interferes. */
  class Queue {
    var items: seq<string>
    var unfinished: int

    constructor ()
      ensures items == [] && unfinished == 0
    {
      items := [];
      unfinished := 0;
    }

    method PutNowait(payload: string) returns (full: bool)
      modifies this
      ensures full == (|old(items)| >= MAXSIZE)
      ensures items == if full then old(items) else old(items) + [payload]
      ensures unfinished == old(unfinished) + if full then 0 else 1
    {
      full := |items| >= MAXSIZE;
      if !full {
        items := items + [payload];
        unfinished := unfinished + 1;
      }
    }

    method GetNowait() returns (r: Option<string>)
      modifies this
      ensures unfinished == old(unfinished)
      ensures if old(items) == [] then r == None && items == [] else r == Some(old(items)[0]) && items == old(items)[1..]
    {
      if items == [] {
        return None;
      }
      r := Some(items[0]);
      items := items[1..];
    }

    /** The new payload is always queued, last; a full queue loses its oldest item and nothing else. */
    method Enqueue(payload: string)
      requires |items| <= MAXSIZE
      modifies this
      ensures items == (if |old(items)| == MAXSIZE then old(items)[1..] else old(items)) + [payload]
      ensures |items| <= MAXSIZE && unfinished - |items| == old(unfinished) - |old(items)|
    {
      var full := PutNowait(payload);
      if full {
        var dropped := GetNowait();
        if dropped.Some? {
          unfinished := unfinished - 1;
        }
        var _ := PutNowait(payload);
      }
    }
  }
}
