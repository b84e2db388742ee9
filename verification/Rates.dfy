/** How often the daemon sends keepalives, over whole runs. */
module Rates {
  import opened Trees
  import opened NetworkModel
  import opened ServerModel
  import opened DaemonModel
  import opened Subscriptions
  import opened DaemonRuns
  import opened Transcripts

  /** Times grow, by more than the interval each (strict) or by at least the interval. */
  ghost predicate Spaced(times: seq<real>, interval: real, strict: bool) {
    forall i :: 0 <= i < |times| - 1 ==>
      times[i + 1] - times[i] >= interval && (strict ==> times[i + 1] - times[i] > interval)
  }

  lemma SpacedAppend(times: seq<real>, t: real, interval: real, strict: bool)
    ensures Spaced(times + [t], interval, strict) <==>
            Spaced(times, interval, strict) &&
            (times != [] ==> t - times[|times| - 1] >= interval && (strict ==> t - times[|times| - 1] > interval))
  {
    var more, n := times + [t], |times| - 1;
    if Spaced(more, interval, strict) && times != [] {
      assert more[n + 1] - more[n] >= interval;
      forall i | 0 <= i < n
        ensures times[i + 1] - times[i] >= interval && (strict ==> times[i + 1] - times[i] > interval)
      {
        assert more[i + 1] - more[i] >= interval;
      }
    }
  }

  /** n times spaced by an interval take at least n - 1 intervals. */
  lemma {:induction false} SpacedSpan(times: seq<real>, interval: real, strict: bool)
    requires times != [] && Spaced(times, interval, strict)
    ensures times[|times| - 1] - times[0] >= (|times| - 1) as real * interval
    ensures strict && |times| > 1 ==> times[|times| - 1] - times[0] > (|times| - 1) as real * interval
  {
    var n := |times| - 1;
    if n > 0 {
      SpacedSpan(times[..n], interval, strict);
      assert times[n] - times[n - 1] >= interval;
      assert n as real * interval == (n - 1) as real * interval + interval;
    }
  }

  // Keepalives

  /** The cycle sends a keepalive round. */
  predicate Beats(d: DaemonState, step: Step) {
    step.Cycling? && Succeeds(d) && KeepAliveDue(d, step.io.keepAliveTime)
  }

  /** The times of the keepalive rounds of a run. */
  function KeepAlives(d: DaemonState, steps: seq<Step>): seq<real> {
    if steps == [] then []
    else
      var front, last := steps[..|steps| - 1], steps[|steps| - 1];
      KeepAlives(d, front) + (if Beats(Run(d, front), last) then [last.io.keepAliveTime] else [])
  }

  /** Only a keepalive round moves the timer, and only the configuration sets the interval. */
  lemma StepTimer(d: DaemonState, step: Step)
    requires DaemonOk(d)
    ensures !step.Pacing? ==> Perform(d, step).keepAliveInterval == d.keepAliveInterval
    ensures Perform(d, step).lastKeepAlive == if Beats(d, step) then step.io.keepAliveTime else d.lastKeepAlive
  {
    hide NetworkModel.Cycle, ServerModel.Cycle;
    if step.Cycling? && Succeeds(d) {
      ServedKeeps(d, step.io);
      RouteAllKeeps(Served(d, step.io), Served(d, step.io).net.events, step.io);
    }
  }

  lemma {:induction false} KeepAlivesSpaced(d: DaemonState, steps: seq<Step>)
    requires DaemonOk(d) && forall i :: 0 <= i < |steps| ==> !steps[i].Pacing?
    ensures Spaced(KeepAlives(d, steps), d.keepAliveInterval, true)
    ensures Run(d, steps).keepAliveInterval == d.keepAliveInterval && DaemonOk(Run(d, steps))
    ensures Run(d, steps).lastKeepAlive ==
            if KeepAlives(d, steps) == [] then d.lastKeepAlive else KeepAlives(d, steps)[|KeepAlives(d, steps)| - 1]
  {
    hide Spaced, Perform, DaemonOk;
    if steps == [] {
      NothingSpaced(d.keepAliveInterval, true);
    } else {
      var front, last := steps[..|steps| - 1], steps[|steps| - 1];
      KeepAlivesSpaced(d, front);
      StepTimer(Run(d, front), last);
      StepOk(Run(d, front), last);
      if Beats(Run(d, front), last) {
        SpacedAppend(KeepAlives(d, front), last.io.keepAliveTime, d.keepAliveInterval, true);
      } else {
        assert KeepAlives(d, front) + [] == KeepAlives(d, front);
      }
    }
  }

  lemma NothingSpaced(interval: real, strict: bool)
    ensures Spaced([], interval, strict)
  {
  }

  /** Keepalive rate: n keepalive rounds of a run with one interval, n > 1, take more than n - 1 intervals. */
  lemma KeepAliveRate(d: DaemonState, steps: seq<Step>)
    requires DaemonOk(d) && forall i :: 0 <= i < |steps| ==> !steps[i].Pacing?
    ensures var times := KeepAlives(d, steps);
            |times| > 1 ==> times[|times| - 1] - times[0] > (|times| - 1) as real * d.keepAliveInterval
  {
    hide KeepAlives, Run;
    KeepAlivesSpaced(d, steps);
    if KeepAlives(d, steps) != [] {
      SpacedSpan(KeepAlives(d, steps), d.keepAliveInterval, true);
    }
  }

  /** A successful cycle sends a keepalive exactly when it reads the clock later than one interval after the last
      round of the run. */
  lemma KeepAliveComes(d: DaemonState, steps: seq<Step>, io: DaemonIo)
    requires DaemonOk(d) && forall i :: 0 <= i < |steps| ==> !steps[i].Pacing?
    requires Succeeds(Run(d, steps))
    ensures var times := KeepAlives(d, steps);
            var last := if times == [] then d.lastKeepAlive else times[|times| - 1];
            KeepAlives(d, steps + [Cycling(io)]) ==
            if io.keepAliveTime > last + d.keepAliveInterval then times + [io.keepAliveTime] else times
  {
    KeepAlivesSpaced(d, steps);
    assert (steps + [Cycling(io)])[..|steps|] == steps;
  }

  // What clients get of it

  /** How many of the messages are keepalives. */
  function Count(messages: seq<Tree>): nat {
    if messages == [] then 0
    else Count(messages[..|messages| - 1]) + (if messages[|messages| - 1] == KEEPALIVE then 1 else 0)
  }

  lemma {:induction false} CountConcat(x: seq<Tree>, y: seq<Tree>)
    ensures Count(x + y) == Count(x) + Count(y)
  {
    if y == [] {
      assert x + y == x;
    } else {
      CountConcat(x, y[..|y| - 1]);
      assert (x + y)[..|x + y| - 1] == x + y[..|y| - 1];
    }
  }

  lemma {:induction false} CountNone(messages: seq<Tree>)
    requires KEEPALIVE !in messages
    ensures Count(messages) == 0
  {
    if messages != [] {
      CountNone(messages[..|messages| - 1]);
    }
  }

  lemma {:induction false} AnsweredSilent(d: DaemonState, queue: seq<QueuedValue>, io: DaemonIo, client: nat)
    ensures KEEPALIVE !in Answered(d, queue, io, client)
  {
    if queue != [] {
      AnsweredSilent(d, queue[..|queue| - 1], io, client);
    }
  }

  lemma {:induction false} ToldSilent(streams: seq<Stream>, net: NetState, events: seq<Event>, client: nat,
                                      io: DaemonIo)
    ensures KEEPALIVE !in ToldAll(streams, net, events, client, io)
  {
    if events != [] {
      ToldSilent(streams, net, events[..|events| - 1], client, io);
    }
  }

  lemma NewsCount(d: DaemonState, io: DaemonIo, client: nat)
    ensures Count(News(d, io, client)) == |Beat(d, io)|
  {
    hide Answered, ToldAll, Prepared, Served, ServerModel.Cycle;
    var queue, s := ServerModel.Cycle(d.srv, io.server).queue, Served(d, io);
    var answers := Answered(Prepared(d, io), queue, io, client);
    var told := ToldAll(s.streams, s.net, s.net.events, client, io);
    AnsweredSilent(Prepared(d, io), queue, io, client);
    ToldSilent(s.streams, s.net, s.net.events, client, io);
    CountNone(answers);
    CountNone(told);
    CountConcat(answers, told);
    CountConcat(answers + told, Beat(d, io));
    if Beat(d, io) != [] {
      assert Beat(d, io)[..0] == [];
    }
  }

  /** An earlier connection that is there after a step was there before it. */
  lemma ConnectedBefore(d: DaemonState, step: Step, client: nat)
    requires DaemonOk(d) && client < d.srv.nextClient && Connected(Perform(d, step).srv.served, client)
    ensures Connected(d.srv.served, client)
  {
    if step.Cycling? && Succeeds(d) {
      ServerAfter(d, step.io);
      hide DaemonModel.Cycle;
      ServedBefore(d.srv, step.io.server, client);
    }
  }

  lemma ServedBefore(s: ServerState, io: ServerIo, client: nat)
    requires ServerOk(s) && s.run && s.queue == [] && s.removed == []
    requires client < s.nextClient && Connected(ServerModel.Cycle(s, io).served, client)
    ensures Connected(s.served, client)
  {
    hide ReadAll, Listen;
    var kept, t := Listen(s, io), ServerModel.Cycle(s, io);
    ListenKeeps(s, io);
    ReadAllKeeps(kept, io);
    var i :| 0 <= i < |t.served| && t.served[i].0 == client;
    assert t.served[i] in kept.served;
    var j :| 0 <= j < |kept.served| && kept.served[j] == t.served[i];
    assert j < |s.served| && s.served[j].0 == client;
  }

  lemma StepCount(d: DaemonState, step: Step, client: nat)
    requires DaemonOk(d) && client < d.srv.nextClient && Connected(Perform(d, step).srv.served, client)
    ensures Count(OutboxOf(Perform(d, step).srv.outbox, client)) ==
            Count(OutboxOf(d.srv.outbox, client)) + (if Beats(d, step) then 1 else 0)
  {
    hide NetworkModel.Cycle, ServerModel.Cycle, News, Count;
    if step.Cycling? && Succeeds(d) {
      CycleOutbox(d, step.io, client);
      NewsCount(d, step.io, client);
      CountConcat(OutboxOf(d.srv.outbox, client), News(d, step.io, client));
    }
  }

  /** Every client that stays connected gets exactly one keepalive per round of the run. */
  lemma {:induction false} KeepAlivesArrive(d: DaemonState, steps: seq<Step>, client: nat)
    requires DaemonOk(d) && client < d.srv.nextClient && Connected(Run(d, steps).srv.served, client)
    ensures Count(OutboxOf(Run(d, steps).srv.outbox, client)) ==
            Count(OutboxOf(d.srv.outbox, client)) + |KeepAlives(d, steps)|
    decreases |steps|
  {
    hide Perform, DaemonOk, Beats, Count;
    if steps != [] {
      var front, last := steps[..|steps| - 1], steps[|steps| - 1];
      RunOk(d, front);
      ConnectedBefore(Run(d, front), last, client);
      KeepAlivesArrive(d, front, client);
      StepCount(Run(d, front), last, client);
    }
  }
}
