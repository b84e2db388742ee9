/** Whole runs of the daemon from its construction: what callers and cycles can do to it, and what every run keeps. */
module DaemonRuns {
  import opened Trees
  import opened Ordering
  import opened NetworkModel
  import opened NetworkLaws
  import NetworkCycle
  import NetworkRuns
  import opened ServerModel
  import opened DaemonModel
  import opened Subscriptions

  /** What is done to the monitor outside a cycle. */
  type Setup = m: NetworkRuns.Step | !m.Cycling? witness NetworkRuns.ClearingPatterns

  datatype Step =
    | Offering(device: string, port: int, socketMade: bool, bound: bool)
    | Configuring(setup: Setup)
    | Pacing(interval: real)
    | Stopping
    | Cycling(io: DaemonIo)

  function Perform(d: DaemonState, step: Step): DaemonState {
    match step
    case Offering(device, port, socketMade, bound) => d.(srv := Serve(d.srv, device, port, socketMade, bound))
    case Configuring(setup) => d.(net := NetworkRuns.Perform(d.net, setup))
    case Pacing(interval) => d.(keepAliveInterval := interval)
    case Stopping => d.(net := NetworkRuns.Perform(d.net, NetworkRuns.Stopping), srv := d.srv.(run := false))
    case Cycling(io) => DaemonModel.Cycle(d, io)
  }

  function Run(d: DaemonState, steps: seq<Step>): DaemonState {
    if steps == [] then d else Perform(Run(d, steps[..|steps| - 1]), steps[|steps| - 1])
  }

  function ClockAfter(now: real, steps: seq<Step>): real {
    if steps == [] then now
    else match steps[|steps| - 1]
         case Cycling(io) => io.os.checkTime
         case _ => ClockAfter(now, steps[..|steps| - 1])
  }

  /** The clock never runs backwards during the run. */
  ghost predicate ClockOk(now: real, steps: seq<Step>) {
    steps == [] ||
    (ClockOk(now, steps[..|steps| - 1]) &&
     (steps[|steps| - 1].Cycling? ==> OsOk(steps[|steps| - 1].io.os, ClockAfter(now, steps[..|steps| - 1]))))
  }

  /** What the constructor makes. */
  function Initial(matches: (string, string) -> bool, controlOpen: bool): DaemonState {
    DaemonState(NetState([], [], [], [], Whitelist, [], matches,
                         Settings(controlOpen, true, true, 300.0, 10.0, 10.0, 15.0),
                         0.0, true, map[]),
                ServerState(true, "", [], [], [], [], map[], 0), [], 0.0, 1.0)
  }

  // What every step keeps

  /** Handling requests and events changes only evidence entries of the monitor. */
  lemma MonitorAfter(d: DaemonState, io: DaemonIo)
    requires DaemonOk(d) && Succeeds(d)
    ensures var t := DaemonModel.Cycle(d, io);
            && t.net == NetworkModel.Cycle(d.net, io.os).(evidence := t.net.evidence)
            && t.net == Served(d, io).net
            && d.srv.nextClient <= t.srv.nextClient
  {
    hide NetworkModel.Cycle;
    ServedKeeps(d, io);
    RouteAllKeeps(Served(d, io), Served(d, io).net.events, io);
    ListenKeeps(d.srv, io.server);
    ReadAllKeeps(Listen(d.srv, io.server), io.server);
  }

  /** After the server cycle only outboxes change on the server. */
  lemma ServerAfter(d: DaemonState, io: DaemonIo)
    requires DaemonOk(d) && Succeeds(d)
    ensures var t := DaemonModel.Cycle(d, io);
            t.srv == ServerModel.Cycle(d.srv, io.server).(removed := [], queue := [], outbox := t.srv.outbox)
  {
    hide NetworkModel.Cycle, ServerModel.Cycle;
    ServedKeeps(d, io);
    RouteAllKeeps(Served(d, io), Served(d, io).net.events, io);
  }

  lemma InvIgnoresEvidence(s: NetState, evidence: Evidence, now: real)
    requires Inv(s, now)
    ensures Inv(s.(evidence := evidence), now)
  {
  }

  lemma CycleKeeps(d: DaemonState, io: DaemonIo, now: real)
    requires DaemonOk(d) && Inv(d.net, now) && OsOk(io.os, now)
    ensures DaemonOk(DaemonModel.Cycle(d, io)) && Inv(DaemonModel.Cycle(d, io).net, io.os.checkTime)
    ensures d.srv.nextClient <= DaemonModel.Cycle(d, io).srv.nextClient
  {
    hide DaemonOk, Inv, OsOk, NetworkModel.Cycle;
    CycleSafe(d, io);
    NetworkRuns.CycleKeeps(d.net, io.os, now);
    if Succeeds(d) {
      MonitorAfter(d, io);
      InvIgnoresEvidence(NetworkModel.Cycle(d.net, io.os), DaemonModel.Cycle(d, io).net.evidence, io.os.checkTime);
    }
  }

  lemma StepKeeps(d: DaemonState, step: Step, now: real)
    requires DaemonOk(d) && Inv(d.net, now) && (step.Cycling? ==> OsOk(step.io.os, now))
    ensures DaemonOk(Perform(d, step))
    ensures Inv(Perform(d, step).net, if step.Cycling? then step.io.os.checkTime else now)
    ensures d.srv.nextClient <= Perform(d, step).srv.nextClient
  {
    match step
    case Offering(device, port, socketMade, bound) => ServeKeeps(d.srv, device, port, socketMade, bound);
    case Configuring(setup) => NetworkRuns.StepKeeps(d.net, setup, now);
    case Pacing(_) =>
    case Stopping =>
    case Cycling(io) => CycleKeeps(d, io, now);
  }

  /** Every run keeps subscription safety, distinct connection and serving numbers, and the table invariant. */
  lemma {:induction false} RunKeeps(d: DaemonState, steps: seq<Step>, now: real)
    requires DaemonOk(d) && Inv(d.net, now) && ClockOk(now, steps)
    ensures DaemonOk(Run(d, steps)) && Inv(Run(d, steps).net, ClockAfter(now, steps))
    ensures d.srv.nextClient <= Run(d, steps).srv.nextClient
  {
    hide DaemonOk, Inv, OsOk, Perform;
    if steps != [] {
      var front, last := steps[..|steps| - 1], steps[|steps| - 1];
      RunKeeps(d, front, now);
      StepKeeps(Run(d, front), last, ClockAfter(now, front));
    }
  }

  lemma StepOk(d: DaemonState, step: Step)
    requires DaemonOk(d)
    ensures DaemonOk(Perform(d, step))
  {
    match step
    case Offering(device, port, socketMade, bound) => ServeKeeps(d.srv, device, port, socketMade, bound);
    case Cycling(io) => CycleSafe(d, io);
    case _ =>
  }

  lemma {:induction false} RunOk(d: DaemonState, steps: seq<Step>)
    requires DaemonOk(d)
    ensures DaemonOk(Run(d, steps)) && d.srv.nextClient <= Run(d, steps).srv.nextClient
  {
    hide DaemonOk, Perform;
    if steps != [] {
      var front, last := steps[..|steps| - 1], steps[|steps| - 1];
      RunOk(d, front);
      StepOk(Run(d, front), last);
      NumbersGrow(Run(d, front), last);
    }
  }

  lemma NumbersGrow(d: DaemonState, step: Step)
    requires DaemonOk(d)
    ensures d.srv.nextClient <= Perform(d, step).srv.nextClient
  {
    hide NetworkModel.Cycle;
    if step.Cycling? && Succeeds(d) {
      MonitorAfter(d, step.io);
    }
  }

  lemma StillRunning(d: DaemonState, io: DaemonIo)
    requires DaemonOk(d) && Succeeds(d)
    ensures Succeeds(DaemonModel.Cycle(d, io))
  {
    hide NetworkModel.Cycle;
    NetworkCycle.CyclePolicy(d.net, io.os);
    ServerModel.CycleKeeps(d.srv, io.server);
    ServedKeeps(d, io);
    RouteAllKeeps(Served(d, io), Served(d, io).net.events, io);
  }

  lemma InitialOk(matches: (string, string) -> bool, controlOpen: bool)
    ensures var d := Initial(matches, controlOpen);
            DaemonOk(d) && Succeeds(d) && Inv(d.net, 0.0) && NetworkRuns.AllAllowed(d.net)
  {
  }

  /** From the constructor, after any mix of serving, configuring, stopping and cycling: each stream belongs to one
      connection that is still there, no two servings share a number or a (device, port) pair, a number finds exactly
      the serving that carries it, and the table invariant holds. */
  lemma FromTheStart(matches: (string, string) -> bool, controlOpen: bool, steps: seq<Step>)
    requires ClockOk(0.0, steps)
    ensures var t := Run(Initial(matches, controlOpen), steps);
            && DaemonOk(t) && Inv(t.net, ClockAfter(0.0, steps))
            && DistinctServings(t.srv.servings) && LookupExact(t.srv.servings)
  {
    InitialOk(matches, controlOpen);
    RunKeeps(Initial(matches, controlOpen), steps, 0.0);
    LookupIsExact(Run(Initial(matches, controlOpen), steps).srv.servings);
  }

  // The monitor inside the daemon

  /** The evidence requests among the queued values, as steps of the monitor. */
  function Asks(queue: seq<QueuedValue>): seq<NetworkRuns.Step> {
    if queue == [] then []
    else
      var v := queue[|queue| - 1].value;
      Asks(queue[..|queue| - 1]) +
      (if v.content == "mac-evidence" && SubText(v, "mac-address").Some?
       then [NetworkRuns.Asking(SubText(v, "mac-address").value)] else [])
  }

  /** What a step of the daemon does to its monitor. */
  function MonitorPart(d: DaemonState, step: Step): seq<NetworkRuns.Step> {
    match step
    case Configuring(setup) => [setup]
    case Stopping => [NetworkRuns.Stopping]
    case Cycling(io) =>
      [NetworkRuns.Cycling(io.os)] + (if Succeeds(d) then Asks(ServerModel.Cycle(d.srv, io.server).queue) else [])
    case _ => []
  }

  function MonitorSteps(d: DaemonState, steps: seq<Step>): seq<NetworkRuns.Step> {
    if steps == [] then []
    else
      var front := steps[..|steps| - 1];
      MonitorSteps(d, front) + MonitorPart(Run(d, front), steps[|steps| - 1])
  }

  lemma {:induction false} HandleAllAsks(d: DaemonState, queue: seq<QueuedValue>, io: DaemonIo)
    ensures HandleAll(d, queue, io).net == NetworkRuns.Run(d.net, Asks(queue))
  {
    if queue != [] {
      var front, last := queue[..|queue| - 1], queue[|queue| - 1];
      HandleAllAsks(d, front, io);
      HandleAsks(HandleAll(d, front, io), last, io);
      assert Asks([last]) == Asks(queue)[|Asks(front)|..] by { assert [last][..0] == []; }
      NetworkRuns.RunConcat(d.net, Asks(front), Asks([last]));
      assert Asks(queue) == Asks(front) + Asks([last]);
    }
  }

  lemma HandleAsks(d: DaemonState, q: QueuedValue, io: DaemonIo)
    ensures Handle(d, q, io).net == NetworkRuns.Run(d.net, Asks([q]))
  {
    hide EvidenceEntries, DeviceEntries, MacEntries, EnableStream, DisableStream, SortedKeys;
    var v := q.value;
    assert [q][..0] == [];
    if v.content == "mac-evidence" && SubText(v, "mac-address").Some? {
      var ask := NetworkRuns.Asking(SubText(v, "mac-address").value);
      assert Asks([q]) == [ask];
      NetworkRuns.RunOne(d.net, ask);
    } else {
      assert Asks([q]) == [];
    }
  }

  lemma StepMonitor(d: DaemonState, step: Step)
    requires DaemonOk(d)
    ensures Perform(d, step).net == NetworkRuns.Run(d.net, MonitorPart(d, step))
  {
    var part := MonitorPart(d, step);
    match step
    case Cycling(io) =>
      NetworkRuns.RunOne(d.net, NetworkRuns.Cycling(io.os));
      if Succeeds(d) {
        var queue := ServerModel.Cycle(d.srv, io.server).queue;
        MonitorAfter(d, io);
        HandleAllAsks(Prepared(d, io), queue, io);
        NetworkRuns.RunConcat(d.net, [NetworkRuns.Cycling(io.os)], Asks(queue));
      } else {
        assert part == [NetworkRuns.Cycling(io.os)];
      }
    case Configuring(setup) => NetworkRuns.RunOne(d.net, setup);
    case Stopping => NetworkRuns.RunOne(d.net, NetworkRuns.Stopping);
    case _ =>
  }

  /** The monitor of a daemon goes through a run of its own, so all laws about runs of the monitor hold in it. */
  lemma {:induction false} MonitorRun(d: DaemonState, steps: seq<Step>, now: real)
    requires DaemonOk(d) && Inv(d.net, now) && ClockOk(now, steps)
    ensures Run(d, steps).net == NetworkRuns.Run(d.net, MonitorSteps(d, steps))
    ensures NetworkRuns.ClockOk(now, MonitorSteps(d, steps))
    ensures NetworkRuns.ClockAfter(now, MonitorSteps(d, steps)) == ClockAfter(now, steps)
  {
    hide DaemonOk, Inv, OsOk, Perform, MonitorPart;
    if steps != [] {
      var front, last := steps[..|steps| - 1], steps[|steps| - 1];
      var before, part := MonitorSteps(d, front), MonitorPart(Run(d, front), last);
      MonitorRun(d, front, now);
      RunKeeps(d, front, now);
      StepMonitor(Run(d, front), last);
      NetworkRuns.RunConcat(d.net, before, part);
      PartClock(Run(d, front), last, ClockAfter(now, front));
      NetworkRuns.ClockConcat(now, before, part);
    }
  }

  lemma {:induction false} AsksClock(queue: seq<QueuedValue>, now: real)
    ensures NetworkRuns.ClockOk(now, Asks(queue)) && NetworkRuns.ClockAfter(now, Asks(queue)) == now
  {
    if queue != [] {
      var front := Asks(queue[..|queue| - 1]);
      AsksClock(queue[..|queue| - 1], now);
      if Asks(queue) != front {
        assert Asks(queue)[..|front|] == front;
      } else {
        assert front + [] == front;
      }
    }
  }

  lemma PartClock(d: DaemonState, step: Step, now: real)
    requires step.Cycling? ==> OsOk(step.io.os, now)
    ensures NetworkRuns.ClockOk(now, MonitorPart(d, step))
    ensures NetworkRuns.ClockAfter(now, MonitorPart(d, step)) == if step.Cycling? then step.io.os.checkTime else now
  {
    hide NetworkRuns.ClockOk, NetworkRuns.ClockAfter, OsOk;
    match step
    case Cycling(io) =>
      NetworkRuns.ClockOne(now, NetworkRuns.Cycling(io.os));
      if Succeeds(d) {
        var queue := ServerModel.Cycle(d.srv, io.server).queue;
        AsksClock(queue, io.os.checkTime);
        NetworkRuns.ClockConcat(now, [NetworkRuns.Cycling(io.os)], Asks(queue));
      } else {
        assert MonitorPart(d, step) == [NetworkRuns.Cycling(io.os)];
      }
    case Configuring(setup) => NetworkRuns.ClockOne(now, setup);
    case Stopping => NetworkRuns.ClockOne(now, NetworkRuns.Stopping);
    case _ => NetworkRuns.ClockNone(now);
  }
}
