/** The client mirror stated on what happens from outside: which clients keep following, and so hold the tables. */
module Subscribers {
  import opened Basics
  import opened Addresses
  import opened NetworkModel
  import opened NetworkLaws
  import opened NetworkCycle
  import NetworkRuns
  import PingRates
  import opened ServerModel
  import opened DaemonModel
  import opened Subscriptions
  import opened DaemonRuns
  import opened ServingNumbers
  import opened Mirrors

  predicate AsksToDisable(q: QueuedValue, client: nat) {
    q.client == client && q.value.content == "disable-stream"
  }

  /** In this cycle the connection does not break; a client that follows the addresses on a device switches no stream
      off, and the system has the device. */
  predicate CalmCycle(io: DaemonIo, client: nat, subject: Subject) {
    && !io.server.incoming(client).Lost?
    && (subject.MacsOf? ==>
          && (io.server.incoming(client).Got? ==> io.server.incoming(client).value.content != "disable-stream")
          && subject.device in io.os.names)
  }

  /** Nothing in the step makes the client lose the subject. */
  ghost predicate Calm(d: DaemonState, step: Step, client: nat, subject: Subject) {
    match step
    case Cycling(io) => CalmCycle(io, client, subject)
    case Configuring(setup) => !setup.Stopping? && (setup.AddingPattern? ==> Unharmed(d.net, setup.pattern, subject))
    case Stopping => false
    case _ => true
  }

  /** A request other than disable-stream ends no stream, and a disable-stream request only its sender's. */
  lemma HandleEnds(d: DaemonState, q: QueuedValue, io: DaemonIo, s: Stream)
    requires DistinctStreams(d.streams) && s in d.streams && !AsksToDisable(q, s.client)
    ensures s in Handle(d, q, io).streams
  {
    DisableStreamSpec(d.streams, q.client, ServingById(d.srv.servings, q.serving).device);
  }

  lemma {:induction false} HandleAllEnds(d: DaemonState, queue: seq<QueuedValue>, io: DaemonIo, s: Stream)
    requires DistinctStreams(d.streams) && s in d.streams
    requires forall q :: q in queue ==> !AsksToDisable(q, s.client)
    ensures s in HandleAll(d, queue, io).streams
  {
    hide Handle;
    if queue != [] {
      var front, last := queue[..|queue| - 1], queue[|queue| - 1];
      HandleAllEnds(d, front, io, s);
      HandleAllKeeps(d, front, io);
      HandleEnds(HandleAll(d, front, io), last, io, s);
    }
  }

  /** What the server read from an earlier connection that did not break. */
  lemma ConnectionRead(s: ServerState, io: ServerIo, client: nat)
    requires ServerOk(s) && s.run && s.queue == [] && s.removed == []
    requires Connected(s.served, client) && !io.incoming(client).Lost?
    ensures client !in ServerModel.Cycle(s, io).removed
    ensures forall q :: q in ServerModel.Cycle(s, io).queue && q.client == client ==>
            io.incoming(client) == Got(q.value)
    ensures io.incoming(client).Got? ==>
              exists i :: 0 <= i < |ServerModel.Cycle(s, io).queue| &&
                          ServerModel.Cycle(s, io).queue[i].client == client &&
                          ServerModel.Cycle(s, io).queue[i].value == io.incoming(client).value
  {
    var kept, t := Listen(s, io), ServerModel.Cycle(s, io);
    ListenKeeps(s, io);
    ReadAllKeeps(kept, io);
    if io.incoming(client).Got? {
      var k :| 0 <= k < |s.served| && s.served[k].0 == client;
      assert kept.served[k] == s.served[k];
      var q := QueuedValue(io.incoming(client).value, client, s.served[k].1);
      assert q in t.queue;
    }
  }

  /** A stream lasts over every cycle in which the connection does not break, the client switches no stream off and
      the system has the device. */
  lemma StreamLasts(d: DaemonState, io: DaemonIo, client: nat, device: string)
    requires DaemonOk(d) && Succeeds(d) && Stream(client, device) in d.streams && CalmCycle(io, client, MacsOf(device))
    requires DistinctNames(d.net.devices)
    ensures Stream(client, device) in DaemonModel.Cycle(d, io).streams
  {
    var s := Stream(client, device);
    assert Connected(d.srv.served, s.client);
    ConnectionRead(d.srv, io.server, client);
    ServerModel.CycleKeeps(d.srv, io.server);
    var srv := ServerModel.Cycle(d.srv, io.server);
    WithoutClientsSpec(d.streams, srv.removed);
    HandleAllEnds(Prepared(d, io), srv.queue, io, s);
    ServedKeeps(d, io);
    var events := Served(d, io).net.events;
    if DeviceRemoved(device) in events {
      RemovalReason(d.net, io.os, device);
      VanishedSpec(d.net.devices, io.os.names);
      assert false;
    }
    RouteAllKeeps(Served(d, io), events, io);
  }

  /** A connection lasts over every cycle in which it does not break. */
  lemma ConnectionLasts(d: DaemonState, io: DaemonIo, client: nat)
    requires DaemonOk(d) && Succeeds(d) && Connected(d.srv.served, client) && !io.server.incoming(client).Lost?
    ensures Connected(DaemonModel.Cycle(d, io).srv.served, client)
  {
    hide NetworkModel.Cycle;
    ConnectionRead(d.srv, io.server, client);
    ServerModel.CycleKeeps(d.srv, io.server);
    ServedKeeps(d, io);
    RouteAllKeeps(Served(d, io), Served(d, io).net.events, io);
  }

  lemma CalmStep(d: DaemonState, step: Step, client: nat, subject: Subject)
    requires DaemonOk(d) && Succeeds(d) && DistinctNames(d.net.devices)
    requires Attends(d, client, subject) && Calm(d, step, client, subject)
    ensures Attends(Perform(d, step), client, subject) && Succeeds(Perform(d, step))
    ensures Connected(Perform(d, step).srv.served, client)
    ensures Heeds(d, step, client, subject)
  {
    hide DaemonModel.Cycle, NetworkModel.Cycle, DaemonOk;
    KnownConnection(d, client, subject);
    if step.Cycling? {
      ConnectionLasts(d, step.io, client);
      StillRunning(d, step.io);
      if subject.MacsOf? { StreamLasts(d, step.io, client, subject.device); }
    } else if step.Configuring? && step.setup.AddingPattern? {
      PatternKeepsRunning(d.net, step.setup.pattern);
    }
  }

  lemma PatternKeepsRunning(s: NetState, pattern: string)
    ensures AddPattern(s, pattern).shouldRun == s.shouldRun
  {
    var listed := s.(patterns := s.patterns + [pattern]);
    RemoveAllSettings(listed, Banned(listed, s.devices));
  }

  ghost predicate AllCalm(d: DaemonState, steps: seq<Step>, client: nat, subject: Subject) {
    forall k :: 0 <= k < |steps| ==> Calm(Before(d, steps, k), steps[k], client, subject)
  }

  lemma {:induction false} AttendsThroughout(d: DaemonState, steps: seq<Step>, now: real, client: nat,
                                             subject: Subject, k: nat)
    requires DaemonOk(d) && Inv(d.net, now) && ClockOk(now, steps) && k <= |steps|
    requires Succeeds(d) && Attends(d, client, subject) && AllCalm(d, steps, client, subject)
    ensures Attends(Before(d, steps, k), client, subject) && Succeeds(Before(d, steps, k))
    ensures k < |steps| ==> Heeds(Before(d, steps, k), steps[k], client, subject)
    ensures DaemonOk(Before(d, steps, k))
  {
    hide DaemonOk, OsOk, Calm, Perform, Succeeds, Attends, Heeds;
    var t := Before(d, steps, k);
    assert steps[..0] == [];
    if k > 0 {
      AttendsThroughout(d, steps, now, client, subject, k - 1);
      ClockOkPrefix(now, steps, k - 1);
      RunKeeps(d, steps[..k - 1], now);
      CalmStep(Before(d, steps, k - 1), steps[k - 1], client, subject);
      assert steps[..k][..k - 1] == steps[..k - 1];
    }
    ClockOkPrefix(now, steps, k);
    RunKeeps(d, steps[..k], now);
    if k < |steps| { CalmStep(t, steps[k], client, subject); }
  }

  lemma {:induction false} ClockOkPrefix(now: real, steps: seq<Step>, k: nat)
    requires ClockOk(now, steps) && k <= |steps|
    ensures ClockOk(now, steps[..k])
    decreases |steps|
  {
    if k == |steps| {
      assert steps[..k] == steps;
    } else {
      ClockOkPrefix(now, steps[..|steps| - 1], k);
      assert steps[..|steps| - 1][..k] == steps[..k];
    }
  }

  /** The client asks for the table in this step. */
  predicate AsksIn(step: Step, client: nat, subject: Subject) {
    && step.Cycling? && step.io.server.incoming(client).Got?
    && step.io.server.incoming(client).value.content == Question(subject)
  }

  lemma AskedFirst(d: DaemonState, step: Step, client: nat, subject: Subject)
    requires DaemonOk(d) && Succeeds(d) && Connected(d.srv.served, client) && AsksIn(step, client, subject)
    ensures Asked(ServerModel.Cycle(d.srv, step.io.server).queue, client, subject)
  {
    ConnectionRead(d.srv, step.io.server, client);
    var queue := ServerModel.Cycle(d.srv, step.io.server).queue;
    var i :| 0 <= i < |queue| && queue[i].client == client && queue[i].value == step.io.server.incoming(client).value;
    assert AsksFor(queue[i], client, subject);
  }

  /** Such a client is one that the mirror theorem is about. */
  lemma WatchesWhenCalm(d: DaemonState, steps: seq<Step>, now: real, client: nat, subject: Subject)
    requires DaemonOk(d) && Inv(d.net, now) && ClockOk(now, steps) && 0 < |steps|
    requires Succeeds(d) && Attends(d, client, subject) && AsksIn(steps[0], client, subject)
    requires AllCalm(d, steps, client, subject)
    ensures Watches(d, steps, client, subject)
  {
    hide DaemonOk, OsOk, Inv, Perform, Succeeds, Attends, Heeds, AllCalm;
    forall k | 0 <= k <= |steps|
      ensures Attends(Before(d, steps, k), client, subject)
      ensures k < |steps| ==> Heeds(Before(d, steps, k), steps[k], client, subject)
    {
      AttendsThroughout(d, steps, now, client, subject, k);
    }
    KnownConnection(d, client, subject);
    AskedFirst(d, steps[0], client, subject);
  }

  /** A client that asks for the device names, or is subscribed to a device and asks for its addresses, and stays
      connected and switches nothing off, holds exactly the monitor's table after every step of a run in which the
      system keeps the device and no pattern takes anything from the table. */
  lemma SubscriberMirrors(d: DaemonState, steps: seq<Step>, now: real, client: nat, subject: Subject)
    requires DaemonOk(d) && Inv(d.net, now) && ClockOk(now, steps) && 0 < |steps|
    requires Succeeds(d) && Attends(d, client, subject) && AsksIn(steps[0], client, subject)
    requires AllCalm(d, steps, client, subject)
    ensures Synchronized(Run(d, steps), client, subject)
  {
    hide *;
    WatchesWhenCalm(d, steps, now, client, subject);
    RunMirrors(d, steps, now, client, subject);
  }

  // Such clients arise

  /** A running daemon that knows at most "eth0". */
  ghost predicate Small(d: DaemonState, now: real) {
    && DaemonOk(d) && Succeeds(d) && Inv(d.net, now) && d.net.settings.autoManage
    && forall n :: Known(d.net.devices, n) ==> n == "eth0"
  }

  lemma StaysSmall(d: DaemonState, io: DaemonIo, now: real)
    requires Small(d, now) && OsOk(io.os, now) && io.os.names == ["eth0"]
    ensures Small(DaemonModel.Cycle(d, io), io.os.checkTime)
    ensures Known(DaemonModel.Cycle(d, io).net.devices, "eth0") <==>
            Known(d.net.devices, "eth0") || Allowed(d.net, "eth0")
    ensures DeviceRemoved("eth0") !in NetworkModel.Cycle(d.net, io.os).events
  {
    hide NetworkModel.Cycle, ServerModel.Cycle, DaemonModel.Cycle, Allowed;
    DaemonRuns.CycleKeeps(d, io, now);
    MonitorAfter(d, io);
    StillRunning(d, io);
    NetworkRuns.CycleDevices(d.net, io.os, now);
    CyclePolicy(d.net, io.os);
    if DeviceRemoved("eth0") in NetworkModel.Cycle(d.net, io.os).events {
      RemovalReason(d.net, io.os, "eth0");
      VanishedSpec(d.net.devices, io.os.names);
      assert false;
    }
  }

  /** What a cycle leaves of a stream on "eth0", or of none. */
  lemma SameStreams(d: DaemonState, io: DaemonIo)
    requires DaemonOk(d) && Succeeds(d) && |Served(d, io).streams| <= 1
    requires forall s :: s in Served(d, io).streams ==> s.device == "eth0"
    requires DeviceRemoved("eth0") !in NetworkModel.Cycle(d.net, io.os).events
    ensures DaemonModel.Cycle(d, io).streams == Served(d, io).streams
  {
    hide NetworkModel.Cycle, ServerModel.Cycle;
    ServedKeeps(d, io);
    RouteAllKeeps(Served(d, io), Served(d, io).net.events, io);
    OnlyStream(Served(d, io).streams, Routed(d, io).streams);
  }

  lemma OnlyStream(x: seq<Stream>, y: seq<Stream>)
    requires |x| <= 1 && DistinctStreams(y) && forall s :: s in y <==> s in x
    ensures x == y
  {
    var none := Stream(0, "");
    var one, two := if |y| > 0 then y[0] else none, if |y| > 1 then y[1] else none;
    assert |y| > 0 ==> one in x && one == x[0];
    assert |x| > 0 ==> x[0] in y;
    assert |y| > 1 ==> two in y && two in x;
    assert |y| <= 1;
  }

  /** The device is added and the first connection is made. */
  lemma FirstCycle(d: DaemonState, io: DaemonIo, now: real)
    requires Small(d, now) && OsOk(io.os, now) && io.os.names == ["eth0"] && Allowed(d.net, "eth0") && d.streams == []
    requires d.srv.servings == [Serving(Stopped, 0, "lo", 7090)] && d.srv.served == [] && d.srv.nextClient == 0
    requires io.server.listen(0) && io.server.accept(0) == Accepted && io.server.incoming(0) == Quiet
    ensures var t := DaemonModel.Cycle(d, io);
            Small(t, io.os.checkTime) && Known(t.net.devices, "eth0") && OneClient(t.srv) && t.streams == []
  {
    hide NetworkModel.Cycle;
    FirstConnection(d.srv, io.server);
    StaysSmall(d, io, now);
    assert Prepared(d, io).streams == [];
    assert Served(d, io) == Prepared(d, io);
    SameStreams(d, io);
    ServerAfter(d, io);
  }

  /** Its request to switch on "eth0" is granted. */
  lemma SecondCycle(d: DaemonState, io: DaemonIo, now: real)
    requires Small(d, now) && OsOk(io.os, now) && io.os.names == ["eth0"] && d.streams == [] && OneClient(d.srv)
    requires io.server.accept(0) == WouldBlock && io.server.incoming(0) == Got(Ask("enable-stream", "eth0").value)
    ensures var t := DaemonModel.Cycle(d, io);
            Small(t, io.os.checkTime) && OneClient(t.srv) && t.streams == [Stream(0, "eth0")]
  {
    hide NetworkModel.Cycle, ServerModel.Cycle, Handle;
    NextRequest(d.srv, io.server);
    StaysSmall(d, io, now);
    var p, queue := Prepared(d, io), ServerModel.Cycle(d.srv, io.server).queue;
    assert p.streams == [];
    assert queue == [Ask("enable-stream", "eth0")] && queue[..0] == [];
    assert HandleAll(p, queue[..0], io) == p;
    HandleEnable(p, "eth0", io);
    assert Served(d, io) == Handle(p, queue[0], io);
    SameStreams(d, io);
    ServerAfter(d, io);
  }

  /** A frame heard in the cycle puts its sender on the device's table. */
  lemma HeardInCycle(d: DaemonState, io: DaemonIo, now: real, mac: string)
    requires Small(d, now) && OsOk(io.os, now) && io.os.names == ["eth0"] && Known(d.net.devices, "eth0")
    requires d.net.settings.maxMacAge >= 0.0 && MacAllowed(d.net, mac)
    requires HasHeader(io.os.reading(0)) && SourceMac(io.os.reading(0).buffer) == mac
    ensures mac in Table(DaemonModel.Cycle(d, io).net, MacsOf("eth0"))
  {
    hide NetworkModel.Cycle, ServerModel.Cycle, DaemonModel.Cycle, MacAllowed;
    assert |d.net.devices| > 0;
    FindAt(d.net.devices, 0);
    assert Known(d.net.devices, d.net.devices[0].name);
    NetworkRuns.HeardSurvives(d.net, 0, io.os, now);
    MonitorAfter(d, io);
    TableFact(DaemonModel.Cycle(d, io).net, MacsOf("eth0"), mac);
  }

  /** From the constructor: "eth0" is allowed and "lo" served, a client connects, switches a stream on, and a frame is
      heard. The client attends from then on, and there is something to follow. */
  lemma SubscriptionArises(matches: (string, string) -> bool, controlOpen: bool, first: DaemonIo, second: DaemonIo,
                           mac: string)
    requires matches("eth0", "eth0") && first.os.names == second.os.names == ["eth0"]
    requires OsOk(first.os, 0.0) && OsOk(second.os, first.os.checkTime)
    requires first.server.listen(0) && first.server.accept(0) == Accepted && first.server.incoming(0) == Quiet
    requires second.server.accept(0) == WouldBlock
    requires second.server.incoming(0) == Got(Ask("enable-stream", "eth0").value)
    requires HasHeader(second.os.reading(0)) && SourceMac(second.os.reading(0).buffer) == mac
    requires mac != ZERO_MAC && mac != BROADCAST_MAC && mac != MacText(first.os.address("eth0"))
    ensures var t := Run(Initial(matches, controlOpen),
                         [Configuring(NetworkRuns.AddingPattern("eth0")), Offering("lo", 7090, true, true),
                          Cycling(first), Cycling(second)]);
            && Succeeds(t) && Attends(t, 0, MacsOf("eth0")) && Attends(t, 0, Names)
            && "eth0" in Table(t.net, Names) && mac in Table(t.net, MacsOf("eth0"))
  {
    hide DaemonModel.Cycle, NetworkModel.Cycle, DaemonOk, OsOk, HasHeader, SourceMac, MacText;
    var d := Initial(matches, controlOpen);
    InitialOk(matches, controlOpen);
    var zero, one := Configuring(NetworkRuns.AddingPattern("eth0")), Offering("lo", 7090, true, true);
    var two, three := Cycling(first), Cycling(second);
    StepKeeps(d, zero, 0.0);
    var s0 := Perform(d, zero);
    assert s0.net == d.net.(patterns := ["eth0"]) by { assert [] + ["eth0"] == ["eth0"]; }
    assert "eth0" in s0.net.patterns && Allowed(s0.net, "eth0");
    StepKeeps(s0, one, 0.0);
    var s1 := Perform(s0, one);
    FirstCycle(s1, first, 0.0);
    var s2 := Perform(s1, two);
    SecondCycle(s2, second, first.os.checkTime);
    AllowedAfterFirst(s1, first, mac);
    HeardInCycle(s2, second, first.os.checkTime, mac);
    RunFour(d, zero, one, two, three);
    var t := Perform(s2, three);
    assert t.srv.served[0].0 == 0 && t.streams[0] == Stream(0, "eth0");
    StaysSmall(s2, second, first.os.checkTime);
    TableFact(t.net, Names, "eth0");
  }

  /** The only own address after the first cycle is that of "eth0". */
  lemma AllowedAfterFirst(d: DaemonState, io: DaemonIo, mac: string)
    requires DaemonOk(d) && Succeeds(d) && Inv(d.net, 0.0) && OsOk(io.os, 0.0) && io.os.names == ["eth0"]
    requires d.net.devices == [] && d.net.settings.autoManage
    requires mac != ZERO_MAC && mac != BROADCAST_MAC && mac != MacText(io.os.address("eth0"))
    ensures MacAllowed(DaemonModel.Cycle(d, io).net, mac)
    ensures DaemonModel.Cycle(d, io).net.settings == d.net.settings
  {
    hide NetworkModel.Cycle, ServerModel.Cycle, DaemonModel.Cycle, MacText;
    MonitorAfter(d, io);
    CyclePolicy(d.net, io.os);
    var devices := NetworkModel.Cycle(d.net, io.os).devices;
    forall i | 0 <= i < |devices| ensures devices[i].mac != mac {
      NetworkRuns.CycleKeeps(d.net, io.os, 0.0);
      FindAt(devices, i);
      NetworkRuns.CycleDevices(d.net, io.os, 0.0);
      assert Known(devices, devices[i].name);
      FirstAddress(d.net, io.os, 0.0, devices[i].name);
    }
  }

  /** The address of a device that the first cycle adds is the system's. */
  lemma FirstAddress(s: NetState, os: Os, now: real, name: string)
    requires Inv(s, now) && OsOk(os, now) && s.devices == [] && Known(NetworkModel.Cycle(s, os).devices, name)
    ensures Find(NetworkModel.Cycle(s, os).devices, name).value.mac == MacText(os.address(name))
  {
    hide MacText, Settled, OsOk;
    var t := Settled(s, os);
    PingRates.SettledFind(s, os, now, name);
    PingRates.SettledInv(s, os, now);
    SettledSettings(s, os);
    NetworkRuns.CycleKeeps(s, os, now);
    PingRates.PingsFind(t.devices, os, t.settings.pingInterval, name, NetworkModel.Cycle(s, os).devices);
    TextNotEmpty(os.address(name));
  }

  lemma TextNotEmpty(a: Address)
    ensures MacText(a) != ""
  {
    assert |MacText(a)| == 17;
  }

  lemma RunFour(d: DaemonState, zero: Step, one: Step, two: Step, three: Step)
    ensures Run(d, [zero, one, two, three]) == Perform(Perform(Perform(Perform(d, zero), one), two), three)
  {
    hide Perform;
    var all := [zero, one, two, three];
    assert all[..3] == [zero, one, two] && all[..3][..2] == [zero, one] && [zero, one][..1] == [zero];
    assert [zero][..0] == [] && [zero, one, two][..2] == [zero, one];
    assert Run(d, [zero]) == Perform(d, zero);
    assert Run(d, [zero, one]) == Perform(Perform(d, zero), one);
    assert Run(d, [zero, one, two]) == Perform(Perform(Perform(d, zero), one), two);
  }
}
