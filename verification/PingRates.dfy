/** When a device pings, and how often, over whole runs of the monitor and of the daemon. */
module PingRates {
  import opened Basics
  import opened Addresses
  import opened NetworkModel
  import opened NetworkLaws
  import opened NetworkCycle
  import opened NetworkRuns
  import opened Rates
  import ServerModel
  import DaemonModel
  import Subscriptions
  import DaemonRuns

  // The devices that get a chance to ping

  /** The device as the device management of a cycle leaves it. */
  function Managed(s: NetState, os: Os, name: string): Option<DeviceInfo> {
    match Find(s.devices, name)
    case Some(d) => if s.settings.autoManage && name !in os.names then None else Some(d)
    case None =>
      if s.settings.autoManage && name in os.names && Allowed(s, name) then Some(Added(name, os)) else None
  }

  function Added(name: string, os: Os): DeviceInfo {
    FreshDevice(name, os.hardware(name)).(mac := MacText(os.address(name)))
  }

  lemma {:induction false} AddAllFind(s: NetState, names: seq<string>, os: Os, now: real, name: string)
    requires Inv(s, now)
    ensures Find(AddAll(s, names, os).devices, name) ==
            if Find(s.devices, name).None? && name in names && Allowed(s, name) && name in s.systemNames
            then Some(Added(name, os)) else Find(s.devices, name)
  {
    hide Inv, Find;
    if names != [] {
      var front, last := names[..|names| - 1], names[|names| - 1];
      assert names == front + [last];
      AddAllFind(s, front, os, now, name);
      AddAllKeeps(s, front, os, now);
      AddDeviceFind(AddAll(s, front, os), last, os, now, name);
    }
  }

  lemma AddDeviceFind(s: NetState, last: string, os: Os, now: real, name: string)
    requires Inv(s, now)
    ensures Find(AddDevice(s, last, os).devices, name) ==
            if Find(s.devices, name).None? && name == last && Allowed(s, name) && name in s.systemNames
            then Some(Added(name, os)) else Find(s.devices, name)
  {
    hide Allowed, Find, EntryOk;
    if Allowed(s, last) && !Known(s.devices, last) && last in s.systemNames {
      FindAppend(s.devices, Added(last, os), name);
    }
  }

  lemma ManageFind(s: NetState, os: Os, now: real, name: string)
    requires Inv(s, now)
    ensures Find(Manage(s, os).devices, name) == Managed(s, os, name)
  {
    if s.settings.autoManage {
      var named := s.(systemNames := os.names);
      var gone, more := Vanished(s.devices, os.names), Unknown(s.devices, os.names);
      VanishedSpec(s.devices, os.names);
      UnknownSpec(s.devices, os.names);
      forall i | 0 <= i < |gone| ensures Known(s.devices, gone[i]) {
        assert gone[i] in gone;
        FindSpec(s.devices, gone[i]);
      }
      RemoveAllKeeps(named, gone, now);
      AddAllFind(RemoveAll(named, gone), more, os, now, name);
      FindSpec(s.devices, name);
      assert Allowed(RemoveAll(named, gone), name) == Allowed(s, name);
    }
  }

  lemma {:induction false} MaintainEach(s: NetState, k: nat, os: Os)
    requires k <= |s.devices|
    ensures Maintain(s, k, os).settings == s.settings
    ensures forall i :: 0 <= i < |s.devices| ==>
              Maintain(s, k, os).devices[i] ==
              if i < k && s.settings.controlOpen then Refreshed(s.devices[i], os) else s.devices[i]
  {
    hide Refreshed, Differences;
    if k > 0 {
      MaintainEach(s, k - 1, os);
    }
  }

  /** The device as it is when it gets its chance to ping: managed, then with the system's flags and addresses. */
  lemma SettledFind(s: NetState, os: Os, now: real, name: string)
    requires Inv(s, now) && OsOk(os, now)
    ensures Find(Settled(s, os).devices, name) ==
            match Managed(s, os, name)
            case None => None
            case Some(d) => Some(if s.settings.controlOpen then Refreshed(d, os) else d)
  {
    var t := Detect(Begin(s), os);
    DetectKeeps(Begin(s), os, now);
    DetectSettings(Begin(s), os);
    ManageFind(t, os, os.checkTime, name);
    ManageKeeps(t, os, os.checkTime);
    ManageSettings(t, os);
    assert Allowed(t, name) == Allowed(s, name);
    MaintainFind(Manage(t, os), os, name);
  }

  lemma MaintainFind(s: NetState, os: Os, name: string)
    requires DistinctNames(s.devices)
    ensures Find(Maintain(s, |s.devices|, os).devices, name) ==
            match Find(s.devices, name)
            case None => None
            case Some(d) => Some(if s.settings.controlOpen then Refreshed(d, os) else d)
  {
    var after := Maintain(s, |s.devices|, os).devices;
    MaintainEach(s, |s.devices|, os);
    FindSpec(s.devices, name);
    FindSpec(after, name);
    if Find(s.devices, name).Some? {
      var i :| 0 <= i < |s.devices| && s.devices[i].name == name && Find(s.devices, name) == Some(s.devices[i]);
      FindAt(after, i);
    }
  }

  lemma SettledInv(s: NetState, os: Os, now: real)
    requires Inv(s, now) && OsOk(os, now)
    ensures Inv(Settled(s, os), os.checkTime)
  {
    var t := Detect(Begin(s), os);
    DetectKeeps(Begin(s), os, now);
    ManageKeeps(t, os, os.checkTime);
    MaintainKeeps(Manage(t, os), |Manage(t, os).devices|, os, os.checkTime);
  }

  lemma PingsFind(devices: seq<DeviceInfo>, os: Os, interval: real, name: string, pinged: seq<DeviceInfo>)
    requires pinged == Pings(devices, os, interval) && DistinctNames(pinged)
    ensures Find(pinged, name) == match Find(devices, name)
                                  case None => None
                                  case Some(d) => Some(Pinged(d, os.start, interval, os.address(d.name)))
  {
    FindSpec(devices, name);
    FindSpec(pinged, name);
    if Find(devices, name).Some? {
      var i :| 0 <= i < |devices| && devices[i].name == name && Find(devices, name) == Some(devices[i]);
      FindAt(pinged, i);
    }
  }

  lemma {:induction false} BroadcastersSpec(devices: seq<DeviceInfo>, start: real, interval: real, name: string)
    requires DistinctNames(devices)
    ensures name in Broadcasters(devices, start, interval) <==>
            Find(devices, name).Some? && Broadcasts(Find(devices, name).value, start, interval)
  {
    if devices != [] {
      var front, last := devices[..|devices| - 1], devices[|devices| - 1];
      BroadcastersSpec(front, start, interval, name);
      assert devices == front + [last];
      FindSpec(front, last.name);
      FindAppend(front, last, name);
    }
  }

  /** After a cycle every device has the timer that its chance to ping left it, and pings were broadcast on exactly
      the devices whose timer and addresses allowed it. */
  lemma CyclePings(s: NetState, os: Os, now: real, name: string)
    requires Inv(s, now) && OsOk(os, now)
    ensures var settled, after := Find(Settled(s, os).devices, name), Find(NetworkModel.Cycle(s, os).devices, name);
            && after.Some? == settled.Some?
            && (settled.Some? ==>
                  after.value.pingLastSent ==
                  if PingDue(settled.value, os.start, s.settings.pingInterval) then os.start
                  else settled.value.pingLastSent)
            && (name in Broadcasting(s, os) <==>
                  settled.Some? && Broadcasts(settled.value, os.start, s.settings.pingInterval))
  {
    SettledSettings(s, os);
    var t := Settled(s, os);
    SettledInv(s, os, now);
    NetworkRuns.CycleKeeps(s, os, now);
    PingsFind(t.devices, os, t.settings.pingInterval, name, NetworkModel.Cycle(s, os).devices);
    BroadcastersSpec(t.devices, os.start, t.settings.pingInterval, name);
  }

  /** Exactly when a cycle broadcasts a ping on a device, told from the state before it: a known device must not vanish,
      its interval must have passed and its addresses must be known or readable; an unknown one must be added, with
      readable addresses, and its timer starts from zero. */
  lemma PingsExactly(s: NetState, os: Os, now: real, name: string)
    requires Inv(s, now) && OsOk(os, now)
    ensures name in Broadcasting(s, os) <==>
            match Find(s.devices, name)
            case Some(d) =>
              && (s.settings.autoManage ==> name in os.names)
              && os.start >= d.pingLastSent + s.settings.pingInterval
              && (s.settings.controlOpen || (d.ip != "" && d.broadcastIp != ""))
            case None =>
              && s.settings.autoManage && name in os.names && Allowed(s, name) && s.settings.controlOpen
              && os.start >= s.settings.pingInterval
  {
    hide Inv, OsOk, Settled, Broadcasting, NetworkModel.Cycle, Allowed, IpText;
    CyclePings(s, os, now, name);
    SettledFind(s, os, now, name);
    IpTextSome(os.ip(name));
    IpTextSome(os.broadcastIp(name));
    FindSpec(s.devices, name);
  }

  lemma IpTextSome(ip: Ip)
    ensures IpText(ip) != ""
  {
  }

  // Runs of the monitor

  predicate PingsOn(s: NetState, step: Step, name: string) {
    step.Cycling? && name in Broadcasting(s, step.os)
  }

  /** The times at which a run of the monitor broadcast pings on a device. */
  function PingTimes(s: NetState, steps: seq<Step>, name: string): seq<real> {
    if steps == [] then []
    else
      var front, last := steps[..|steps| - 1], steps[|steps| - 1];
      PingTimes(s, front, name) + (if PingsOn(Run(s, front), last, name) then [last.os.start] else [])
  }

  /** The device was unknown at some point after its last ping. */
  predicate LostSince(s: NetState, steps: seq<Step>, name: string) {
    if steps == [] then !Known(s.devices, name)
    else
      var front, last := steps[..|steps| - 1], steps[|steps| - 1];
      !Known(Run(s, steps).devices, name) || (LostSince(s, front, name) && !PingsOn(Run(s, front), last, name))
  }

  /** No ping is the first one of a device that came back, less than an interval after its last ping before it went. */
  predicate NoEarlyReturn(s: NetState, steps: seq<Step>, name: string) {
    steps == [] ||
    var front, last := steps[..|steps| - 1], steps[|steps| - 1];
    var times := PingTimes(s, front, name);
    && NoEarlyReturn(s, front, name)
    && (PingsOn(Run(s, front), last, name) && LostSince(s, front, name) && times != [] ==>
          last.os.start - times[|times| - 1] >= s.settings.pingInterval)
  }

  predicate FixedInterval(steps: seq<Step>, interval: real) {
    forall i :: 0 <= i < |steps| && steps[i].Tuning? ==> steps[i].settings.pingInterval == interval
  }

  lemma StepInterval(s: NetState, step: Step)
    requires step.Tuning? ==> step.settings.pingInterval == s.settings.pingInterval
    ensures Perform(s, step).settings.pingInterval == s.settings.pingInterval
  {
    match step
    case Cycling(os) => CyclePolicy(s, os);
    case AddingPattern(p) =>
      var listed := s.(patterns := s.patterns + [p]);
      RemoveAllSettings(listed, Banned(listed, s.devices));
    case _ =>
  }

  /** The timer of a device that stays is moved by cycles only, to their start. */
  lemma StepTimer(s: NetState, step: Step, now: real, name: string)
    requires Inv(s, now) && (step.Cycling? ==> OsOk(step.os, now))
    requires Known(s.devices, name) && Known(Perform(s, step).devices, name)
    ensures var before, after := Find(s.devices, name).value, Find(Perform(s, step).devices, name).value;
            after.pingLastSent == before.pingLastSent || (step.Cycling? && after.pingLastSent == step.os.start)
  {
    match step
    case Cycling(os) =>
      hide Settled, NetworkModel.Cycle, Broadcasting;
      CyclePings(s, os, now, name);
      SettledFind(s, os, now, name);
    case AddingPattern(p) =>
      hide AddPattern;
      AddPatternKeeps(s, p, now);
    case _ =>
  }

  lemma StartsLater(os: Os, now: real)
    requires OsOk(os, now)
    ensures now <= os.start <= os.checkTime
  {
    assert os.start <= os.reading(0).at <= os.checkTime;
  }

  lemma {:induction false} TimerFollows(s: NetState, steps: seq<Step>, now: real, name: string)
    requires Inv(s, now) && ClockOk(now, steps) && FixedInterval(steps, s.settings.pingInterval)
    ensures var times, t := PingTimes(s, steps, name), Run(s, steps);
            && Inv(t, ClockAfter(now, steps)) && t.settings.pingInterval == s.settings.pingInterval
            && (times != [] ==> times[|times| - 1] <= ClockAfter(now, steps))
            && (!LostSince(s, steps, name) ==> Known(t.devices, name))
            && (!LostSince(s, steps, name) && times != [] ==>
                  Find(t.devices, name).value.pingLastSent >= times[|times| - 1])
  {
    hide Inv, OsOk, Perform, Broadcasting, Find;
    if steps != [] {
      var front, last := steps[..|steps| - 1], steps[|steps| - 1];
      var t, clock := Run(s, front), ClockAfter(now, front);
      TimerFollows(s, front, now, name);
      NetworkRuns.StepKeeps(t, last, clock);
      StepInterval(t, last);
      if last.Cycling? {
        StartsLater(last.os, clock);
        if PingsOn(t, last, name) { PingTimer(t, last.os, clock, name); }
      }
      if Known(t.devices, name) && Known(Run(s, steps).devices, name) { StepTimer(t, last, clock, name); }
      if !PingsOn(t, last, name) { assert PingTimes(s, steps, name) == PingTimes(s, front, name); }
    }
  }

  /** A ping restarts the timer and comes at least an interval after the timer. */
  lemma PingTimer(s: NetState, os: Os, now: real, name: string)
    requires Inv(s, now) && OsOk(os, now) && name in Broadcasting(s, os)
    ensures Known(Perform(s, Cycling(os)).devices, name)
    ensures Find(Perform(s, Cycling(os)).devices, name).value.pingLastSent == os.start
    ensures Known(s.devices, name) ==>
              os.start >= Find(s.devices, name).value.pingLastSent + s.settings.pingInterval
  {
    hide Settled, NetworkModel.Cycle, Broadcasting, Find, Inv, OsOk;
    CyclePings(s, os, now, name);
    PingsExactly(s, os, now, name);
  }

  /** Exactly when the pings of a device are an interval apart: never does a returned device ping too early. */
  lemma {:induction false} SpacedExactly(s: NetState, steps: seq<Step>, now: real, name: string)
    requires Inv(s, now) && ClockOk(now, steps) && FixedInterval(steps, s.settings.pingInterval)
    ensures Spaced(PingTimes(s, steps, name), s.settings.pingInterval, false) <==> NoEarlyReturn(s, steps, name)
  {
    hide Spaced, Inv, OsOk, Perform, Broadcasting, Find, LostSince;
    if steps == [] {
      NothingSpaced(s.settings.pingInterval, false);
    } else {
      var front, last := steps[..|steps| - 1], steps[|steps| - 1];
      var times := PingTimes(s, front, name);
      SpacedExactly(s, front, now, name);
      TimerFollows(s, front, now, name);
      if PingsOn(Run(s, front), last, name) {
        PingTimer(Run(s, front), last.os, ClockAfter(now, front), name);
        SpacedAppend(times, last.os.start, s.settings.pingInterval, false);
      } else {
        assert times + [] == times;
      }
    }
  }

  /** Ping rate: over any run of the monitor with one interval, n ping broadcasts on a device that never returns too
      early take at least n - 1 intervals. */
  lemma PingRate(s: NetState, steps: seq<Step>, now: real, name: string)
    requires Inv(s, now) && ClockOk(now, steps) && FixedInterval(steps, s.settings.pingInterval)
    requires NoEarlyReturn(s, steps, name)
    ensures var times := PingTimes(s, steps, name);
            times != [] ==> times[|times| - 1] - times[0] >= (|times| - 1) as real * s.settings.pingInterval
  {
    hide *;
    SpacedExactly(s, steps, now, name);
    if PingTimes(s, steps, name) != [] {
      SpacedSpan(PingTimes(s, steps, name), s.settings.pingInterval, false);
    }
  }

  // Devices that stay

  /** The step does not take the device away. */
  predicate Remains(s: NetState, step: Step, name: string) {
    Known(s.devices, name) ==>
      match step
      case Cycling(os) => s.settings.autoManage ==> name in os.names
      case AddingPattern(p) => Allowed(s.(patterns := s.patterns + [p]), name)
      case _ => true
  }

  /** Once the device is known it stays. */
  predicate Stays(s: NetState, steps: seq<Step>, name: string) {
    steps == [] ||
    (Stays(s, steps[..|steps| - 1], name) && Remains(Run(s, steps[..|steps| - 1]), steps[|steps| - 1], name))
  }

  lemma StepKnown(s: NetState, step: Step, now: real, name: string)
    requires Inv(s, now) && (step.Cycling? ==> OsOk(step.os, now)) && Remains(s, step, name)
    ensures Known(s.devices, name) ==> Known(Perform(s, step).devices, name)
  {
    match step
    case Cycling(os) => CycleDevices(s, os, now);
    case AddingPattern(p) =>
      AddPatternKeeps(s, p, now);
      var listed := s.(patterns := s.patterns + [p]);
      RemoveAllSettings(listed, Banned(listed, s.devices));
    case _ =>
  }

  /** A device that stays does not return. */
  lemma {:induction false} StaysNeverReturns(s: NetState, steps: seq<Step>, now: real, name: string)
    requires Inv(s, now) && ClockOk(now, steps) && FixedInterval(steps, s.settings.pingInterval) &&
            Stays(s, steps, name)
    ensures NoEarlyReturn(s, steps, name)
    ensures PingTimes(s, steps, name) != [] ==> !LostSince(s, steps, name)
  {
    hide Inv, OsOk, Perform, Broadcasting, Find, Remains;
    if steps != [] {
      var front, last := steps[..|steps| - 1], steps[|steps| - 1];
      var t, clock := Run(s, front), ClockAfter(now, front);
      StaysNeverReturns(s, front, now, name);
      TimerFollows(s, front, now, name);
      StepKnown(t, last, clock, name);
      if PingsOn(t, last, name) { PingTimer(t, last.os, clock, name); }
    }
  }

  // Devices that return

  /** Exactly when a device that is unknown before a cycle, and pinged last at a time before it went, breaks the
      rate. */
  lemma ReturnBreaks(s: NetState, os: Os, now: real, name: string, last: real)
    requires Inv(s, now) && OsOk(os, now) && !Known(s.devices, name)
    ensures name in Broadcasting(s, os) && os.start - last < s.settings.pingInterval <==>
            && s.settings.autoManage && s.settings.controlOpen && name in os.names && Allowed(s, name)
            && s.settings.pingInterval <= os.start < last + s.settings.pingInterval
  {
    hide Broadcasting, Inv, OsOk, Allowed;
    PingsExactly(s, os, now, name);
  }

  /** "eth0" is added and pings at 100 seconds, is gone at 101, is back at 102 and pings again: the interval is 10. */
  lemma PingsTwice(s: NetState, now: real, one: Os, two: Os, three: Os)
    requires Inv(s, now) && s.devices == [] && Allowed(s, "eth0")
    requires s.settings.autoManage && s.settings.controlOpen && s.settings.pingInterval == 10.0
    requires OsOk(one, now) && OsOk(two, one.checkTime) && OsOk(three, two.checkTime)
    requires one.start == 100.0 && two.start == 101.0 && three.start == 102.0
    requires one.names == ["eth0"] && two.names == [] && three.names == ["eth0"]
    ensures var steps := [Cycling(one), Cycling(two), Cycling(three)];
            && PingTimes(s, steps, "eth0") == [100.0, 102.0]
            && !NoEarlyReturn(s, steps, "eth0")
  {
    hide Inv, OsOk, NetworkModel.Cycle, Broadcasting, Allowed, NoEarlyReturn, LostSince;
    var t, u := NetworkModel.Cycle(s, one), NetworkModel.Cycle(NetworkModel.Cycle(s, one), two);
    PingsExactly(s, one, now, "eth0");
    CycleDevices(s, one, now);
    CycleKeeps(s, one, now);
    CyclePolicy(s, one);
    PingsExactly(t, two, one.checkTime, "eth0");
    CycleDevices(t, two, one.checkTime);
    CycleKeeps(t, two, one.checkTime);
    CyclePolicy(t, two);
    PingsExactly(u, three, two.checkTime, "eth0");
    ThreePings(s, one, two, three, "eth0");
    var times := PingTimes(s, [Cycling(one), Cycling(two), Cycling(three)], "eth0");
    ClockOfThree(now, one, two, three);
    SpacedExactly(s, [Cycling(one), Cycling(two), Cycling(three)], now, "eth0");
    assert times[0 + 1] - times[0] < 10.0;
  }

  lemma ThreePings(s: NetState, one: Os, two: Os, three: Os, name: string)
    ensures var t := NetworkModel.Cycle(s, one);
            PingTimes(s, [Cycling(one), Cycling(two), Cycling(three)], name) ==
            (if name in Broadcasting(s, one) then [one.start] else []) +
            (if name in Broadcasting(t, two) then [two.start] else []) +
            (if name in Broadcasting(NetworkModel.Cycle(t, two), three) then [three.start] else [])
  {
    hide NetworkModel.Cycle, Broadcasting;
    var x, y, z := Cycling(one), Cycling(two), Cycling(three);
    assert [x, y, z][..2] == [x, y] && [x, y][..1] == [x] && [x][..0] == [];
    RunOne(s, x);
    assert Run(s, [x, y]) == Perform(Run(s, [x]), y);
    assert PingTimes(s, [x], name) == if name in Broadcasting(s, one) then [one.start] else [];
    assert PingTimes(s, [x, y], name) == PingTimes(s, [x], name) +
                                         if PingsOn(Run(s, [x]), y, name) then [two.start] else [];
  }

  lemma ClockOfThree(now: real, one: Os, two: Os, three: Os)
    requires OsOk(one, now) && OsOk(two, one.checkTime) && OsOk(three, two.checkTime)
    ensures ClockOk(now, [Cycling(one), Cycling(two), Cycling(three)])
  {
    hide OsOk;
    var x, y, z := Cycling(one), Cycling(two), Cycling(three);
    ClockOne(now, x);
    ClockOne(one.checkTime, y);
    ClockOne(two.checkTime, z);
    ClockConcat(now, [x], [y]);
    ClockConcat(now, [x] + [y], [z]);
    assert [x] + [y] + [z] == [x, y, z];
  }

  // Runs of the daemon

  /** The times at which a run of the daemon broadcast pings on a device. */
  function DaemonPingTimes(d: DaemonModel.DaemonState, steps: seq<DaemonRuns.Step>, name: string): seq<real> {
    if steps == [] then []
    else
      var front, last := steps[..|steps| - 1], steps[|steps| - 1];
      DaemonPingTimes(d, front, name) +
      (if last.Cycling? && name in Broadcasting(DaemonRuns.Run(d, front).net, last.io.os)
       then [last.io.os.start] else [])
  }

  /** The step of the daemon does not take the device away, and leaves the ping interval as it is. */
  predicate StepKeepsDevice(d: DaemonModel.DaemonState, step: DaemonRuns.Step, name: string, interval: real) {
    match step
    case Cycling(io) => Remains(d.net, Cycling(io.os), name)
    case Configuring(setup) =>
      Remains(d.net, setup, name) && (setup.Tuning? ==> setup.settings.pingInterval == interval)
    case _ => true
  }

  predicate DaemonKeeps(d: DaemonModel.DaemonState, steps: seq<DaemonRuns.Step>, name: string) {
    steps == [] ||
    (DaemonKeeps(d, steps[..|steps| - 1], name) &&
     StepKeepsDevice(DaemonRuns.Run(d, steps[..|steps| - 1]), steps[|steps| - 1], name, d.net.settings.pingInterval))
  }

  lemma {:induction false} PingTimesConcat(s: NetState, x: seq<Step>, y: seq<Step>, name: string)
    ensures PingTimes(s, x + y, name) == PingTimes(s, x, name) + PingTimes(Run(s, x), y, name)
    ensures Stays(s, x + y, name) <==> Stays(s, x, name) && Stays(Run(s, x), y, name)
  {
    hide PingsOn, Perform, Remains;
    if y == [] {
      assert x + y == x;
    } else {
      var front := y[..|y| - 1];
      PingTimesConcat(s, x, front, name);
      assert (x + y)[..|x + y| - 1] == x + front && (x + y)[|x + y| - 1] == y[|y| - 1];
      RunConcat(s, x, front);
    }
  }

  lemma {:induction false} AsksPings(s: NetState, queue: seq<ServerModel.QueuedValue>, name: string, interval: real)
    ensures PingTimes(s, DaemonRuns.Asks(queue), name) == [] && Stays(s, DaemonRuns.Asks(queue), name)
    ensures FixedInterval(DaemonRuns.Asks(queue), interval)
  {
    hide Run, Broadcasting, Known, Allowed;
    if queue != [] {
      var front, asks := DaemonRuns.Asks(queue[..|queue| - 1]), DaemonRuns.Asks(queue);
      AsksPings(s, queue[..|queue| - 1], name, interval);
      if asks != front {
        assert asks[..|asks| - 1] == front && asks[|asks| - 1].Asking?;
      }
    }
  }

  lemma OnePing(s: NetState, step: Step, name: string)
    ensures PingTimes(s, [step], name) == if PingsOn(s, step, name) then [step.os.start] else []
    ensures Stays(s, [step], name) <==> Remains(s, step, name)
  {
    hide PingsOn, Remains;
    var none: seq<Step> := [];
    assert [step][..0] == none;
    assert PingTimes(s, none, name) == [] && Stays(s, none, name) && Run(s, none) == s;
  }

  lemma PartPings(d: DaemonModel.DaemonState, step: DaemonRuns.Step, name: string, interval: real)
    requires StepKeepsDevice(d, step, name, interval)
    ensures var part := DaemonRuns.MonitorPart(d, step);
            && Stays(d.net, part, name) && FixedInterval(part, interval)
            && PingTimes(d.net, part, name) ==
               if step.Cycling? && name in Broadcasting(d.net, step.io.os) then [step.io.os.start] else []
  {
    assert Remains(d.net, Stopping, name);
    hide Broadcasting, Remains, NetworkModel.Cycle, ServerModel.Cycle, Run, Stays, PingTimes;
    match step
    case Cycling(io) =>
      OnePing(d.net, Cycling(io.os), name);
      if DaemonModel.Succeeds(d) {
        CyclePart(d, io, name, interval);
      } else {
        assert DaemonRuns.MonitorPart(d, step) == [Cycling(io.os)];
      }
    case Configuring(setup) => OnePing(d.net, setup, name);
    case Stopping => OnePing(d.net, Stopping, name);
    case _ => NoPing(d.net, name);
  }

  lemma NoPing(s: NetState, name: string)
    ensures PingTimes(s, [], name) == [] && Stays(s, [], name)
  {
  }

  lemma CyclePart(d: DaemonModel.DaemonState, io: DaemonModel.DaemonIo, name: string, interval: real)
    requires Stays(d.net, [Cycling(io.os)], name)
    ensures var asks := DaemonRuns.Asks(ServerModel.Cycle(d.srv, io.server).queue);
            && Stays(d.net, [Cycling(io.os)] + asks, name) && FixedInterval([Cycling(io.os)] + asks, interval)
            && PingTimes(d.net, [Cycling(io.os)] + asks, name) == PingTimes(d.net, [Cycling(io.os)], name)
  {
    hide Stays, PingTimes, ServerModel.Cycle, Run;
    var queue := ServerModel.Cycle(d.srv, io.server).queue;
    AsksPings(Run(d.net, [Cycling(io.os)]), queue, name, interval);
    PingTimesConcat(d.net, [Cycling(io.os)], DaemonRuns.Asks(queue), name);
  }

  /** The pings of a daemon are those of the run that its monitor goes through. */
  lemma {:induction false} DaemonPings(d: DaemonModel.DaemonState, steps: seq<DaemonRuns.Step>, now: real, name: string)
    requires Subscriptions.DaemonOk(d) && Inv(d.net, now) && DaemonRuns.ClockOk(now, steps)
    requires DaemonKeeps(d, steps, name)
    ensures var monitor := DaemonRuns.MonitorSteps(d, steps);
            && PingTimes(d.net, monitor, name) == DaemonPingTimes(d, steps, name)
            && Stays(d.net, monitor, name) && FixedInterval(monitor, d.net.settings.pingInterval)
  {
    hide Subscriptions.DaemonOk, Inv, OsOk, DaemonRuns.Perform, DaemonRuns.MonitorPart, Broadcasting, StepKeepsDevice;
    if steps != [] {
      var front, last := steps[..|steps| - 1], steps[|steps| - 1];
      var t := DaemonRuns.Run(d, front);
      DaemonPings(d, front, now, name);
      DaemonRuns.MonitorRun(d, front, now);
      PartPings(t, last, name, d.net.settings.pingInterval);
      PingTimesConcat(d.net, DaemonRuns.MonitorSteps(d, front), DaemonRuns.MonitorPart(t, last), name);
    }
  }

  /** Ping rate of a daemon: n broadcasts on a device that stays take at least n - 1 intervals, over any run. */
  lemma DaemonPingRate(d: DaemonModel.DaemonState, steps: seq<DaemonRuns.Step>, now: real, name: string)
    requires Subscriptions.DaemonOk(d) && Inv(d.net, now) && DaemonRuns.ClockOk(now, steps)
    requires DaemonKeeps(d, steps, name)
    ensures var times := DaemonPingTimes(d, steps, name);
            times != [] ==> times[|times| - 1] - times[0] >= (|times| - 1) as real * d.net.settings.pingInterval
  {
    hide *;
    DaemonPings(d, steps, now, name);
    DaemonRuns.MonitorRun(d, steps, now);
    StaysNeverReturns(d.net, DaemonRuns.MonitorSteps(d, steps), now, name);
    PingRate(d.net, DaemonRuns.MonitorSteps(d, steps), now, name);
  }
}
