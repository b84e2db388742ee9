/** The monitor over whole runs: the log theorem, ageing, device management and evidence chains. */
module NetworkRuns {
  import opened Basics
  import opened Ordering
  import opened NetworkModel
  import opened EventLog
  import opened NetworkLaws
  import opened NetworkCycle

  // One cycle

  lemma CycleKeeps(s: NetState, os: Os, now: real)
    requires Inv(s, now) && OsOk(os, now)
    ensures Inv(Cycle(s, os), os.checkTime)
    ensures Logged(Begin(s), Cycle(s, os))
  {
    var t0 := Begin(s);
    var t1 := Detect(t0, os);
    var t2 := Manage(t1, os);
    var t3 := Maintain(t2, |t2.devices|, os);
    var t4 := Drop(t3, Unheard(os.start, s.settings.maxMacAge));
    DetectKeeps(t0, os, now);
    ManageKeeps(t1, os, os.checkTime);
    MaintainKeeps(t2, |t2.devices|, os, os.checkTime);
    ManageSettings(t1, os);
    HearAllSettings(t0, |t0.devices|, os);
    DropKeeps(t3, os.start, s.settings.maxMacAge, os.checkTime);
    FinishKeeps(t4, os, os.checkTime);
    LoggedTransitive(t0, t1, t2);
    LoggedTransitive(t0, t2, t3);
    LoggedTransitive(t0, t3, t4);
    LoggedTransitive(t0, t4, Finish(t4, os));
  }

  /** Every fact after a cycle is the replay of the cycle's events over the fact before; every event is a real
      change with the right former value; replaying the events over the new facts changes nothing. */
  lemma CycleLog(s: NetState, os: Os, now: real, a: Aspect)
    requires Inv(s, now) && OsOk(os, now)
    ensures var log := Cycle(s, os).events;
            && Sound(FactOf(s, a), a, log)
            && Replay(FactOf(s, a), a, log) == FactOf(Cycle(s, os), a)
            && Replay(FactOf(Cycle(s, os), a), a, log) == FactOf(Cycle(s, os), a)
  {
    CycleKeeps(s, os, now);
    var log := Cycle(s, os).events;
    assert log[|Begin(s).events|..] == log;
    assert FactOf(Begin(s), a) == FactOf(s, a);
    assert Explains(FactOf(Begin(s), a), a, log[|Begin(s).events|..], FactOf(Cycle(s, os), a));
    ReplayIdempotent(FactOf(s, a), a, log);
  }

  /** The known devices after a cycle: the system's names that were known before or are allowed; the devices known
      before when they are not managed. */
  lemma CycleDevices(s: NetState, os: Os, now: real)
    requires Inv(s, now) && OsOk(os, now)
    ensures forall n :: Known(Cycle(s, os).devices, n) <==>
                        if s.settings.autoManage then n in os.names && (Known(s.devices, n) || Allowed(s, n))
                        else Known(s.devices, n)
  {
    var t0 := Begin(s);
    var t1 := Detect(t0, os);
    var t2 := Manage(t1, os);
    DetectKeeps(t0, os, now);
    DetectSettings(t0, os);
    ManageKeeps(t1, os, os.checkTime);
    ManageSettings(t1, os);
    MaintainKeeps(t2, |t2.devices|, os, os.checkTime);
    var t4 := Drop(Settled(s, os), Unheard(os.start, s.settings.maxMacAge));
    DropKeeps(Settled(s, os), os.start, s.settings.maxMacAge, os.checkTime);
    FinishKeeps(t4, os, os.checkTime);
    forall n ensures Allowed(t1, n) == Allowed(s, n) { }
  }

  // Ageing

  lemma CycleTable(s: NetState, os: Os)
    ensures Cycle(s, os).macs == Stamps(Survivors(Manage(Detect(Begin(s), os), os).macs,
                                                  Unheard(os.start, s.settings.maxMacAge)),
                                        os.start, s.settings.updateInterval)
    ensures Cycle(s, os).settings == s.settings
  {
    var t1 := Detect(Begin(s), os);
    var t2 := Manage(t1, os);
    DetectSettings(Begin(s), os);
    ManageSettings(t1, os);
    MaintainSettings(t2, |t2.devices|, os);
  }

  /** After a cycle no entry is older than the maximum age at cycle start. */
  lemma NoStaleEntries(s: NetState, os: Os, i: nat)
    requires i < |Cycle(s, os).macs|
    ensures os.start - Cycle(s, os).macs[i].lastSeen <= s.settings.maxMacAge
  {
    CycleTable(s, os);
    var table := Manage(Detect(Begin(s), os), os).macs;
    var doom := Unheard(os.start, s.settings.maxMacAge);
    SurvivorsSpec(table, doom);
    assert Survivors(table, doom)[i] in Survivors(table, doom);
  }

  ghost predicate HeardSince(macs: seq<Entity>, mac: string, device: string, start: real) {
    exists i :: 0 <= i < |macs| && Is(macs[i], mac, device) && macs[i].lastSeen >= start
  }

  /** A frame touches the table by its source address only. */
  lemma HearMacs(s: NetState, device: string, r: Reading)
    ensures Hear(s, device, r).macs ==
            if HasHeader(r) then AddMac(s, SourceMac(r.buffer), device, r.at).macs else s.macs
  {
    hide MacAllowed, WithField;
  }

  lemma HearRemembers(s: NetState, device: string, r: Reading, mac: string, d: string, start: real)
    requires start <= r.at && HeardSince(s.macs, mac, d, start)
    ensures HeardSince(Hear(s, device, r).macs, mac, d, start)
  {
    hide Hear;
    HearMacs(s, device, r);
    var i :| 0 <= i < |s.macs| && Is(s.macs[i], mac, d) && s.macs[i].lastSeen >= start;
    var t := Hear(s, device, r);
    assert Is(t.macs[i], mac, d) && t.macs[i].lastSeen >= start;
  }

  lemma HearNotes(s: NetState, device: string, r: Reading, mac: string, start: real)
    requires start <= r.at && HasHeader(r) && mac == SourceMac(r.buffer) && MacAllowed(s, mac)
    ensures HeardSince(Hear(s, device, r).macs, mac, device, start)
  {
    hide Hear, MacAllowed;
    HearMacs(s, device, r);
    var t := AddMac(s, mac, device, r.at);
    if Listed(s.macs, mac, device) {
      var i :| 0 <= i < |s.macs| && Is(s.macs[i], mac, device);
      assert Is(t.macs[i], mac, device) && t.macs[i].lastSeen == r.at;
    } else {
      assert Is(t.macs[|s.macs|], mac, device) && t.macs[|s.macs|].lastSeen == r.at;
    }
  }

  lemma HearAllPolicy(s: NetState, k: nat, os: Os, mac: string)
    requires k <= |s.devices|
    ensures MacAllowed(HearAll(s, k, os), mac) == MacAllowed(s, mac)
  {
    HearAllSettings(s, k, os);
  }

  /** The pair was heard since cycle start once n devices are polled. */
  ghost predicate InTableAfter(s: NetState, n: nat, os: Os, mac: string, device: string)
    requires n <= |s.devices|
  {
    HeardSince(HearAll(s, n, os).macs, mac, device, os.start)
  }

  lemma HearAllFirst(s: NetState, k: nat, os: Os, mac: string)
    requires os.start <= os.reading(k).at && k < |s.devices|
    requires HasHeader(os.reading(k)) && mac == SourceMac(os.reading(k).buffer) && MacAllowed(s, mac)
    ensures InTableAfter(s, k + 1, os, mac, s.devices[k].name)
  {
    HearAllPolicy(s, k, os, mac);
    HearNotes(HearAll(s, k, os), s.devices[k].name, os.reading(k), mac, os.start);
  }

  lemma HearAllNext(s: NetState, n: nat, os: Os, mac: string, device: string)
    requires 0 < n <= |s.devices| && os.start <= os.reading(n - 1).at
    requires InTableAfter(s, n - 1, os, mac, device)
    ensures InTableAfter(s, n, os, mac, device)
  {
    HearRemembers(HearAll(s, n - 1, os), s.devices[n - 1].name, os.reading(n - 1), mac, device, os.start);
  }

  lemma {:induction false} HearAllNotes(s: NetState, k: nat, n: nat, os: Os, mac: string)
    requires forall i: nat :: os.start <= os.reading(i).at
    requires k < n <= |s.devices|
    requires HasHeader(os.reading(k)) && mac == SourceMac(os.reading(k).buffer) && MacAllowed(s, mac)
    ensures InTableAfter(s, n, os, mac, s.devices[k].name)
    decreases n
  {
    hide *;
    var device := s.devices[k].name;
    if n == k + 1 {
      HearAllFirst(s, k, os, mac);
      assert InTableAfter(s, n, os, mac, device);
    } else {
      HearAllNotes(s, k, n - 1, os, mac);
      HearAllNext(s, n, os, mac, device);
      assert InTableAfter(s, n, os, mac, device);
    }
  }

  /** An allowed address heard in a cycle is in the table after it, unless its device went away. */
  lemma HeardSurvives(s: NetState, k: nat, os: Os, now: real)
    requires Inv(s, now) && OsOk(os, now) && k < |s.devices| && s.settings.maxMacAge >= 0.0
    requires HasHeader(os.reading(k)) && MacAllowed(s, SourceMac(os.reading(k).buffer))
    requires s.settings.autoManage ==> s.devices[k].name in os.names
    ensures Listed(Cycle(s, os).macs, SourceMac(os.reading(k).buffer), s.devices[k].name)
  {
    var mac, device := SourceMac(os.reading(k).buffer), s.devices[k].name;
    var t1 := Detect(Begin(s), os);
    HearAllNotes(Begin(s), k, |s.devices|, os, mac);
    DetectKeeps(Begin(s), os, now);
    var i :| 0 <= i < |t1.macs| && Is(t1.macs[i], mac, device) && t1.macs[i].lastSeen >= os.start;
    var e := t1.macs[i];
    DetectSettings(Begin(s), os);
    ManageRetains(t1, os, e);
    YoungSurvives(s, os, e);
  }

  lemma YoungSurvives(s: NetState, os: Os, e: Entity)
    requires e in Manage(Detect(Begin(s), os), os).macs && os.start - e.lastSeen <= s.settings.maxMacAge
    ensures Listed(Cycle(s, os).macs, e.mac, e.device)
  {
    CycleTable(s, os);
    var table := Manage(Detect(Begin(s), os), os).macs;
    var doom := Unheard(os.start, s.settings.maxMacAge);
    SurvivorsSpec(table, doom);
    assert e in Survivors(table, doom);
    var j :| 0 <= j < |Survivors(table, doom)| && Survivors(table, doom)[j] == e;
    assert Is(Cycle(s, os).macs[j], e.mac, e.device);
  }

  lemma ManageRetains(s: NetState, os: Os, e: Entity)
    requires DistinctNames(s.devices)
    requires e in s.macs && (s.settings.autoManage ==> e.device in os.names)
    ensures e in Manage(s, os).macs
  {
    if s.settings.autoManage {
      var named := s.(systemNames := os.names);
      var gone := Vanished(s.devices, os.names);
      VanishedSpec(s.devices, os.names);
      RemoveAllMacs(named, gone);
      AddAllSettings(RemoveAll(named, gone), Unknown(s.devices, os.names), os);
    }
  }

  lemma {:induction false} OwnMacUnheard(s: NetState, k: nat, os: Os, mac: string)
    requires k <= |s.devices| && !MacAllowed(s, mac)
    ensures forall e :: e in HearAll(s, k, os).macs && e.mac == mac ==> e in s.macs
  {
    if k > 0 {
      OwnMacUnheard(s, k - 1, os, mac);
      HearAllPolicy(s, k - 1, os, mac);
      HearIgnores(HearAll(s, k - 1, os), s.devices[k - 1].name, os.reading(k - 1), mac);
    }
  }

  lemma HearIgnores(s: NetState, device: string, r: Reading, mac: string)
    requires !MacAllowed(s, mac)
    ensures forall e :: e in Hear(s, device, r).macs && e.mac == mac ==> e in s.macs
  {
    var t := AddMac(s, SourceMac(r.buffer), device, r.at);
    forall e | e in t.macs && e.mac == mac ensures e in s.macs {
      var i :| 0 <= i < |t.macs| && t.macs[i] == e;
      assert MacAllowed(s, SourceMac(r.buffer)) ==> SourceMac(r.buffer) != mac;
      assert i < |s.macs| && s.macs[i] == e;
    }
  }

  /** An address owned by a known device is never refreshed, so its entry leaves by the first cycle past its age. */
  lemma OwnMacLeaves(s: NetState, os: Os, now: real, i: nat, j: nat)
    requires Inv(s, now) && OsOk(os, now) && s.settings.ignoreDeviceMacs
    requires i < |s.devices| && j < |s.macs| && s.macs[j].mac == s.devices[i].mac
    requires os.start - s.macs[j].lastSeen > s.settings.maxMacAge
    ensures !Listed(Cycle(s, os).macs, s.macs[j].mac, s.macs[j].device)
  {
    var mac, device := s.macs[j].mac, s.macs[j].device;
    var t0 := Begin(s);
    var t1 := Detect(t0, os);
    assert !MacAllowed(t0, mac);
    OwnMacUnheard(t0, |t0.devices|, os, mac);
    DetectKeeps(t0, os, now);
    ManageKeeps(t1, os, os.checkTime);
    CycleTable(s, os);
    var table := Manage(t1, os).macs;
    var doom := Unheard(os.start, s.settings.maxMacAge);
    SurvivorsSpec(table, doom);
    forall k | 0 <= k < |Cycle(s, os).macs| ensures !Is(Cycle(s, os).macs[k], mac, device) {
      var e := Survivors(table, doom)[k];
      assert e in Survivors(table, doom);
      PairUnique(s.macs, j, e);
    }
  }

  lemma PairUnique(macs: seq<Entity>, j: nat, e: Entity)
    requires DistinctPairs(macs) && j < |macs|
    ensures e in macs && Is(e, macs[j].mac, macs[j].device) ==> e == macs[j]
  {
  }

  // Evidence

  lemma {:induction false} HostnamesElsewhere(s: NetState, order: seq<string>, os: Os, mac: string)
    requires mac !in order
    ensures (mac in CheckHostnames(s, order, os).evidence) == (mac in s.evidence)
    ensures mac in s.evidence ==> CheckHostnames(s, order, os).evidence[mac] == s.evidence[mac]
  {
    if order != [] {
      HostnamesElsewhere(s, order[..|order| - 1], os, mac);
      assert order[|order| - 1] in order;
    }
  }

  lemma {:induction false} HostnameFound(s: NetState, order: seq<string>, os: Os, mac: string, host: string)
    requires mac in order && MacAllowed(s, mac)
    requires EvidenceHas(s.evidence, mac, "ip") && !EvidenceHas(s.evidence, mac, "hostname")
    requires os.resolve(s.evidence[mac]["ip"]) == Some(host)
    ensures EvidenceHas(CheckHostnames(s, order, os).evidence, mac, "hostname")
    ensures CheckHostnames(s, order, os).evidence[mac]["hostname"] == host
  {
    hide Allowed, IpAllowed;
    var front, last := order[..|order| - 1], order[|order| - 1];
    var t := CheckHostnames(s, front, os);
    assert order == front + [last];
    if mac in front {
      HostnameFound(s, front, os, mac, host);
    } else {
      HostnamesElsewhere(s, front, os, mac);
      CheckHostnamesSettings(s, front, os);
      assert MacAllowed(t, mac);
    }
  }

  /** When the hostname check is due, every allowed address with a known IP and no hostname gets the name that the
      resolver gives for its IP. */
  lemma HostnamesFilled(s: NetState, os: Os, mac: string, host: string)
    requires os.checkTime - s.hostnamesLastChecked > s.settings.hostnameInterval
    requires var heard := HearAll(s, |s.devices|, os);
             && EvidenceHas(heard.evidence, mac, "ip") && !EvidenceHas(heard.evidence, mac, "hostname")
             && os.resolve(heard.evidence[mac]["ip"]) == Some(host)
    requires MacAllowed(s, mac)
    ensures EvidenceOf(Detect(s, os).evidence, mac, "hostname") == host
    ensures Detect(s, os).hostnamesLastChecked == os.checkTime
  {
    var heard := HearAll(s, |s.devices|, os);
    HearAllSettings(s, |s.devices|, os);
    HearAllPolicy(s, |s.devices|, os, mac);
    HostnameFound(heard, SortedKeys(heard.evidence.Keys), os, mac, host);
  }

  // Runs

  /** What can happen to the monitor between its creation and its end. */
  datatype Step =
    | Cycling(os: Os)
    | AddingPattern(pattern: string)
    | SettingMode(mode: ListMode)
    | ClearingPatterns
    | Tuning(settings: Settings)
    | Asking(mac: string)
    | Stopping

  function Perform(s: NetState, step: Step): NetState {
    match step
    case Cycling(os) => Cycle(s, os)
    case AddingPattern(p) => AddPattern(s, p)
    case SettingMode(mode) => s.(mode := mode)
    case ClearingPatterns => s.(patterns := [])
    case Tuning(settings) => s.(settings := settings)
    case Asking(mac) => s.(evidence := WithMac(s.evidence, mac))
    case Stopping => s.(shouldRun := false)
  }

  function Run(s: NetState, steps: seq<Step>): NetState {
    if steps == [] then s else Perform(Run(s, steps[..|steps| - 1]), steps[|steps| - 1])
  }

  function ClockAfter(now: real, steps: seq<Step>): real {
    if steps == [] then now
    else match steps[|steps| - 1]
         case Cycling(os) => os.checkTime
         case _ => ClockAfter(now, steps[..|steps| - 1])
  }

  ghost predicate ClockOk(now: real, steps: seq<Step>) {
    steps == [] ||
    (ClockOk(now, steps[..|steps| - 1]) &&
     (steps[|steps| - 1].Cycling? ==> OsOk(steps[|steps| - 1].os, ClockAfter(now, steps[..|steps| - 1]))))
  }

  /** All events of the run, cycle by cycle. */
  function FullLog(s: NetState, steps: seq<Step>): seq<Event> {
    if steps == [] then []
    else FullLog(s, steps[..|steps| - 1]) + (if steps[|steps| - 1].Cycling? then Run(s, steps).events else [])
  }

  lemma AddPatternKeeps(s: NetState, pattern: string, now: real)
    requires Inv(s, now)
    ensures Inv(AddPattern(s, pattern), now)
    ensures AddPattern(s, pattern).evidence == s.evidence
    ensures forall n :: Known(AddPattern(s, pattern).devices, n) ==>
                        Find(AddPattern(s, pattern).devices, n) == Find(s.devices, n)
    ensures forall n :: Known(AddPattern(s, pattern).devices, n) <==>
                        Known(s.devices, n) && Allowed(AddPattern(s, pattern), n)
    ensures BansNothing(s, pattern) ==> forall a: Aspect :: FactOf(AddPattern(s, pattern), a) == FactOf(s, a)
  {
    hide RemoveAll, Banned, Inv, FactOf, Find;
    var listed := s.(patterns := s.patterns + [pattern]);
    var banned := Banned(listed, s.devices);
    PatternInv(s, pattern, now);
    BannedKnown(listed, now);
    RemoveAllKeeps(listed, banned, now);
    if banned == [] {
      NothingRemoved(listed);
      PatternFacts(s, pattern);
    } else {
      assert banned[0] in banned;
      assert !BansNothing(s, pattern);
    }
  }

  lemma NothingRemoved(s: NetState)
    ensures RemoveAll(s, []) == s
  {
  }

  lemma PatternFacts(s: NetState, pattern: string)
    ensures forall a: Aspect :: FactOf(s.(patterns := s.patterns + [pattern]), a) == FactOf(s, a)
  {
  }

  lemma PatternInv(s: NetState, pattern: string, now: real)
    requires Inv(s, now)
    ensures Inv(s.(patterns := s.patterns + [pattern]), now)
  {
  }

  /** The banned names are the known ones that the list does not allow. */
  lemma BannedKnown(s: NetState, now: real)
    requires Inv(s, now)
    ensures forall n :: n in Banned(s, s.devices) <==> Known(s.devices, n) && !Allowed(s, n)
    ensures forall i :: 0 <= i < |Banned(s, s.devices)| ==> Known(s.devices, Banned(s, s.devices)[i])
    ensures forall i, j :: 0 <= i < j < |Banned(s, s.devices)| ==>
                             Banned(s, s.devices)[i] != Banned(s, s.devices)[j]
  {
    hide Allowed;
    BannedSpec(s, s.devices);
    forall n ensures n in Banned(s, s.devices) <==> Known(s.devices, n) && !Allowed(s, n) {
      FindSpec(s.devices, n);
    }
    forall i | 0 <= i < |Banned(s, s.devices)| ensures Known(s.devices, Banned(s, s.devices)[i]) {
      assert Banned(s, s.devices)[i] in Banned(s, s.devices);
    }
  }

  lemma StepKeeps(s: NetState, step: Step, now: real)
    requires Inv(s, now) && (step.Cycling? ==> OsOk(step.os, now))
    ensures Inv(Perform(s, step), if step.Cycling? then step.os.checkTime else now)
  {
    match step
    case Cycling(os) => CycleKeeps(s, os, now);
    case AddingPattern(p) => AddPatternKeeps(s, p, now);
    case _ =>
  }

  /** The table invariant holds after every run. */
  lemma {:induction false} RunKeeps(s: NetState, steps: seq<Step>, now: real)
    requires Inv(s, now) && ClockOk(now, steps)
    ensures Inv(Run(s, steps), ClockAfter(now, steps))
  {
    if steps != [] {
      var front, last := steps[..|steps| - 1], steps[|steps| - 1];
      RunKeeps(s, front, now);
      StepKeeps(Run(s, front), last, ClockAfter(now, front));
    }
  }

  lemma {:induction false} RunConcat(s: NetState, x: seq<Step>, y: seq<Step>)
    ensures Run(s, x + y) == Run(Run(s, x), y)
  {
    hide Perform;
    if y == [] {
      assert x + y == x;
    } else {
      RunConcat(s, x, y[..|y| - 1]);
      assert (x + y)[..|x + y| - 1] == x + y[..|y| - 1];
    }
  }

  lemma RunOne(s: NetState, step: Step)
    ensures Run(s, [step]) == Perform(s, step)
  {
    assert [step][..0] == [];
  }

  lemma ClockNone(now: real)
    ensures ClockOk(now, []) && ClockAfter(now, []) == now
  {
  }

  lemma ClockOne(now: real, step: Step)
    requires step.Cycling? ==> OsOk(step.os, now)
    ensures ClockOk(now, [step]) && ClockAfter(now, [step]) == if step.Cycling? then step.os.checkTime else now
  {
    hide OsOk;
    var none: seq<Step> := [];
    assert [step][..0] == none;
    ClockNone(now);
  }

  lemma {:induction false} ClockConcat(now: real, x: seq<Step>, y: seq<Step>)
    requires ClockOk(now, x) && ClockOk(ClockAfter(now, x), y)
    ensures ClockOk(now, x + y) && ClockAfter(now, x + y) == ClockAfter(ClockAfter(now, x), y)
  {
    hide OsOk;
    if y == [] {
      assert x + y == x;
    } else {
      ClockConcat(now, x, y[..|y| - 1]);
      assert (x + y)[..|x + y| - 1] == x + y[..|y| - 1];
    }
  }

  // Own addresses over runs

  /** The address is refused in every cycle of the run, as that of a known device is. */
  predicate Refused(s: NetState, steps: seq<Step>, mac: string) {
    steps == [] ||
    (Refused(s, steps[..|steps| - 1], mac) &&
     (steps[|steps| - 1].Cycling? ==> !MacAllowed(Run(s, steps[..|steps| - 1]), mac)))
  }

  /** An address last heard at the time is young enough in every cycle of the run. */
  predicate NeverStale(s: NetState, steps: seq<Step>, lastSeen: real) {
    steps == [] ||
    (NeverStale(s, steps[..|steps| - 1], lastSeen) &&
     (steps[|steps| - 1].Cycling? ==>
        steps[|steps| - 1].os.start - lastSeen <= Run(s, steps[..|steps| - 1]).settings.maxMacAge))
  }

  /** The entry was in the table before, heard at the same times. */
  ghost predicate Remembered(macs: seq<Entity>, e: Entity) {
    exists f :: f in macs && f.mac == e.mac && f.device == e.device &&
                f.firstSeen == e.firstSeen && f.lastSeen == e.lastSeen
  }

  lemma CycleRemembers(s: NetState, os: Os, now: real, mac: string)
    requires Inv(s, now) && OsOk(os, now) && !MacAllowed(s, mac)
    ensures forall e :: e in Cycle(s, os).macs && e.mac == mac ==>
              Remembered(s.macs, e) && os.start - e.lastSeen <= s.settings.maxMacAge
  {
    hide MacAllowed, Inv, OsOk;
    var t := Detect(Begin(s), os);
    OwnMacUnheard(Begin(s), |s.devices|, os, mac) by { assert !MacAllowed(Begin(s), mac) by { BeginAllows(s, mac); } }
    DetectKeeps(Begin(s), os, now) by { BeginInv(s, now); }
    ManageKeeps(t, os, os.checkTime);
    CycleTable(s, os);
    var table, doom := Manage(t, os).macs, Unheard(os.start, s.settings.maxMacAge);
    SurvivorsSpec(table, doom);
    forall e | e in Cycle(s, os).macs && e.mac == mac
      ensures Remembered(s.macs, e) && os.start - e.lastSeen <= s.settings.maxMacAge
    {
      var i :| 0 <= i < |Cycle(s, os).macs| && Cycle(s, os).macs[i] == e;
      var f := Survivors(table, doom)[i];
      assert f in Survivors(table, doom);
      assert f in s.macs && f.mac == e.mac && f.lastSeen == e.lastSeen;
    }
  }

  lemma BeginAllows(s: NetState, mac: string)
    ensures MacAllowed(Begin(s), mac) == MacAllowed(s, mac)
  {
  }

  lemma BeginInv(s: NetState, now: real)
    requires Inv(s, now)
    ensures Inv(Begin(s), now)
  {
  }

  lemma PatternRemembers(s: NetState, pattern: string)
    ensures forall e :: e in AddPattern(s, pattern).macs ==> e in s.macs
  {
    var listed := s.(patterns := s.patterns + [pattern]);
    RemoveAllMacs(listed, Banned(listed, s.devices));
  }

  /** Own addresses over runs: as long as an address is refused, its entries are never refreshed and never come back,
      and those that are left were young enough in every cycle. */
  lemma {:induction false} OwnMacNeverRefreshed(s: NetState, steps: seq<Step>, now: real, mac: string)
    requires Inv(s, now) && ClockOk(now, steps) && Refused(s, steps, mac)
    ensures forall e :: e in Run(s, steps).macs && e.mac == mac ==>
              Remembered(s.macs, e) && NeverStale(s, steps, e.lastSeen)
  {
    hide Inv, OsOk, Cycle, AddPattern, MacAllowed;
    if steps == [] {
      forall e | e in s.macs ensures Remembered(s.macs, e) { }
    } else {
      var front, last := steps[..|steps| - 1], steps[|steps| - 1];
      var t := Run(s, front);
      OwnMacNeverRefreshed(s, front, now, mac);
      RunKeeps(s, front, now);
      match last
      case Cycling(os) => CycleRemembers(t, os, ClockAfter(now, front), mac);
      case AddingPattern(p) => PatternRemembers(t, p);
      case _ =>
    }
  }

  // Logs over runs

  /** Evidence chains: over any run, for each address and field, every event names the value of the event before it
      (first the initial value), no event repeats a value, and the last value is what the evidence map holds. */
  lemma {:induction false} EvidenceChain(s: NetState, steps: seq<Step>, now: real, mac: string, field: string)
    requires Inv(s, now) && ClockOk(now, steps)
    ensures Explains(Text(EvidenceOf(s.evidence, mac, field)), OfEvidence(mac, field), FullLog(s, steps),
                     Text(EvidenceOf(Run(s, steps).evidence, mac, field)))
  {
    hide Cycle, AddPattern;
    if steps != [] {
      var front, last := steps[..|steps| - 1], steps[|steps| - 1];
      var t := Run(s, front);
      EvidenceChain(s, front, now, mac, field);
      RunKeeps(s, front, now);
      match last
      case Cycling(os) =>
        CycleLog(t, os, ClockAfter(now, front), OfEvidence(mac, field));
        ReplayConcat(FactOf(s, OfEvidence(mac, field)), OfEvidence(mac, field), FullLog(s, front), Cycle(t, os).events);
      case AddingPattern(p) =>
        AddPatternKeeps(t, p, ClockAfter(now, front));
        assert FullLog(s, front) + [] == FullLog(s, front);
      case _ =>
        assert FullLog(s, front) + [] == FullLog(s, front);
    }
  }

  /** The pattern would ban no device that is known. */
  ghost predicate BansNothing(s: NetState, pattern: string) {
    forall n :: Known(s.devices, n) ==> Allowed(s.(patterns := s.patterns + [pattern]), n)
  }

  /** Every pattern of the run bans no device known when it is added, as when all are added before the first cycle. */
  ghost predicate PatternsBanNothing(s: NetState, steps: seq<Step>) {
    steps == [] ||
    (PatternsBanNothing(s, steps[..|steps| - 1]) &&
     (steps[|steps| - 1].AddingPattern? ==> BansNothing(Run(s, steps[..|steps| - 1]), steps[|steps| - 1].pattern)))
  }

  lemma SetupFacts(s: NetState, step: Step, a: Aspect)
    requires !step.Cycling? && !step.AddingPattern?
    ensures FactOf(Perform(s, step), a) == FactOf(s, a)
  {
  }

  /** Over such a run the concatenated logs of all cycles explain every fact. */
  lemma {:induction false} RunLog(s: NetState, steps: seq<Step>, now: real, a: Aspect)
    requires Inv(s, now) && ClockOk(now, steps) && PatternsBanNothing(s, steps)
    ensures Explains(FactOf(s, a), a, FullLog(s, steps), FactOf(Run(s, steps), a))
  {
    hide Cycle, AddPattern, Inv, OsOk, FactOf;
    if steps != [] {
      var front, last := steps[..|steps| - 1], steps[|steps| - 1];
      var t := Run(s, front);
      RunLog(s, front, now, a);
      RunKeeps(s, front, now);
      if last.Cycling? {
        CycleLog(t, last.os, ClockAfter(now, front), a);
        ReplayConcat(FactOf(s, a), a, FullLog(s, front), Cycle(t, last.os).events);
      } else {
        assert FullLog(s, front) + [] == FullLog(s, front);
        if last.AddingPattern? {
          AddPatternKeeps(t, last.pattern, ClockAfter(now, front));
        } else {
          SetupFacts(t, last, a);
        }
        assert FactOf(Run(s, steps), a) == FactOf(t, a);
      }
    }
  }

  lemma {:induction false} SoundFromBoth(v: DeviceView, n: string, log: seq<Event>)
    requires Sound(Device(None), OfDevice(n), log) && Sound(Device(Some(v)), OfDevice(n), log)
    ensures Replay(Device(None), OfDevice(n), log) == Device(None)
    ensures Replay(Device(Some(v)), OfDevice(n), log) == Device(Some(v))
  {
    if log != [] {
      SoundFromBoth(v, n, log[..|log| - 1]);
    }
  }

  /** A device that a new pattern bans is gone after the next cycle, and that cycle's log does not say so. */
  lemma BannedUnexplained(s: NetState, pattern: string, os: Os, now: real, n: string)
    requires Inv(s, now) && OsOk(os, now)
    requires Known(s.devices, n) && !Allowed(s.(patterns := s.patterns + [pattern]), n)
    ensures var u := Cycle(AddPattern(s, pattern), os);
            && FactOf(u, OfDevice(n)) == Device(None)
            && !Explains(FactOf(s, OfDevice(n)), OfDevice(n), u.events, FactOf(u, OfDevice(n)))
  {
    var listed := s.(patterns := s.patterns + [pattern]);
    var t := AddPattern(s, pattern);
    var u := Cycle(t, os);
    var a := OfDevice(n);
    AddPatternKeeps(s, pattern, now);
    RemoveAllSettings(listed, Banned(listed, s.devices));
    assert Allowed(t, n) == Allowed(listed, n);
    CycleDevices(t, os, now);
    CycleLog(t, os, now, a);
    assert !Known(u.devices, n);
    if Explains(FactOf(s, a), a, u.events, FactOf(u, a)) {
      SoundFromBoth(View(Find(s.devices, n).value), n, u.events);
      assert false;
    }
  }

  /** A pattern added between two cycles: the next cycle's log still explains every fact from before the change
      exactly when the pattern bans no known device, because events scheduled outside a cycle are cleared. */
  lemma PatternBetweenCycles(s: NetState, pattern: string, os: Os, now: real)
    requires Inv(s, now) && OsOk(os, now)
    ensures (forall a: Aspect :: Explains(FactOf(s, a), a, Cycle(AddPattern(s, pattern), os).events,
                                          FactOf(Cycle(AddPattern(s, pattern), os), a)))
            <==> BansNothing(s, pattern)
  {
    var u := Cycle(AddPattern(s, pattern), os);
    if BansNothing(s, pattern) {
      AddPatternKeeps(s, pattern, now);
      forall a: Aspect ensures Explains(FactOf(s, a), a, u.events, FactOf(u, a)) {
        CycleLog(AddPattern(s, pattern), os, now, a);
      }
    } else {
      var n :| Known(s.devices, n) && !Allowed(s.(patterns := s.patterns + [pattern]), n);
      BannedUnexplained(s, pattern, os, now, n);
    }
  }

  /** A monitor without patterns that knows "eth0" and blacklists it: "eth0" is gone without a trace in the log. */
  lemma PatternLosesTrace(s: NetState, os: Os, now: real)
    requires Inv(s, now) && OsOk(os, now)
    requires s.devices == [FreshDevice("eth0", Wired).(mac := "00:11:22:33:44:55")]
    requires s.mode == Blacklist && s.patterns == [] && s.matches("eth0", "eth0")
    ensures var a, u := OfDevice("eth0"), Cycle(AddPattern(s, "eth0"), os);
            && FactOf(s, a) == Device(Some(DeviceView(false, false, "00:11:22:33:44:55", "", "")))
            && FactOf(u, a) == Device(None)
            && !Explains(FactOf(s, a), a, u.events, FactOf(u, a))
  {
    var listed := s.(patterns := s.patterns + ["eth0"]);
    assert "eth0" in listed.patterns;
    BannedUnexplained(s, "eth0", os, now, "eth0");
  }

  ghost predicate AllAllowed(s: NetState) {
    forall n :: Known(s.devices, n) ==> Allowed(s, n)
  }

  /** With a fixed mode and patterns only added, every known device stays allowed... */
  lemma {:induction false} KnownStaysAllowed(s: NetState, steps: seq<Step>, now: real)
    requires Inv(s, now) && ClockOk(now, steps) && AllAllowed(s) && s.settings.autoManage
    requires forall i :: 0 <= i < |steps| ==> !steps[i].SettingMode? && !steps[i].ClearingPatterns?
    requires forall i :: 0 <= i < |steps| && steps[i].Tuning? ==> steps[i].settings.autoManage
    ensures AllAllowed(Run(s, steps)) && Run(s, steps).settings.autoManage
  {
    if steps != [] {
      var front, last := steps[..|steps| - 1], steps[|steps| - 1];
      var t := Run(s, front);
      KnownStaysAllowed(s, front, now);
      RunKeeps(s, front, now);
      match last
      case Cycling(os) =>
        CycleDevices(t, os, ClockAfter(now, front));
        CyclePolicy(t, os);
      case AddingPattern(p) =>
        AddPatternKeeps(t, p, ClockAfter(now, front));
        var listed := t.(patterns := t.patterns + [p]);
        RemoveAllSettings(listed, Banned(listed, t.devices));
      case _ =>
    }
  }

  /** ... and after each cycle of such a run the known names are exactly the system names the list allows. */
  lemma AutoManageConverges(s: NetState, steps: seq<Step>, os: Os, now: real)
    requires Inv(s, now) && ClockOk(now, steps + [Cycling(os)]) && AllAllowed(s) && s.settings.autoManage
    requires forall i :: 0 <= i < |steps| ==> !steps[i].SettingMode? && !steps[i].ClearingPatterns?
    requires forall i :: 0 <= i < |steps| && steps[i].Tuning? ==> steps[i].settings.autoManage
    ensures var t := Run(s, steps + [Cycling(os)]);
            forall n :: Known(t.devices, n) <==> n in os.names && Allowed(t, n)
  {
    assert (steps + [Cycling(os)])[..|steps|] == steps;
    RunKeeps(s, steps, now);
    KnownStaysAllowed(s, steps, now);
    CycleDevices(Run(s, steps), os, ClockAfter(now, steps));
    CyclePolicy(Run(s, steps), os);
  }
}
