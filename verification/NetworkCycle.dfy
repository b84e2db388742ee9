/** One whole cycle of the monitor: the table invariant, the event log, ageing and device management. */
module NetworkCycle {
  import opened Basics
  import opened Addresses
  import opened Ordering
  import opened NetworkModel
  import opened EventLog
  import opened NetworkLaws

  // What each step leaves alone

  lemma {:induction false} HearAllSettings(s: NetState, k: nat, os: Os)
    requires k <= |s.devices|
    ensures HearAll(s, k, os) == s.(events := HearAll(s, k, os).events, macs := HearAll(s, k, os).macs,
                                    evidence := HearAll(s, k, os).evidence)
  {
    if k > 0 {
      HearAllSettings(s, k - 1, os);
      HearSettings(HearAll(s, k - 1, os), s.devices[k - 1].name, os.reading(k - 1));
      hide Hear;
    }
  }

  lemma HearSettings(s: NetState, device: string, r: Reading)
    ensures Hear(s, device, r) == s.(events := Hear(s, device, r).events, macs := Hear(s, device, r).macs,
                                     evidence := Hear(s, device, r).evidence)
  {
  }

  lemma {:induction false} RemoveAllSettings(s: NetState, names: seq<string>)
    ensures RemoveAll(s, names) == s.(devices := RemoveAll(s, names).devices, macs := RemoveAll(s, names).macs,
                                      events := RemoveAll(s, names).events)
  {
    if names != [] {
      RemoveAllSettings(s, names[..|names| - 1]);
    }
  }

  lemma {:induction false} AddAllSettings(s: NetState, names: seq<string>, os: Os)
    ensures AddAll(s, names, os) == s.(devices := AddAll(s, names, os).devices, events := AddAll(s, names, os).events)
  {
    if names != [] {
      AddAllSettings(s, names[..|names| - 1], os);
    }
  }

  lemma ManageSettings(s: NetState, os: Os)
    ensures Manage(s, os) == s.(systemNames := os.names, devices := Manage(s, os).devices,
                                macs := Manage(s, os).macs, events := Manage(s, os).events)
  {
    var named := s.(systemNames := os.names);
    var removed := RemoveAll(named, Vanished(s.devices, os.names));
    RemoveAllSettings(named, Vanished(s.devices, os.names));
    AddAllSettings(removed, Unknown(s.devices, os.names), os);
  }

  lemma {:induction false} CheckHostnamesSettings(s: NetState, order: seq<string>, os: Os)
    ensures CheckHostnames(s, order, os) ==
            s.(events := CheckHostnames(s, order, os).events, evidence := CheckHostnames(s, order, os).evidence)
  {
    if order != [] {
      CheckHostnamesSettings(s, order[..|order| - 1], os);
    }
  }

  lemma DetectSettings(s: NetState, os: Os)
    ensures Detect(s, os) == s.(events := Detect(s, os).events, macs := Detect(s, os).macs,
                                evidence := Detect(s, os).evidence,
                                hostnamesLastChecked := Detect(s, os).hostnamesLastChecked)
  {
    var heard := HearAll(s, |s.devices|, os);
    HearAllSettings(s, |s.devices|, os);
    CheckHostnamesSettings(heard, SortedKeys(heard.evidence.Keys), os);
  }

  lemma {:induction false} MaintainSettings(s: NetState, k: nat, os: Os)
    requires k <= |s.devices|
    ensures Maintain(s, k, os) == s.(devices := Maintain(s, k, os).devices, events := Maintain(s, k, os).events)
  {
    if k > 0 {
      MaintainSettings(s, k - 1, os);
    }
  }

  lemma SettledSettings(s: NetState, os: Os)
    ensures Settled(s, os).settings == s.settings
  {
    var t1 := Detect(Begin(s), os);
    DetectSettings(Begin(s), os);
    ManageSettings(t1, os);
    MaintainSettings(Manage(t1, os), |Manage(t1, os).devices|, os);
  }

  // Hearing

  /** The sentinel of macLastSeen and membership of the table agree while the clock is not negative. */
  lemma {:induction false} LastSeenSpec(macs: seq<Entity>, mac: string, device: string)
    requires forall i :: 0 <= i < |macs| ==> macs[i].lastSeen >= 0.0
    ensures LastSeen(macs, mac, device) == -1.0 <==> !Listed(macs, mac, device)
  {
    if macs != [] && !Is(macs[0], mac, device) {
      LastSeenSpec(macs[1..], mac, device);
      if Listed(macs, mac, device) {
        var i :| 0 <= i < |macs| && Is(macs[i], mac, device);
        assert Is(macs[1..][i - 1], mac, device);
      }
      if Listed(macs[1..], mac, device) {
        var i :| 0 <= i < |macs[1..]| && Is(macs[1..][i], mac, device);
        assert Is(macs[i + 1], mac, device);
      }
    }
  }

  lemma ListedTouch(macs: seq<Entity>, mac: string, device: string, at: real, m: string, d: string)
    ensures Listed(Touch(macs, mac, device, at), m, d) == Listed(macs, m, d)
  {
    var touched := Touch(macs, mac, device, at);
    forall i | 0 <= i < |macs| ensures Is(touched[i], m, d) == Is(macs[i], m, d) { }
    if Listed(macs, m, d) {
      var i :| 0 <= i < |macs| && Is(macs[i], m, d);
      assert Is(touched[i], m, d);
    }
  }

  lemma ListedAppend(macs: seq<Entity>, e: Entity, m: string, d: string)
    ensures Listed(macs + [e], m, d) == (Listed(macs, m, d) || Is(e, m, d))
  {
    if Listed(macs, m, d) {
      var i :| 0 <= i < |macs| && Is(macs[i], m, d);
      assert Is((macs + [e])[i], m, d);
    }
    if Is(e, m, d) {
      assert Is((macs + [e])[|macs|], m, d);
    }
  }

  /** A Discovered event is scheduled exactly when an entry is appended. */
  lemma AddMacKeeps(s: NetState, mac: string, device: string, at: real, now: real)
    requires Inv(s, now) && now <= at && Known(s.devices, device)
    ensures Inv(AddMac(s, mac, device, at), at)
    ensures Logged(s, AddMac(s, mac, device, at))
    ensures |AddMac(s, mac, device, at).macs| == |s.macs| + 1 <==>
            AddMac(s, mac, device, at).events == s.events + [MacDiscovered(device, mac)]
  {
    var t := AddMac(s, mac, device, at);
    LastSeenSpec(s.macs, mac, device);
    if !MacAllowed(s, mac) {
      LoggedSilent(s, t);
    } else if Listed(s.macs, mac, device) {
      forall m, d ensures Listed(t.macs, m, d) == Listed(s.macs, m, d) { ListedTouch(s.macs, mac, device, at, m, d); }
      LoggedSilent(s, t);
    } else {
      var e := MacDiscovered(device, mac);
      assert t.events[|s.events|..] == [e];
      forall a: Aspect ensures Explains(FactOf(s, a), a, t.events[|s.events|..], FactOf(t, a)) {
        if a.OfPair? { ListedAppend(s.macs, t.macs[|s.macs|], a.mac, a.device); }
        ExplainsOne(FactOf(s, a), a, e);
      }
    }
  }

  lemma UpdateEvidenceKeeps(s: NetState, device: string, mac: string, field: string, value: string, now: real)
    requires Inv(s, now)
    ensures Inv(UpdateEvidence(s, device, mac, field, value), now)
    ensures Logged(s, UpdateEvidence(s, device, mac, field, value))
  {
    UpdateEvidenceLogged(s, device, mac, field, value);
    hide Logged;
  }

  /** The evidence after an update, and the event that it schedules. */
  lemma UpdateEvidenceIs(s: NetState, device: string, mac: string, field: string, value: string)
    ensures var t, former := UpdateEvidence(s, device, mac, field, value), EvidenceOf(s.evidence, mac, field);
            && t == s.(evidence := t.evidence, events := t.events)
            && (forall m, k :: EvidenceOf(t.evidence, m, k) ==
                               if MacAllowed(s, mac) && m == mac && k == field then value
                               else EvidenceOf(s.evidence, m, k))
            && t.events == s.events + (if MacAllowed(s, mac) && former != value
                                       then [MacEvidenceChanged(device, mac, field, value, former)] else [])
  {
    hide MacAllowed;
  }

  lemma UpdateEvidenceLogged(s: NetState, device: string, mac: string, field: string, value: string)
    ensures Logged(s, UpdateEvidence(s, device, mac, field, value))
  {
    hide UpdateEvidence, EvidenceOf, MacAllowed, Find, Listed;
    var t, former := UpdateEvidence(s, device, mac, field, value), EvidenceOf(s.evidence, mac, field);
    UpdateEvidenceIs(s, device, mac, field, value);
    if MacAllowed(s, mac) && former != value {
      var e := MacEvidenceChanged(device, mac, field, value, former);
      assert t.events[|s.events|..] == [e];
      forall a: Aspect ensures Explains(FactOf(s, a), a, t.events[|s.events|..], FactOf(t, a)) {
        hide Explains;
        ExplainsOne(FactOf(s, a), a, e);
      }
    } else {
      LoggedSilent(s, t);
    }
  }

  lemma HearKeeps(s: NetState, device: string, r: Reading, now: real)
    requires Inv(s, now) && now <= r.at && Known(s.devices, device)
    ensures Inv(Hear(s, device, r), r.at)
    ensures Logged(s, Hear(s, device, r))
  {
    if HasHeader(r) {
      var mac := SourceMac(r.buffer);
      var added := AddMac(s, mac, device, r.at);
      AddMacKeeps(s, mac, device, r.at, now);
      if EtherType(r.buffer) == 0x0800 && IpAllowed(SenderIp(r.buffer)) {
        UpdateEvidenceKeeps(added, device, mac, "ip", SenderIp(r.buffer), r.at);
        LoggedTransitive(s, added, Hear(s, device, r));
      }
    } else {
      LoggedSilent(s, s);
    }
  }

  /** A failed poll (length -1 compared as an unsigned size) is handled like a frame, but its zeroed buffer
      carries the all-zero address, so it leaves no trace. */
  lemma FailedPollHarmless(s: NetState, device: string, r: Reading)
    requires r.length == -1 && forall i :: 0 <= i < |r.buffer| ==> r.buffer[i] == 0
    ensures HasHeader(r)
    ensures Hear(s, device, r) == s
  {
    assert r.buffer[6..12] == [0, 0, 0, 0, 0, 0];
    assert SourceMac(r.buffer) == ZERO_MAC by {
      var zero: Address := [0, 0, 0, 0, 0, 0];
      forall k | 0 <= k < 17 ensures MacText(zero)[k] == ZERO_MAC[k] {
        assert MacText(zero)[k] == MacChar(zero, k);
      }
      assert MacText(zero) == ZERO_MAC;
    }
  }

  lemma {:induction false} HearAllKeeps(s: NetState, k: nat, os: Os, now: real)
    requires Inv(s, now) && OsOk(os, now) && k <= |s.devices|
    ensures Inv(HearAll(s, k, os), if k == 0 then now else os.reading(k - 1).at)
    ensures Logged(s, HearAll(s, k, os))
  {
    if k == 0 {
      LoggedSilent(s, s);
    } else {
      HearAllKeeps(s, k - 1, os, now);
      var t := HearAll(s, k - 1, os);
      var before := if k == 1 then now else os.reading(k - 2).at;
      assert before <= os.reading(k - 1).at;
      FindAt(s.devices, k - 1);
      HearKeeps(t, s.devices[k - 1].name, os.reading(k - 1), before);
      LoggedTransitive(s, t, HearAll(s, k, os));
    }
  }

  lemma {:induction false} CheckHostnamesKeeps(s: NetState, order: seq<string>, os: Os, now: real)
    requires Inv(s, now)
    ensures Inv(CheckHostnames(s, order, os), now)
    ensures Logged(s, CheckHostnames(s, order, os))
  {
    if order == [] {
      LoggedSilent(s, s);
    } else {
      var t := CheckHostnames(s, order[..|order| - 1], os);
      var mac := order[|order| - 1];
      CheckHostnamesKeeps(s, order[..|order| - 1], os, now);
      if EvidenceHas(t.evidence, mac, "ip") && !EvidenceHas(t.evidence, mac, "hostname") {
        match os.resolve(t.evidence[mac]["ip"])
        case None =>
        case Some(host) =>
          UpdateEvidenceKeeps(t, DeviceForMac(t.macs, mac), mac, "hostname", host, now);
          LoggedTransitive(s, t, CheckHostnames(s, order, os));
      }
    }
  }

  lemma InvLater(s: NetState, now: real, later: real)
    requires Inv(s, now) && now <= later
    ensures Inv(s, later)
  {
    forall i | 0 <= i < |s.macs| ensures EntryOk(s.devices, s.macs[i], later) {
      assert EntryOk(s.devices, s.macs[i], now);
    }
  }

  lemma DetectKeeps(s: NetState, os: Os, now: real)
    requires Inv(s, now) && OsOk(os, now)
    ensures Inv(Detect(s, os), os.checkTime)
    ensures Logged(s, Detect(s, os))
    ensures Detect(s, os).devices == s.devices
    ensures Detect(s, os).macs == HearAll(s, |s.devices|, os).macs
  {
    hide HearAll, CheckHostnames, SortedKeys;
    DetectSettings(s, os);
    var heard := HearAll(s, |s.devices|, os);
    HearAllKeeps(s, |s.devices|, os, now);
    assert os.start <= os.reading(0).at <= os.checkTime;
    InvLater(heard, if |s.devices| == 0 then now else os.reading(|s.devices| - 1).at, os.checkTime);
    var order := SortedKeys(heard.evidence.Keys);
    var checked := CheckHostnames(heard, order, os);
    CheckHostnamesKeeps(heard, order, os, os.checkTime);
    CheckHostnamesSettings(heard, order, os);
    LoggedTransitive(s, heard, checked);
    LoggedSilent(checked, checked.(hostnamesLastChecked := os.checkTime));
    LoggedTransitive(s, checked, checked.(hostnamesLastChecked := os.checkTime));
  }

  // Devices

  lemma UpLogged(d: DeviceInfo, v: DeviceView, up: bool)
    requires v.up == d.up
    ensures Explains(Device(Some(v)), OfDevice(d.name), UpDifference(d, up), Device(Some(v.(up := up))))
  {
    if d.up != up {
      ExplainsOne(Device(Some(v)), OfDevice(d.name), DeviceStateChanged(d.name, Up(up)));
    }
  }

  lemma RunningLogged(d: DeviceInfo, v: DeviceView, running: bool)
    requires v.running == d.running
    ensures Explains(Device(Some(v)), OfDevice(d.name), RunningDifference(d, running),
            Device(Some(v.(running := running))))
  {
    if d.running != running {
      ExplainsOne(Device(Some(v)), OfDevice(d.name), DeviceStateChanged(d.name, Running(running)));
    }
  }

  lemma AddressLogged(name: string, v: DeviceView, field: string, value: string, former: string)
    requires GetField(v, field) == Some(former)
    ensures Explains(Device(Some(v)), OfDevice(name), AddressDifference(name, field, value, former),
                     Device(Some(SetField(v, field, value))))
  {
    if value != former {
      ExplainsOne(Device(Some(v)), OfDevice(name), DeviceEvidenceChanged(name, field, value, former));
    }
  }

  lemma DifferencesLogged(d: DeviceInfo, os: Os)
    ensures Explains(Device(Some(View(d))), OfDevice(d.name), Differences(d, os), Device(Some(View(Refreshed(d, os)))))
  {
    var a := OfDevice(d.name);
    var up, running := os.up(d.name), os.running(d.name);
    var ip, broadcast := IpText(os.ip(d.name)), IpText(os.broadcastIp(d.name));
    var v0 := View(d);
    var v1 := v0.(up := up);
    var v2 := v1.(running := running);
    var v3 := SetField(v2, "ip", ip);
    var v4 := SetField(v3, "broadcast-ip", broadcast);
    assert v4 == View(Refreshed(d, os));
    UpLogged(d, v0, up);
    RunningLogged(d, v1, running);
    AddressLogged(d.name, v2, "ip", ip, d.ip);
    AddressLogged(d.name, v3, "broadcast-ip", broadcast, d.broadcastIp);
    var l1, l2 := UpDifference(d, up), RunningDifference(d, running);
    var l3 := AddressDifference(d.name, "ip", ip, d.ip);
    var l4 := AddressDifference(d.name, "broadcast-ip", broadcast, d.broadcastIp);
    ExplainsConcat(Device(Some(v0)), a, l1, Device(Some(v1)), l2, Device(Some(v2)));
    ExplainsConcat(Device(Some(v0)), a, l1 + l2, Device(Some(v2)), l3, Device(Some(v3)));
    ExplainsConcat(Device(Some(v0)), a, l1 + l2 + l3, Device(Some(v3)), l4, Device(Some(v4)));
  }

  lemma DifferencesConcernOne(d: DeviceInfo, os: Os, a: Aspect, f: Fact)
    requires a != OfDevice(d.name)
    ensures Explains(f, a, Differences(d, os), f)
  {
    forall i | 0 <= i < |Differences(d, os)|
      ensures Justified(f, a, Differences(d, os)[i]) && Apply(f, a, Differences(d, os)[i]) == f
    {
      var e := Differences(d, os)[i];
      assert (e.DeviceStateChanged? || e.DeviceEvidenceChanged?) && e.device == d.name;
    }
    ExplainsNothing(f, a, Differences(d, os));
  }

  lemma MaintainAtKeeps(s: NetState, i: nat, os: Os, now: real)
    requires Inv(s, now) && i < |s.devices|
    ensures Inv(MaintainAt(s, i, os), now)
    ensures Logged(s, MaintainAt(s, i, os))
    ensures forall n :: Known(MaintainAt(s, i, os).devices, n) == Known(s.devices, n)
  {
    var t := MaintainAt(s, i, os);
    if s.settings.controlOpen {
      var d := s.devices[i];
      forall n ensures Find(t.devices, n) == if n == d.name then Some(Refreshed(d, os)) else Find(s.devices, n) {
        FindUpdate(s.devices, i, Refreshed(d, os), n);
      }
      FindUpdate(s.devices, i, Refreshed(d, os), d.name);
      FindAt(s.devices, i);
      MaintainAtLogged(s, i, os);
    } else {
      LoggedSilent(s, t);
    }
  }

  lemma MaintainAtFact(s: NetState, i: nat, os: Os, a: Aspect)
    requires DistinctNames(s.devices) && i < |s.devices| && s.settings.controlOpen
    ensures FactOf(MaintainAt(s, i, os), a) ==
            if a == OfDevice(s.devices[i].name) then Device(Some(View(Refreshed(s.devices[i], os)))) else FactOf(s, a)
    ensures a == OfDevice(s.devices[i].name) ==> FactOf(s, a) == Device(Some(View(s.devices[i])))
  {
    FindAt(s.devices, i);
    if a.OfDevice? { FindUpdate(s.devices, i, Refreshed(s.devices[i], os), a.name); }
  }

  lemma MaintainAtLogged(s: NetState, i: nat, os: Os)
    requires DistinctNames(s.devices) && i < |s.devices| && s.settings.controlOpen
    ensures Logged(s, MaintainAt(s, i, os))
  {
    hide FactOf, Differences, Explains;
    var t := MaintainAt(s, i, os);
    var d := s.devices[i];
    assert t.events[|s.events|..] == Differences(d, os);
    forall a: Aspect ensures Explains(FactOf(s, a), a, t.events[|s.events|..], FactOf(t, a)) {
      MaintainAtFact(s, i, os, a);
      if a == OfDevice(d.name) {
        DifferencesLogged(d, os);
      } else {
        DifferencesConcernOne(d, os, a, FactOf(s, a));
      }
    }
  }

  lemma {:induction false} MaintainKeeps(s: NetState, k: nat, os: Os, now: real)
    requires Inv(s, now) && k <= |s.devices|
    ensures Inv(Maintain(s, k, os), now)
    ensures Logged(s, Maintain(s, k, os))
    ensures forall n :: Known(Maintain(s, k, os).devices, n) == Known(s.devices, n)
  {
    hide Inv, Logged, MaintainAt, Find;
    if k == 0 {
      LoggedSilent(s, s);
    } else {
      MaintainKeeps(s, k - 1, os, now);
      var t := Maintain(s, k - 1, os);
      MaintainAtKeeps(t, k - 1, os, now);
      LoggedTransitive(s, t, Maintain(s, k, os));
    }
  }

  /** After device management the known names are the old ones that still exist and the allowed new ones. */
  lemma ManageKeeps(s: NetState, os: Os, now: real)
    requires Inv(s, now)
    ensures Inv(Manage(s, os), now)
    ensures Logged(s, Manage(s, os))
    ensures s.settings.autoManage ==>
              forall n :: Known(Manage(s, os).devices, n) <==>
                          n in os.names && (Known(s.devices, n) || Allowed(s, n))
    ensures forall i :: 0 <= i < |Manage(s, os).macs| ==> Manage(s, os).macs[i] in s.macs
  {
    hide RemoveAll, AddAll, Vanished, Unknown;
    var named := s.(systemNames := os.names);
    LoggedSilent(s, named);
    if s.settings.autoManage {
      var gone, added := Vanished(s.devices, os.names), Unknown(s.devices, os.names);
      var removed := RemoveAll(named, gone);
      VanishedSpec(s.devices, os.names);
      UnknownSpec(s.devices, os.names);
      forall i | 0 <= i < |gone| ensures Known(s.devices, gone[i]) {
        assert gone[i] in gone;
        FindSpec(s.devices, gone[i]);
      }
      RemoveAllKeeps(named, gone, now);
      RemoveAllMacs(named, gone);
      AddAllKeeps(removed, added, os, now);
      LoggedTransitive(s, named, removed);
      LoggedTransitive(s, removed, Manage(s, os));
      forall n ensures Known(Manage(s, os).devices, n) <==> n in os.names && (Known(s.devices, n) || Allowed(s, n)) {
        FindSpec(s.devices, n);
        assert Find(removed.devices, n) == if n in gone then None else Find(s.devices, n);
        assert Allowed(removed, n) == Allowed(s, n);
      }
    }
  }

  lemma {:induction false} RemoveAllMacs(s: NetState, names: seq<string>)
    ensures forall e :: e in RemoveAll(s, names).macs <==> e in s.macs && e.device !in names
  {
    if names != [] {
      var front, last := names[..|names| - 1], names[|names| - 1];
      RemoveAllMacs(s, front);
      SurvivorsSpec(RemoveAll(s, front).macs, OnDevice(last));
      assert names == front + [last];
    }
  }

  // The end of a cycle

  lemma DropKeeps(s: NetState, start: real, maxAge: real, now: real)
    requires Inv(s, now)
    ensures Inv(Drop(s, Unheard(start, maxAge)), now)
    ensures Logged(s, Drop(s, Unheard(start, maxAge)))
  {
    SurvivorsSpec(s.macs, Unheard(start, maxAge));
    DropLogged(s, Unheard(start, maxAge));
    var t := Drop(s, Unheard(start, maxAge));
    forall i | 0 <= i < |t.macs| ensures EntryOk(t.devices, t.macs[i], now) {
      assert t.macs[i] in s.macs;
    }
  }

  lemma FinishKeeps(s: NetState, os: Os, now: real)
    requires Inv(s, now)
    ensures Inv(Finish(s, os), now)
    ensures Logged(s, Finish(s, os))
    ensures forall n :: Known(Finish(s, os).devices, n) == Known(s.devices, n)
  {
    hide Explains, Logged;
    var t := Finish(s, os);
    forall n ensures Find(t.devices, n) == match Find(s.devices, n)
                                           case None => None
                                           case Some(d) => Some(d.(pingLastSent := Pinged(d, os.start,
                                               s.settings.pingInterval, os.address(d.name)).pingLastSent))
    {
      FindSpec(s.devices, n);
      FindSpec(t.devices, n);
      if Find(s.devices, n).Some? {
        var i :| 0 <= i < |s.devices| && s.devices[i].name == n && Find(s.devices, n) == Some(s.devices[i]);
        FindAt(t.devices, i);
      }
    }
    forall m, d ensures Listed(t.macs, m, d) == Listed(s.macs, m, d) {
      forall i | 0 <= i < |s.macs| ensures Is(t.macs[i], m, d) == Is(s.macs[i], m, d) { }
      if Listed(s.macs, m, d) {
        var i :| 0 <= i < |s.macs| && Is(s.macs[i], m, d);
        assert Is(t.macs[i], m, d);
      }
    }
    LoggedSilent(s, t);
  }

  lemma CyclePolicy(s: NetState, os: Os)
    ensures forall n :: Allowed(Cycle(s, os), n) == Allowed(s, n)
    ensures Cycle(s, os).settings == s.settings && Cycle(s, os).shouldRun == s.shouldRun
    ensures Cycle(s, os).matches == s.matches && Cycle(s, os).mode == s.mode && Cycle(s, os).patterns == s.patterns
  {
    var t1 := Detect(Begin(s), os);
    var t2 := Manage(t1, os);
    DetectSettings(Begin(s), os);
    ManageSettings(t1, os);
    MaintainSettings(t2, |t2.devices|, os);
  }
}
