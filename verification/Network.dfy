/** The network monitor itself: lists changed in place by erase-and-restart loops. Every method is proved to do
    to the state what the function of the same name in NetworkModel says. */
module Networks {
  import opened Basics
  import opened Addresses
  import opened Ordering
  import opened NetworkModel
  import opened NetworkLaws
  import opened NetworkCycle
  import opened Devices

  lemma {:induction false} FindFirst(devices: seq<DeviceInfo>, i: nat, name: string)
    requires i <= |devices|
    requires forall j :: 0 <= j < i ==> devices[j].name != name
    ensures Find(devices, name) == Find(devices[i..], name)
  {
    if i == 0 {
      assert devices[0..] == devices;
    } else {
      FindFirst(devices[1..], i - 1, name);
      assert devices[1..][i - 1..] == devices[i..];
    }
  }

  lemma {:induction false} EraseFirstFirst(devices: seq<DeviceInfo>, i: nat, name: string)
    requires i <= |devices|
    requires forall j :: 0 <= j < i ==> devices[j].name != name
    requires i < |devices| ==> devices[i].name == name
    ensures EraseFirst(devices, name) == if i == |devices| then devices else devices[..i] + devices[i + 1..]
  {
    if i > 0 {
      var first, rest := devices[0], devices[1..];
      EraseFirstFirst(rest, i - 1, name);
      assert EraseFirst(devices, name) == [first] + EraseFirst(rest, name);
      hide EraseFirst;
      if i < |devices| {
        CutLater(devices, i);
      } else {
        assert devices == [first] + rest;
      }
    } else if devices != [] {
      assert devices[..0] + devices[1..] == devices[1..];
    }
  }

  /** Cutting out an element after the first one cuts it out of the rest. */
  lemma CutLater<T>(s: seq<T>, i: nat)
    requires 0 < i < |s|
    ensures s[..i] + s[i + 1..] == [s[0]] + (s[1..][..i - 1] + s[1..][i..])
  {
    assert s[..i] == [s[0]] + s[1..][..i - 1];
    assert s[i + 1..] == s[1..][i..];
  }

  /** Erases entry i of the table and reports it. */
  ghost function EraseAt(s: NetState, i: nat): NetState
    requires i < |s.macs|
  {
    s.(macs := s.macs[..i] + s.macs[i + 1..], events := s.events + [MacDisappeared(s.macs[i].device, s.macs[i].mac)])
  }

  lemma AddDeviceCases(s: NetState, name: string, os: Os)
    ensures NetworkModel.AddDevice(s, name, os) ==
            if Allowed(s, name) && !Known(s.devices, name) && name in s.systemNames then
              var mac := MacText(os.address(name));
              s.(devices := s.devices + [FreshDevice(name, os.hardware(name)).(mac := mac)],
                 events := s.events + [DeviceAdded(name), DeviceEvidenceChanged(name, "mac", mac, "")])
            else s
  {
  }

  /** Index of the first entry of the pair, or the length of the table. */
  function FirstOf(macs: seq<Entity>, mac: string, device: string): (i: nat)
    ensures i <= |macs| && (i < |macs| ==> Is(macs[i], mac, device))
    ensures forall j :: 0 <= j < i ==> !Is(macs[j], mac, device)
  {
    if macs == [] || Is(macs[0], mac, device) then 0 else 1 + FirstOf(macs[1..], mac, device)
  }

  /** The state without the first entry of the pair; nothing happens when there is none. */
  ghost function WithoutPair(s: NetState, mac: string, device: string): NetState {
    var i := FirstOf(s.macs, mac, device);
    if i < |s.macs| then EraseAt(s, i) else s
  }

  lemma {:induction false} NoHits(macs: seq<Entity>, doom: Doom)
    requires forall i :: 0 <= i < |macs| ==> !doom.Hits(macs[i])
    ensures Survivors(macs, doom) == macs && Farewells(macs, doom) == []
  {
    if macs != [] {
      NoHits(macs[..|macs| - 1], doom);
    }
  }

  lemma SurvivorsOfHit(m: Entity, q: seq<Entity>, doom: Doom)
    requires doom.Hits(m)
    ensures Survivors([m] + q, doom) == Survivors(q, doom)
    ensures Farewells([m] + q, doom) == [MacDisappeared(m.device, m.mac)] + Farewells(q, doom)
  {
    assert [m][..0] == [];
    SurvivorsConcat([m], q, doom);
  }

  lemma SplitAtHit(macs: seq<Entity>, doom: Doom, i: nat)
    requires i < |macs| && doom.Hits(macs[i])
    requires forall j :: 0 <= j < i ==> !doom.Hits(macs[j])
    ensures Survivors(macs, doom) == Survivors(macs[..i] + macs[i + 1..], doom)
    ensures Farewells(macs, doom) ==
            [MacDisappeared(macs[i].device, macs[i].mac)] + Farewells(macs[..i] + macs[i + 1..], doom)
  {
    hide Survivors, Farewells;
    var p, m, q := macs[..i], macs[i], macs[i + 1..];
    NoHits(p, doom);
    SurvivorsConcat(p, q, doom);
    SurvivorsOfHit(m, q, doom);
    SurvivorsConcat(p, [m] + q, doom);
    assert macs == p + ([m] + q);
  }

  lemma BroadcastersStart(infos: seq<DeviceInfo>, start: real, interval: real)
    ensures Broadcasters(infos[..0], start, interval) == []
  {
  }

  lemma BroadcastersStep(infos: seq<DeviceInfo>, i: nat, start: real, interval: real)
    requires i < |infos|
    ensures Broadcasters(infos[..i + 1], start, interval) ==
            Broadcasters(infos[..i], start, interval) +
            (if Broadcasts(infos[i], start, interval) then [infos[i].name] else [])
  {
    hide Broadcasts;
    assert infos[..i + 1][..i] == infos[..i];
  }

  /** Erasing the first entry that a doom hits does not change what dropping by that doom gives. */
  lemma EraseFirstHit(s: NetState, doom: Doom, i: nat)
    requires i < |s.macs| && doom.Hits(s.macs[i])
    requires forall j :: 0 <= j < i ==> !doom.Hits(s.macs[j])
    ensures Drop(EraseAt(s, i), doom) == Drop(s, doom)
  {
    SplitAtHit(s.macs, doom, i);
    var m, rest := s.macs[i], Farewells(s.macs[..i] + s.macs[i + 1..], doom);
    assert s.events + [MacDisappeared(m.device, m.mac)] + rest == s.events + ([MacDisappeared(m.device, m.mac)] + rest);
  }

  /** Erasing the pair of the first entry on a device erases that entry. */
  lemma ErasePairHit(s: NetState, device: string, i: nat)
    requires i < |s.macs| && s.macs[i].device == device && forall j :: 0 <= j < i ==> s.macs[j].device != device
    ensures var t := WithoutPair(s, s.macs[i].mac, device);
            |t.macs| < |s.macs| && Drop(t, OnDevice(device)) == Drop(s, OnDevice(device))
  {
    hide Drop;
    assert FirstOf(s.macs, s.macs[i].mac, device) == i;
    EraseFirstHit(s, OnDevice(device), i);
  }

  lemma DropNothing(s: NetState, doom: Doom)
    requires forall i :: 0 <= i < |s.macs| ==> !doom.Hits(s.macs[i])
    ensures Drop(s, doom) == s
  {
    NoHits(s.macs, doom);
  }

  lemma {:induction false} LastSeenFirst(macs: seq<Entity>, i: nat, mac: string, device: string)
    requires i <= |macs| && forall j :: 0 <= j < i ==> !Is(macs[j], mac, device)
    ensures LastSeen(macs, mac, device) == LastSeen(macs[i..], mac, device)
  {
    if i == 0 {
      assert macs[0..] == macs;
    } else {
      LastSeenFirst(macs[1..], i - 1, mac, device);
      assert macs[1..][i - 1..] == macs[i..];
    }
  }

  lemma {:induction false} DeviceForMacFirst(macs: seq<Entity>, i: nat, mac: string)
    requires i <= |macs| && forall j :: 0 <= j < i ==> macs[j].mac != mac
    ensures DeviceForMac(macs, mac) == DeviceForMac(macs[i..], mac)
  {
    if i == 0 {
      assert macs[0..] == macs;
    } else {
      DeviceForMacFirst(macs[1..], i - 1, mac);
      assert macs[1..][i - 1..] == macs[i..];
    }
  }

  class Network {
    var devices: seq<Device>
    var systemNames: seq<string>
    var events: seq<Event>
    var macs: seq<Entity>
    var mode: ListMode
    var patterns: seq<string>
    const matches: (string, string) -> bool
    var settings: Settings
    var hostnamesLastChecked: real
    var shouldRun: bool
    var evidence: Evidence

    ghost predicate Valid()
      reads this
    {
      Distinct(devices)
    }

    ghost function State(): NetState
      reads this, devices
    {
      NetState(Infos(devices), systemNames, events, macs, mode, patterns, matches, settings,
               hostnamesLastChecked, shouldRun, evidence)
    }

    constructor (matches: (string, string) -> bool, controlOpen: bool)
      ensures Valid()
      ensures devices == [] && systemNames == [] && events == [] && macs == [] && patterns == [] && evidence == map[]
      ensures mode == Blacklist && shouldRun && this.matches == matches && hostnamesLastChecked == 0.0
      ensures settings == Settings(controlOpen, false, true, 300.0, 10.0, 10.0, 15.0)
    {
      devices, systemNames, events, macs, patterns := [], [], [], [], [];
      mode, shouldRun, evidence, hostnamesLastChecked := Blacklist, true, map[], 0.0;
      this.matches := matches;
      settings := Settings(controlOpen, false, true, 300.0, 10.0, 10.0, 15.0);
    }

    method ScheduleEvent(e: Event)
      requires Valid()
      modifies this`events
      ensures events == old(events) + [e]
      ensures State() == old(State()).(events := events)
    {
      events := events + [e];
    }

    method DeviceAllowed(name: string) returns (ok: bool)
      ensures ok == Allowed(State(), name)
    {
      var inList := false;
      for i := 0 to |patterns|
        invariant inList <==> exists j :: 0 <= j < i && matches(name, patterns[j])
      {
        if matches(name, patterns[i]) {
          inList := true;
        }
      }
      assert inList <==> exists p :: p in patterns && matches(name, p);
      ok := (mode == Whitelist && inList) || (mode == Blacklist && !inList);
    }

    method KnownDevice(name: string) returns (d: Device?)
      requires Valid()
      ensures d == null <==> !Known(Infos(devices), name)
      ensures d != null ==> d in devices && Find(Infos(devices), name) == Some(d.Info())
    {
      d := null;
      var i := 0;
      while i < |devices|
        invariant i <= |devices| && d == null
        invariant forall j :: 0 <= j < i ==> devices[j].name != name
      {
        if devices[i].name == name {
          FindFirst(Infos(devices), i, name);
          return devices[i];
        }
        i := i + 1;
      }
      FindFirst(Infos(devices), i, name);
    }

    method AddDevice(name: string, os: Os) returns (ok: bool)
      requires Valid()
      modifies this
      ensures Valid() && old(devices) <= devices && (forall i :: |old(devices)| <= i < |devices| ==> fresh(devices[i]))
      ensures State() == NetworkModel.AddDevice(old(State()), name, os)
      ensures ok <==> devices != old(devices)
    {
      AddDeviceCases(State(), name, os);
      hide NetworkModel.AddDevice, Allowed, Find, MacText, Infos;
      ok := false;
      var allowed := DeviceAllowed(name);
      if allowed {
        var known := KnownDevice(name);
        if known == null {
          if name in systemNames {
            var d := Register(name, os);
            ok := true;
          }
        }
      }
    }

    /** The branch of AddDevice that creates the device, reports it and reports its address. */
    method Register(name: string, os: Os) returns (d: Device)
      requires Valid()
      modifies this
      ensures Valid() && devices == old(devices) + [d] && fresh(d)
      ensures var mac := MacText(os.address(name));
              State() == old(State()).(
                devices := old(Infos(devices)) + [FreshDevice(name, os.hardware(name)).(mac := mac)],
                events := old(events) + [DeviceAdded(name), DeviceEvidenceChanged(name, "mac", mac, "")])
    {
      hide MacText, Infos;
      ghost var known, before := devices, Infos(devices);
      d := new Device(name, os.hardware(name));
      devices := devices + [d];
      ReportNew(d, os);
      assert Infos(known) == before;
      InfosAppend(known, d);
    }

    /** Reports a new device and its address, which is read now. */
    method ReportNew(d: Device, os: Os)
      requires d.mac == ""
      modifies this`events, d
      ensures var mac := MacText(os.address(d.name));
              && d.Info() == old(d.Info()).(mac := mac)
              && events == old(events) + [DeviceAdded(d.name), DeviceEvidenceChanged(d.name, "mac", mac, "")]
    {
      hide MacText;
      events := events + [DeviceAdded(d.name)];
      var mac := d.Mac(os.address(d.name));
      events := events + [DeviceEvidenceChanged(d.name, "mac", mac, "")];
    }

    /** Erases the first entry of the pair and reports it. */
    method RemoveMac(device: string, mac: string)
      requires Valid()
      modifies this`macs, this`events
      ensures State() == WithoutPair(old(State()), mac, device)
    {
      var i := 0;
      while i < |macs|
        invariant i <= FirstOf(macs, mac, device) && State() == old(State())
      {
        if macs[i].device == device && macs[i].mac == mac {
          macs := macs[..i] + macs[i + 1..];
          ScheduleEvent(MacDisappeared(device, mac));
          break;
        }
        i := i + 1;
      }
    }

    method RemoveDevice(name: string)
      requires Valid()
      modifies this
      ensures Valid() && (forall d :: d in devices ==> d in old(devices))
      ensures State() == NetworkModel.RemoveDevice(old(State()), name)
    {
      hide Infos, Drop;
      EraseDevice(name);
      ScheduleEvent(DeviceRemoved(name));
      RemoveMacsOn(name);
    }

    /** The erase-and-restart loop over the entries of a removed device. */
    method RemoveMacsOn(name: string)
      requires Valid()
      modifies this`macs, this`events
      ensures State() == Drop(old(State()), OnDevice(name))
    {
      hide Infos, Drop, WithoutPair;
      var changed := true;
      while changed
        invariant Drop(State(), OnDevice(name)) == Drop(old(State()), OnDevice(name))
        invariant !changed ==> forall i :: 0 <= i < |macs| ==> macs[i].device != name
        decreases |macs|, changed
      {
        changed := false;
        var i := 0;
        while i < |macs|
          invariant i <= |macs| && !changed
          invariant forall j :: 0 <= j < i ==> macs[j].device != name
        {
          if macs[i].device == name {
            ErasePairHit(State(), name, i);
            RemoveMac(name, macs[i].mac);
            changed := true;
            break;
          }
          i := i + 1;
        }
      }
      DropNothing(State(), OnDevice(name));
    }

    /** The loop that erases the first device of the name. */
    method EraseDevice(name: string)
      requires Valid()
      modifies this`devices
      ensures Valid() && (forall d :: d in devices ==> d in old(devices))
      ensures State() == old(State()).(devices := EraseFirst(old(Infos(devices)), name))
    {
      hide EraseFirst, Infos, Distinct;
      var i := 0;
      while i < |devices|
        invariant i <= |devices| && devices == old(devices)
        invariant forall j :: 0 <= j < i ==> devices[j].name != name
      {
        if devices[i].name == name {
          EraseFirstFirst(Infos(devices), i, name);
          CutDevice(devices, i);
          devices := devices[..i] + devices[i + 1..];
          return;
        }
        i := i + 1;
      }
      EraseFirstFirst(Infos(devices), i, name);
    }

    method AddDeviceWhiteBlacklistEntry(pattern: string)
      requires Valid()
      modifies this
      ensures Valid() && (forall d :: d in devices ==> d in old(devices))
      ensures State() == AddPattern(old(State()), pattern)
    {
      hide Allowed, RemoveAll;
      patterns := patterns + [pattern];
      ghost var listed := State();
      var remove: seq<string> := [];
      for i := 0 to |devices|
        invariant State() == listed && devices == old(devices)
        invariant remove == Banned(listed, Infos(devices)[..i])
      {
        var allowed := DeviceAllowed(devices[i].name);
        assert Infos(devices)[..i + 1][..i] == Infos(devices)[..i];
        if !allowed {
          remove := remove + [devices[i].name];
        }
      }
      assert Infos(devices)[..|devices|] == Infos(devices);
      RemoveDevices(remove);
    }

    method RemoveDevices(names: seq<string>)
      requires Valid()
      modifies this
      ensures Valid() && (forall d :: d in devices ==> d in old(devices))
      ensures State() == RemoveAll(old(State()), names)
    {
      for i := 0 to |names|
        invariant Valid() && (forall d :: d in devices ==> d in old(devices))
        invariant State() == RemoveAll(old(State()), names[..i])
      {
        RemoveDevice(names[i]);
        assert names[..i + 1][..i] == names[..i];
      }
      assert names[..|names|] == names;
    }

    method AddDevices(names: seq<string>, os: Os)
      requires Valid()
      modifies this
      ensures Valid() && (forall d :: d in devices ==> d in old(devices) || fresh(d))
      ensures State() == AddAll(old(State()), names, os)
    {
      for i := 0 to |names|
        invariant Valid() && (forall d :: d in devices ==> d in old(devices) || fresh(d))
        invariant State() == AddAll(old(State()), names[..i], os)
      {
        var before := devices;
        var ok := AddDevice(names[i], os);
        forall d | d in devices ensures d in old(devices) || fresh(d) {
          assert d in before || d in devices[|before|..];
        }
        assert names[..i + 1][..i] == names[..i];
      }
      assert names[..|names|] == names;
    }

    method UnknownNames() returns (added: seq<string>)
      requires Valid()
      ensures added == Unknown(Infos(devices), systemNames)
    {
      added := [];
      for i := 0 to |systemNames|
        invariant added == Unknown(Infos(devices), systemNames[..i])
      {
        var known := KnownDevice(systemNames[i]);
        assert systemNames[..i + 1][..i] == systemNames[..i];
        if known == null {
          added := added + [systemNames[i]];
        }
      }
      assert systemNames[..|systemNames|] == systemNames;
    }

    method VanishedNames() returns (removed: seq<string>)
      requires Valid()
      ensures removed == Vanished(Infos(devices), systemNames)
    {
      removed := [];
      for i := 0 to |devices|
        invariant removed == Vanished(Infos(devices)[..i], systemNames)
      {
        assert Infos(devices)[..i + 1][..i] == Infos(devices)[..i];
        if devices[i].name !in systemNames {
          removed := removed + [devices[i].name];
        }
      }
      assert Infos(devices)[..|devices|] == Infos(devices);
    }

    /** The device management part of a cycle. */
    method ManageDevices(os: Os)
      requires Valid()
      modifies this
      ensures Valid() && (forall d :: d in devices ==> d in old(devices) || fresh(d))
      ensures State() == Manage(old(State()), os)
    {
      hide RemoveAll, AddAll, Vanished, Unknown;
      systemNames := os.names;
      if settings.autoManage {
        var added := UnknownNames();
        var removed := VanishedNames();
        RemoveDevices(removed);
        AddDevices(added, os);
      }
    }

    /** Reads flags and addresses of one device and reports every difference. */
    method MaintainDeviceStatus(d: Device, os: Os)
      requires Valid() && d in devices
      modifies this`events, d
      ensures settings.controlOpen ==>
                d.Info() == Refreshed(old(d.Info()), os) && events == old(events) + Differences(old(d.Info()), os)
      ensures !settings.controlOpen ==> d.Info() == old(d.Info()) && events == old(events)
    {
      hide UpDifference, RunningDifference, AddressDifference, IpText, InetAton;
      if settings.controlOpen {
        MaintainFlags(d, os.up(d.name), os.running(d.name));
        MaintainAddresses(d, os.ip(d.name), os.broadcastIp(d.name));
        assert Differences(old(d.Info()), os) ==
               (UpDifference(old(d.Info()), os.up(d.name)) + RunningDifference(old(d.Info()), os.running(d.name))) +
               (AddressDifference(d.name, "ip", d.ip, old(d.ip)) +
                AddressDifference(d.name, "broadcast-ip", d.broadcastIp, old(d.broadcastIp)));
      }
    }

    method MaintainFlags(d: Device, up: bool, running: bool)
      modifies this`events, d
      ensures d.Info() == old(d.Info()).(up := up, running := running)
      ensures events == old(events) + (UpDifference(old(d.Info()), up) + RunningDifference(old(d.Info()), running))
    {
      if d.up != up {
        events := events + [DeviceStateChanged(d.name, Up(up))];
      }
      if d.running != running {
        events := events + [DeviceStateChanged(d.name, Running(running))];
      }
      d.up := up;
      d.running := running;
    }

    method MaintainAddresses(d: Device, ip: Ip, broadcastIp: Ip)
      modifies this`events, d
      ensures d.Info() == old(d.Info()).(ip := IpText(ip), broadcastIp := IpText(broadcastIp))
      ensures events == old(events) + (AddressDifference(d.name, "ip", IpText(ip), old(d.ip)) +
                                       AddressDifference(d.name, "broadcast-ip", IpText(broadcastIp),
                                                         old(d.broadcastIp)))
    {
      hide IpText, InetAton;
      InetAtonOfIpText(ip);
      var text := IpText(ip);
      if text != d.ip {
        events := events + [DeviceEvidenceChanged(d.name, "ip", text, d.ip)];
        d.ip := text;
      }
      InetAtonOfIpText(broadcastIp);
      text := IpText(broadcastIp);
      if text != d.broadcastIp {
        events := events + [DeviceEvidenceChanged(d.name, "broadcast-ip", text, d.broadcastIp)];
        d.broadcastIp := text;
      }
    }

    method MaintainDevices(os: Os)
      requires Valid()
      modifies this`events, devices
      ensures devices == old(devices)
      ensures State() == Maintain(old(State()), |devices|, os)
    {
      hide MaintainAt, Infos;
      for i := 0 to |devices|
        invariant devices == old(devices)
        invariant State() == Maintain(old(State()), i, os)
      {
        MaintainOne(i, os);
      }
    }

    method MaintainOne(i: nat, os: Os)
      requires Valid() && i < |devices|
      modifies this`events, devices[i]
      ensures State() == MaintainAt(old(State()), i, os)
    {
      hide Differences, Refreshed, Infos;
      ghost var before := Infos(devices);
      MaintainDeviceStatus(devices[i], os);
      assert Infos(devices) == before[i := devices[i].Info()];
    }

    method MacAllowed(mac: string) returns (ok: bool)
      requires Valid()
      ensures ok == NetworkModel.MacAllowed(State(), mac)
    {
      ok := false;
      if mac != ZERO_MAC && mac != BROADCAST_MAC {
        ok := true;
        if settings.ignoreDeviceMacs {
          var i := 0;
          while i < |devices|
            invariant i <= |devices| && ok
            invariant forall j :: 0 <= j < i ==> devices[j].mac != mac
          {
            if devices[i].mac == mac {
              assert Infos(devices)[i].mac == mac;
              ok := false;
              break;
            }
            i := i + 1;
          }
        }
      }
    }

    method MacLastSeen(mac: string, device: string) returns (time: real)
      ensures time == LastSeen(macs, mac, device)
    {
      time := -1.0;
      var i := 0;
      while i < |macs|
        invariant i <= |macs| && time == -1.0
        invariant forall j :: 0 <= j < i ==> !Is(macs[j], mac, device)
      {
        if macs[i].mac == mac && macs[i].device == device {
          LastSeenFirst(macs, i, mac, device);
          return macs[i].lastSeen;
        }
        i := i + 1;
      }
      LastSeenFirst(macs, i, mac, device);
    }

    method AddMac(mac: string, device: string, at: real) returns (added: bool)
      requires Valid()
      modifies this`events, this`macs
      ensures State() == NetworkModel.AddMac(old(State()), mac, device, at)
      ensures added <==> |macs| == |old(macs)| + 1
    {
      added := false;
      var allowed := MacAllowed(mac);
      if allowed {
        var seen := MacLastSeen(mac, device);
        if seen == -1.0 {
          ScheduleEvent(MacDiscovered(device, mac));
        }
        added := RefreshOrAppend(mac, device, at);
      }
    }

    /** The loop that refreshes every entry of the pair, and the append when there was none. */
    method RefreshOrAppend(mac: string, device: string, at: real) returns (added: bool)
      requires Valid()
      modifies this`macs
      ensures added <==> !Listed(old(macs), mac, device)
      ensures macs == if added then old(macs) + [Entity(mac, device, "", "", at, at, 0.0)]
              else Touch(old(macs), mac, device, at)
    {
      added := false;
      var wasPresent := false;
      for i := 0 to |macs|
        invariant |macs| == |old(macs)|
        invariant forall j :: 0 <= j < i ==> macs[j] == Touched(old(macs)[j], mac, device, at)
        invariant forall j :: i <= j < |macs| ==> macs[j] == old(macs)[j]
        invariant wasPresent <==> exists j :: 0 <= j < i && Is(old(macs)[j], mac, device)
      {
        if macs[i].mac == mac && macs[i].device == device {
          macs := macs[i := macs[i].(lastSeen := at)];
          wasPresent := true;
        }
      }
      if !wasPresent {
        assert macs == old(macs);
        macs := macs + [Entity(mac, device, "", "", at, at, 0.0)];
        added := true;
      }
    }

    method UpdateMacEvidence(device: string, mac: string, field: string, value: string)
      requires Valid()
      modifies this`events, this`evidence
      ensures State() == UpdateEvidence(old(State()), device, mac, field, value)
    {
      var allowed := MacAllowed(mac);
      if allowed {
        evidence := WithField(evidence, mac, field);
        if evidence[mac][field] != value {
          var former := evidence[mac][field];
          evidence := evidence[mac := evidence[mac][field := value]];
          ScheduleEvent(MacEvidenceChanged(device, mac, field, value, former));
        }
      }
    }

    /** The evidence of an address; asking for an unknown address inserts an empty entry. */
    method MacEvidence(mac: string) returns (fields: map<string, string>)
      requires Valid()
      modifies this`evidence
      ensures State() == old(State()).(evidence := WithMac(old(evidence), mac))
      ensures fields == if mac in old(evidence) then old(evidence)[mac] else map[]
    {
      evidence := WithMac(evidence, mac);
      fields := evidence[mac];
    }

    method DeviceForMac(mac: string) returns (device: string)
      ensures device == NetworkModel.DeviceForMac(macs, mac)
    {
      device := "";
      var i := 0;
      while i < |macs|
        invariant i <= |macs| && device == ""
        invariant forall j :: 0 <= j < i ==> macs[j].mac != mac
      {
        if macs[i].mac == mac {
          DeviceForMacFirst(macs, i, mac);
          return macs[i].device;
        }
        i := i + 1;
      }
      DeviceForMacFirst(macs, i, mac);
    }

    method CheckHostnames(os: Os)
      requires Valid()
      modifies this`events, this`evidence
      ensures State() == NetworkModel.CheckHostnames(old(State()), SortedKeys(old(evidence).Keys), os)
    {
      hide CheckHostname, SortedKeys, Infos;
      var order := SortedKeys(evidence.Keys);
      for i := 0 to |order|
        invariant State() == NetworkModel.CheckHostnames(old(State()), order[..i], os)
      {
        assert order[..i + 1][..i] == order[..i];
        LookUp(order[i], os);
      }
      assert order[..|order|] == order;
    }

    /** Looks the name of one address up, if its IP is known and its name is not. */
    method LookUp(mac: string, os: Os)
      requires Valid()
      modifies this`events, this`evidence
      ensures State() == CheckHostname(old(State()), mac, os)
    {
      hide UpdateEvidence, Infos;
      if EvidenceHas(evidence, mac, "ip") && !EvidenceHas(evidence, mac, "hostname") {
        var host := os.resolve(evidence[mac]["ip"]);
        if host.Some? {
          var device := DeviceForMac(mac);
          UpdateMacEvidence(device, mac, "hostname", host.value);
        }
      }
    }

    method HearFrame(device: string, r: Reading)
      requires Valid()
      modifies this`events, this`macs, this`evidence
      ensures State() == Hear(old(State()), device, r)
    {
      if HasHeader(r) {
        var mac := StreamFormat(r.buffer[6..12]);
        var added := AddMac(mac, device, r.at);
        if EtherType(r.buffer) == 0x0800 {
          var ip := SenderIp(r.buffer);
          if IpAllowed(ip) {
            UpdateMacEvidence(device, mac, "ip", ip);
          }
        }
      }
    }

    method PollDevices(os: Os)
      requires Valid()
      modifies this`events, this`macs, this`evidence
      ensures State() == HearAll(old(State()), |devices|, os)
    {
      ghost var start := State();
      ghost var polled := start;
      for i := 0 to |devices|
        invariant polled == HearAll(start, i, os) && State() == polled
      {
        HearFrame(devices[i].name, os.reading(i));
        polled := Hear(polled, start.devices[i].name, os.reading(i));
      }
    }

    method DetectNetworkActivity(os: Os)
      requires Valid()
      modifies this`events, this`macs, this`evidence, this`hostnamesLastChecked
      ensures State() == Detect(old(State()), os)
    {
      hide HearAll, NetworkModel.CheckHostnames, SortedKeys, Infos;
      PollDevices(os);
      if os.checkTime - hostnamesLastChecked > settings.hostnameInterval {
        CheckHostnames(os);
        hostnamesLastChecked := os.checkTime;
      }
    }

    /** The erase-and-restart loop that ages out addresses. */
    method AgeOut(start: real)
      requires Valid()
      modifies this`macs, this`events
      ensures State() == Drop(old(State()), Unheard(start, settings.maxMacAge))
    {
      ghost var doom := Unheard(start, settings.maxMacAge);
      var changed := true;
      while changed
        invariant Drop(State(), doom) == Drop(old(State()), doom)
        invariant !changed ==> forall i :: 0 <= i < |macs| ==> !doom.Hits(macs[i])
        decreases |macs|, changed
      {
        changed := false;
        var i := 0;
        while i < |macs|
          invariant i <= |macs| && !changed
          invariant forall j :: 0 <= j < i ==> !doom.Hits(macs[j])
        {
          if start - macs[i].lastSeen > settings.maxMacAge {
            EraseFirstHit(State(), doom, i);
            ScheduleEvent(MacDisappeared(macs[i].device, macs[i].mac));
            macs := macs[..i] + macs[i + 1..];
            changed := true;
            break;
          }
          i := i + 1;
        }
      }
      NoHits(macs, doom);
    }

    method StampEntries(start: real)
      modifies this`macs
      ensures macs == Stamps(old(macs), start, settings.updateInterval)
    {
      for i := 0 to |macs|
        invariant |macs| == |old(macs)|
        invariant forall j :: 0 <= j < i ==> macs[j] == Stamped(old(macs)[j], start, settings.updateInterval)
        invariant forall j :: i <= j < |macs| ==> macs[j] == old(macs)[j]
      {
        if macs[i].hostName == "" {
          if start - macs[i].lastUpdate > settings.updateInterval {
            macs := macs[i := macs[i].(lastUpdate := start)];
          }
        }
      }
    }

    /** Gives the devices on which a ping was broadcast. */
    method PingDevices(os: Os) returns (pinged: seq<string>)
      requires Valid()
      modifies devices
      ensures Infos(devices) == Pings(old(Infos(devices)), os, settings.pingInterval)
      ensures pinged == Broadcasters(old(Infos(devices)), os.start, settings.pingInterval)
    {
      hide IsPing, EtherAton, InetAton, Pinged, Broadcasts, Pings, Infos, Broadcasters;
      ghost var infos := Infos(devices);
      pinged := [];
      BroadcastersStart(infos, os.start, settings.pingInterval);
      for i := 0 to |devices|
        invariant forall j :: 0 <= j < i ==>
                    devices[j].Info() == Pinged(infos[j], os.start, settings.pingInterval, os.address(infos[j].name))
        invariant forall j :: i <= j < |devices| ==> devices[j].Info() == infos[j]
        invariant pinged == Broadcasters(infos[..i], os.start, settings.pingInterval)
      {
        var d := devices[i];
        BroadcastersStep(infos, i, os.start, settings.pingInterval);
        var ok, sent := d.SendPingBroadcast(os.start, settings.pingInterval, os.address(d.name), os.ping(d.name));
        if sent.Some? {
          pinged := pinged + [d.name];
        }
      }
      assert infos[..|devices|] == infos;
    }

    /** The first half of a cycle: frames, device management, device status. */
    method Settle(os: Os)
      requires Valid()
      modifies this, devices
      ensures Valid() && (forall d :: d in devices ==> d in old(devices) || fresh(d))
      ensures State() == Settled(old(State()), os)
    {
      hide Detect, Manage, Maintain;
      events := [];
      DetectNetworkActivity(os);
      ManageDevices(os);
      assert forall i :: 0 <= i < |devices| ==> devices[i] in devices;
      MaintainDevices(os);
    }

    /** The last part of a cycle: update stamps and ping broadcasts. */
    method WrapUp(os: Os) returns (pinged: seq<string>)
      requires Valid()
      modifies this`macs, devices
      ensures State() == Finish(old(State()), os)
      ensures pinged == Broadcasters(old(Infos(devices)), os.start, settings.pingInterval)
    {
      StampEntries(os.start);
      pinged := PingDevices(os);
    }

    method Cycle(os: Os) returns (ok: bool, pinged: seq<string>)
      requires Valid()
      modifies this, devices
      ensures Valid() && (forall d :: d in devices ==> d in old(devices) || fresh(d))
      ensures State() == NetworkModel.Cycle(old(State()), os)
      ensures ok == shouldRun
      ensures pinged == Broadcasting(old(State()), os)
    {
      hide Settled, Drop, Finish, Infos, Broadcasters;
      SettledSettings(State(), os);
      Settle(os);
      AgeOut(os.start);
      assert forall i :: 0 <= i < |devices| ==> devices[i] in devices;
      pinged := WrapUp(os);
      ok := shouldRun;
    }

    method Shutdown()
      requires Valid()
      modifies this`shouldRun
      ensures State() == old(State()).(shouldRun := false)
    {
      shouldRun := false;
    }
  }
}
