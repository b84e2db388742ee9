/** What a cycle takes over from the system and from the frames that are heard, told by the readings alone. */
module Observations {
  import opened Basics
  import opened Addresses
  import opened Ordering
  import opened NetworkModel
  import opened NetworkLaws
  import opened NetworkCycle
  import NetworkRuns
  import PingRates
  import opened Frames

  // The system's readings of devices

  lemma DeviceAfter(s: NetState, os: Os, now: real, name: string)
    requires Inv(s, now) && OsOk(os, now)
    ensures Find(NetworkModel.Cycle(s, os).devices, name) ==
            match Find(Settled(s, os).devices, name)
            case None => None
            case Some(d) => Some(Pinged(d, os.start, s.settings.pingInterval, os.address(d.name)))
  {
    hide Settled;
    PingRates.SettledInv(s, os, now);
    SettledSettings(s, os);
    NetworkRuns.CycleKeeps(s, os, now);
    var t := Settled(s, os);
    PingRates.PingsFind(t.devices, os, t.settings.pingInterval, name, NetworkModel.Cycle(s, os).devices);
  }

  /** After a cycle with the control socket open every known device has the flags and addresses that the system reports
      for it. Without the socket a device keeps what it had, and a new one has nothing yet. A device keeps its kind and
      its hardware address for as long as it is known; a new one has those that the system reports. */
  lemma DeviceReadings(s: NetState, os: Os, now: real, name: string)
    requires Inv(s, now) && OsOk(os, now) && Known(NetworkModel.Cycle(s, os).devices, name)
    ensures var d := Find(NetworkModel.Cycle(s, os).devices, name).value;
            && d.name == name
            && (s.settings.controlOpen ==>
                  d.up == os.up(name) && d.running == os.running(name) &&
                  d.ip == IpText(os.ip(name)) && d.broadcastIp == IpText(os.broadcastIp(name)))
            && match Find(s.devices, name)
               case Some(f) =>
                 && d.mac == f.mac && d.hardware == f.hardware
                 && (!s.settings.controlOpen ==>
                       d.up == f.up && d.running == f.running && d.ip == f.ip && d.broadcastIp == f.broadcastIp)
               case None =>
                 && d.mac == MacText(os.address(name)) && d.hardware == os.hardware(name)
                 && (!s.settings.controlOpen ==> !d.up && !d.running && d.ip == "" && d.broadcastIp == "")
  {
    hide Settled, NetworkModel.Cycle, OsOk, MacText, IpText;
    DeviceAfter(s, os, now, name);
    PingRates.SettledFind(s, os, now, name);
    FindSpec(s.devices, name);
    TextNotEmpty(os.address(name));
  }

  lemma TextNotEmpty(a: Address)
    ensures MacText(a) != ""
  {
    assert |MacText(a)| == 17;
  }

  // Frames

  /** A frame header was read; a failed read counts too, because its negative length is compared as a huge number. */
  predicate Arrives(r: Reading) {
    -0x8000_0000 <= r.length < 0x8000_0000 && (r.length < 0 || r.length >= 14)
  }

  /** The address may be recorded: it is not all zero, not the broadcast address, and, if those are ignored, not that of
      a known device. */
  predicate Recordable(s: NetState, mac: string) {
    && mac != "00:00:00:00:00:00" && mac != "ff:ff:ff:ff:ff:ff"
    && (s.settings.ignoreDeviceMacs ==> forall i :: 0 <= i < |s.devices| ==> s.devices[i].mac != mac)
  }

  /** The sender's hardware and IP address, as they stand in the frame. */
  function FrameMac(r: Reading): string {
    MacText(r.buffer[6..12])
  }

  function FrameIp(r: Reading): Ip {
    r.buffer[26..30]
  }

  /** The frame is an IP packet from a sender whose address says something: not the broadcast address, not 224.x.x.x. */
  predicate TellsIp(r: Reading) {
    r.buffer[12] == 8 && r.buffer[13] == 0 && FrameIp(r) != [255, 255, 255, 255] && r.buffer[26] != 224
  }

  lemma DecimalStart(b: byte, rest: string)
    ensures var s := Decimal(b) + "." + rest;
            |s| >= 2 && (|s| >= 3 && s[..3] == "224" <==> b == 224)
  {
    var s := Decimal(b) + "." + rest;
    assert b < 10 ==> s[1] == '.';
    assert 10 <= b < 100 ==> s[2] == '.';
    assert b >= 100 ==> s[0] == Digit(b / 100) && s[1] == Digit(b / 10 % 10) && s[2] == Digit(b % 10);
    assert b >= 100 && s[..3] == "224" ==> s[0] == '2' && s[1] == '2' && s[2] == '4';
    if b == 224 { assert s[..3] == "224"; }
  }

  /** Which senders are accepted, told by their bytes. */
  lemma IpAllowedExactly(ip: Ip)
    ensures IpAllowed(IpText(ip)) <==> ip != [255, 255, 255, 255] && ip[0] != 224
  {
    hide Decimal, InetAton;
    DecimalStart(ip[0], Decimal(ip[1]) + "." + (Decimal(ip[2]) + "." + Decimal(ip[3])));
    InetAtonOfIpText(ip);
    InetAtonOfIpText([255, 255, 255, 255]);
    assert IpText([255, 255, 255, 255]) == "255.255.255.255" by { BroadcastIpText(); }
  }

  lemma BroadcastIpText()
    ensures IpText([255, 255, 255, 255]) == "255.255.255.255"
  {
    assert Decimal(255) == "255";
  }

  lemma RecordableExactly(s: NetState, mac: string)
    ensures MacAllowed(s, mac) <==> Recordable(s, mac)
  {
  }

  /** What a frame leaves in the evidence: its IP address for its sender, if it tells one and the sender may be
      recorded; nothing else. The change names the device on which the frame was heard. */
  lemma FrameEvidence(s: NetState, device: string, r: Reading, mac: string, field: string)
    ensures var t, ip := Hear(s, device, r), IpText(FrameIp(r));
            var tells := Arrives(r) && Recordable(s, FrameMac(r)) && TellsIp(r);
            && EvidenceOf(t.evidence, mac, field) ==
               (if tells && mac == FrameMac(r) && field == "ip" then ip else EvidenceOf(s.evidence, mac, field))
            && t.events ==
               s.events +
               (if Arrives(r) && Recordable(s, FrameMac(r)) && LastSeen(s.macs, FrameMac(r), device) == -1.0
                then [MacDiscovered(device, FrameMac(r))] else []) +
               (if tells && EvidenceOf(s.evidence, FrameMac(r), "ip") != ip
                then [MacEvidenceChanged(device, FrameMac(r), "ip", ip, EvidenceOf(s.evidence, FrameMac(r), "ip"))]
                else [])
  {
    hide MacAllowed, IpAllowed, UpdateEvidence, Recordable, IpText, MacText, EvidenceOf;
    var added := AddMac(s, FrameMac(r), device, r.at);
    RecordableExactly(s, FrameMac(r));
    IpAllowedExactly(FrameIp(r));
    SamePolicy(s, added, FrameMac(r));
    UpdateEvidenceIs(added, device, FrameMac(r), "ip", IpText(FrameIp(r)));
    assert SenderIp(r.buffer) == IpText(FrameIp(r)) && SourceMac(r.buffer) == FrameMac(r);
  }

  lemma SamePolicy(s: NetState, t: NetState, mac: string)
    requires t.devices == s.devices && t.settings == s.settings
    ensures MacAllowed(t, mac) == MacAllowed(s, mac)
  {
  }

  /** What a frame leaves in the table: its sender on the device on which it was heard, last heard now. An entry that
      was there keeps its place and when it was first heard; a new one stands at the end. Nothing else changes. */
  lemma FrameTable(s: NetState, device: string, r: Reading)
    ensures var t, mac := Hear(s, device, r), FrameMac(r);
            && (!(Arrives(r) && Recordable(s, mac)) ==> t.macs == s.macs)
            && (Arrives(r) && Recordable(s, mac) ==>
                  if exists i :: 0 <= i < |s.macs| && Is(s.macs[i], mac, device) then
                    && |t.macs| == |s.macs|
                    && forall i :: 0 <= i < |s.macs| ==>
                         t.macs[i] == if s.macs[i].mac == mac && s.macs[i].device == device
                                      then s.macs[i].(lastSeen := r.at) else s.macs[i]
                  else
                    t.macs == s.macs + [Entity(mac, device, "", "", r.at, r.at, 0.0)])
  {
    hide MacAllowed, Recordable, MacText;
    RecordableExactly(s, FrameMac(r));
    NetworkRuns.HearMacs(s, device, r);
    hide Hear;
  }

  // Whole cycles

  /** The IP address that the last telling frame of an address among the first k devices names. */
  function LastTold(s: NetState, k: nat, os: Os, mac: string): Option<Ip> {
    if k == 0 then None
    else
      var r := os.reading(k - 1);
      if Arrives(r) && Recordable(s, mac) && TellsIp(r) && FrameMac(r) == mac then Some(FrameIp(r))
      else LastTold(s, k - 1, os, mac)
  }

  lemma {:induction false} HearAllEvidence(s: NetState, k: nat, os: Os, mac: string)
    requires k <= |s.devices|
    ensures EvidenceOf(HearAll(s, k, os).evidence, mac, "ip") ==
            match LastTold(s, k, os, mac)
            case None => EvidenceOf(s.evidence, mac, "ip")
            case Some(ip) => IpText(ip)
  {
    hide Hear, EvidenceOf, Recordable, TellsIp, FrameMac, IpText;
    if k > 0 {
      var t := HearAll(s, k - 1, os);
      HearAllEvidence(s, k - 1, os, mac);
      HearAllSettings(s, k - 1, os);
      FrameEvidence(t, s.devices[k - 1].name, os.reading(k - 1), mac, "ip");
      SameRecordable(s, t, mac);
    }
  }

  lemma SameRecordable(s: NetState, t: NetState, mac: string)
    requires t.devices == s.devices && t.settings == s.settings
    ensures Recordable(t, mac) == Recordable(s, mac)
  {
  }

  lemma {:induction false} HostnamesKeepIps(s: NetState, order: seq<string>, os: Os, mac: string)
    ensures EvidenceOf(CheckHostnames(s, order, os).evidence, mac, "ip") == EvidenceOf(s.evidence, mac, "ip")
  {
    hide UpdateEvidence, EvidenceOf;
    if order != [] {
      var front, last := order[..|order| - 1], order[|order| - 1];
      var t := CheckHostnames(s, front, os);
      HostnamesKeepIps(s, front, os, mac);
      if EvidenceHas(t.evidence, last, "ip") && os.resolve(t.evidence[last]["ip"]).Some? {
        UpdateEvidenceIs(t, DeviceForMac(t.macs, last), last, "hostname", os.resolve(t.evidence[last]["ip"]).value);
      }
    }
  }

  /** After a cycle the IP address on record for a hardware address is that of its last telling frame of the cycle, or
      what it was before. */
  lemma CycleIps(s: NetState, os: Os, mac: string)
    ensures EvidenceOf(NetworkModel.Cycle(s, os).evidence, mac, "ip") ==
            match LastTold(s, |s.devices|, os, mac)
            case None => EvidenceOf(s.evidence, mac, "ip")
            case Some(ip) => IpText(ip)
  {
    hide EvidenceOf, HearAll, CheckHostnames, Recordable, TellsIp, FrameMac, IpText;
    var t := Begin(s);
    var heard := HearAll(t, |s.devices|, os);
    HearAllEvidence(t, |s.devices|, os, mac);
    LastToldSame(s, t, |s.devices|, os, mac);
    HostnamesKeepIps(heard, SortedKeys(heard.evidence.Keys), os, mac);
    var detected := Detect(t, os);
    ManageSettings(detected, os);
    MaintainSettings(Manage(detected, os), |Manage(detected, os).devices|, os);
  }

  lemma {:induction false} LastToldSame(s: NetState, t: NetState, k: nat, os: Os, mac: string)
    requires t.devices == s.devices && t.settings == s.settings
    ensures LastTold(s, k, os, mac) == LastTold(t, k, os, mac)
  {
    SameRecordable(s, t, mac);
    hide Recordable;
    if k > 0 { LastToldSame(s, t, k - 1, os, mac); }
  }

  lemma {:induction false} HearAllHostnames(s: NetState, k: nat, os: Os, mac: string)
    requires k <= |s.devices|
    ensures EvidenceOf(HearAll(s, k, os).evidence, mac, "hostname") == EvidenceOf(s.evidence, mac, "hostname")
  {
    hide Hear, EvidenceOf;
    if k > 0 {
      HearAllHostnames(s, k - 1, os, mac);
      FrameEvidence(HearAll(s, k - 1, os), s.devices[k - 1].name, os.reading(k - 1), mac, "hostname");
    }
  }

  /** Host names are looked up when the interval since the last time has passed, and not before. */
  lemma HostnamesOnlyWhenDue(s: NetState, os: Os, mac: string)
    ensures var t := NetworkModel.Cycle(s, os);
            if os.checkTime - s.hostnamesLastChecked > s.settings.hostnameInterval
            then t.hostnamesLastChecked == os.checkTime
            else t.hostnamesLastChecked == s.hostnamesLastChecked &&
                 EvidenceOf(t.evidence, mac, "hostname") == EvidenceOf(s.evidence, mac, "hostname")
  {
    hide EvidenceOf, HearAll, CheckHostnames;
    var t := Begin(s);
    HearAllSettings(t, |t.devices|, os);
    HearAllHostnames(t, |t.devices|, os, mac);
    var detected := Detect(t, os);
    ManageSettings(detected, os);
    MaintainSettings(Manage(detected, os), |Manage(detected, os).devices|, os);
  }

  /** After a cycle no entry without a host name has been waiting for longer than the update interval; an entry is
      stamped with the start of the cycle or keeps its stamp. */
  lemma CycleStamps(s: NetState, os: Os, i: nat)
    requires i < |NetworkModel.Cycle(s, os).macs|
    ensures var e, interval := NetworkModel.Cycle(s, os).macs[i], s.settings.updateInterval;
            && (e.hostName == "" ==> os.start - e.lastUpdate <= if interval < 0.0 then 0.0 else interval)
            && exists f :: f in Settled(s, os).macs && f.(lastUpdate := e.lastUpdate) == e &&
                           (e.lastUpdate == f.lastUpdate ||
                            (e.lastUpdate == os.start && f.hostName == "" && os.start - f.lastUpdate > interval))
  {
    hide Settled;
    var t, doom := Settled(s, os), Unheard(os.start, s.settings.maxMacAge);
    SettledSettings(s, os);
    SurvivorsSpec(t.macs, doom);
    var f := Survivors(t.macs, doom)[i];
    assert f in Survivors(t.macs, doom);
  }

  // Frames that were built

  /** A frame as it is built and read: destination, source and type stand in front of the payload, in which an IP header
      has its sender at byte 12. */
  lemma BuiltFrame(destination: Address, source: Address, etherType: int, payload: seq<byte>, at: real)
    requires 0 <= etherType < 0x10000 && 20 <= |payload| && 14 + |payload| <= FRAME_LENGTH
    ensures var frame := Frame(destination, source, etherType, payload);
            var r := Reading(|frame|, Arrived(frame), at);
            && Arrives(r) && frame[..6] == destination && FrameMac(r) == MacText(source)
            && frame[12] == etherType / 256 && frame[13] == etherType % 256 && FrameIp(r) == payload[12..16]
            && (TellsIp(r) <==> etherType == 0x0800 && payload[12..16] != [255, 255, 255, 255] && payload[12] != 224)
  {
    hide MacText;
    var frame := Frame(destination, source, etherType, payload);
    var buffer := Arrived(frame);
    assert buffer[6..12] == source && buffer[26..30] == payload[12..16] && frame[..6] == destination;
    assert buffer[12] == etherType / 256 && buffer[13] == etherType % 256 && buffer[26] == payload[12];
  }

  /** Hearing a built frame: its sender gets the IP address at byte 12 of the payload, if the frame is an IP packet and
      the address is neither the broadcast address nor 224.x.x.x. */
  lemma BuiltFrameHeard(s: NetState, device: string, destination: Address, source: Address, etherType: int,
                        payload: seq<byte>, at: real)
    requires 0 <= etherType < 0x10000 && 20 <= |payload| && 14 + |payload| <= FRAME_LENGTH
    ensures var frame := Frame(destination, source, etherType, payload);
            var t, ip := Hear(s, device, Reading(|frame|, Arrived(frame), at)), payload[12..16];
            EvidenceOf(t.evidence, MacText(source), "ip") ==
            if Recordable(s, MacText(source)) && etherType == 0x0800 && ip != [255, 255, 255, 255] && ip[0] != 224
            then IpText(ip) else EvidenceOf(s.evidence, MacText(source), "ip")
  {
    hide Hear, EvidenceOf, Recordable, MacText, IpText;
    BuiltFrame(destination, source, etherType, payload, at);
    var frame := Frame(destination, source, etherType, payload);
    FrameEvidence(s, device, Reading(|frame|, Arrived(frame), at), MacText(source), "ip");
  }

  // Host names

  /** Entry i is the first one of the address. */
  predicate IsFirst(macs: seq<Entity>, mac: string, i: nat)
    requires i < |macs|
  {
    macs[i].mac == mac && forall j :: 0 <= j < i ==> macs[j].mac != mac
  }

  /** A name that is found is recorded for the address and told to the device of the first entry of the address. */
  lemma HostnameTold(s: NetState, mac: string, os: Os)
    requires MacAllowed(s, mac) && EvidenceHas(s.evidence, mac, "ip") && !EvidenceHas(s.evidence, mac, "hostname")
    requires os.resolve(s.evidence[mac]["ip"]).Some? && os.resolve(s.evidence[mac]["ip"]).value != ""
    ensures var t, host := CheckHostname(s, mac, os), os.resolve(s.evidence[mac]["ip"]).value;
            && EvidenceOf(t.evidence, mac, "hostname") == host
            && |t.events| == |s.events| + 1
            && var e := t.events[|s.events|];
               && e == MacEvidenceChanged(e.device, mac, "hostname", host, "")
               && (forall i :: 0 <= i < |s.macs| && IsFirst(s.macs, mac, i) ==> e.device == s.macs[i].device)
               && ((forall i :: 0 <= i < |s.macs| ==> s.macs[i].mac != mac) ==> e.device == "")
  {
    hide UpdateEvidence, MacAllowed;
    UpdateEvidenceIs(s, DeviceForMac(s.macs, mac), mac, "hostname", os.resolve(s.evidence[mac]["ip"]).value);
    FirstDevice(s.macs, mac);
  }

  lemma {:induction false} FirstDevice(macs: seq<Entity>, mac: string)
    ensures forall i :: 0 <= i < |macs| && IsFirst(macs, mac, i) ==> DeviceForMac(macs, mac) == macs[i].device
    ensures (forall i :: 0 <= i < |macs| ==> macs[i].mac != mac) ==> DeviceForMac(macs, mac) == ""
  {
    if macs != [] && macs[0].mac != mac {
      FirstDevice(macs[1..], mac);
      forall i | 0 <= i < |macs| && IsFirst(macs, mac, i) ensures DeviceForMac(macs, mac) == macs[i].device {
        assert macs[1..][i - 1] == macs[i];
        assert forall j :: 0 <= j < i - 1 ==> macs[1..][j] == macs[j + 1];
        assert IsFirst(macs[1..], mac, i - 1);
      }
      if forall i :: 0 <= i < |macs| ==> macs[i].mac != mac {
        assert forall j :: 0 <= j < |macs| - 1 ==> macs[1..][j] == macs[j + 1];
      }
    }
  }
}
