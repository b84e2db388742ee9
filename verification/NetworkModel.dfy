/** The state of the network monitor as a value, and what each of its operations does to that value.
    The operating system (clock, interfaces, frames, name service) enters as one input per cycle. */
module NetworkModel {
  import opened Basics
  import opened Addresses
  import opened Ordering

  // Data

  datatype HardwareType = Loopback | Wired | Wireless

  datatype DeviceInfo = DeviceInfo(name: string, hardware: HardwareType, up: bool, running: bool,
                                   mac: string, ip: string, broadcastIp: string, pingLastSent: real)

  datatype Entity = Entity(mac: string, device: string, hostName: string, ip: string,
                           firstSeen: real, lastSeen: real, lastUpdate: real)

  datatype StateChange = Up(up: bool) | Running(running: bool)

  datatype Event =
    | DeviceAdded(device: string)
    | DeviceRemoved(device: string)
    | DeviceStateChanged(device: string, change: StateChange)
    | DeviceEvidenceChanged(device: string, field: string, value: string, former: string)
    | MacDiscovered(device: string, mac: string)
    | MacDisappeared(device: string, mac: string)
    | MacEvidenceChanged(device: string, mac: string, field: string, value: string, former: string)

  datatype ListMode = Whitelist | Blacklist

  const FRAME_LENGTH := 1514
  const HEADER_LENGTH := 14

  /** The zero-initialised read buffer of a device. */
  type FrameBuffer = b: seq<byte> | |b| == FRAME_LENGTH witness seq(FRAME_LENGTH, _ => 0)

  /** One poll of a device: the returned length (-1 on error, 0 when nothing is queued), the buffer,
      and the clock while the frame is handled. */
  datatype Reading = Reading(length: int, buffer: FrameBuffer, at: real)

  /** What one monitor cycle gets from the operating system. */
  datatype Os = Os(start: real,
                   reading: nat -> Reading,
                   checkTime: real,
                   resolve: string -> Option<string>,
                   names: seq<string>,
                   hardware: string -> HardwareType,
                   address: string -> Address,
                   up: string -> bool,
                   running: string -> bool,
                   ip: string -> Ip,
                   broadcastIp: string -> Ip,
                   ping: string -> PingIo)

  /** What a ping gets from outside: process number, time of day, and whether the frame could be written. */
  datatype PingIo = PingIo(process: Word, time: Stamp, written: bool)

  type Evidence = map<string, map<string, string>>

  datatype NetState = NetState(devices: seq<DeviceInfo>, systemNames: seq<string>, events: seq<Event>,
                               macs: seq<Entity>, mode: ListMode, patterns: seq<string>,
                               matches: (string, string) -> bool, settings: Settings,
                               hostnamesLastChecked: real, shouldRun: bool, evidence: Evidence)

  datatype Settings = Settings(controlOpen: bool, autoManage: bool, ignoreDeviceMacs: bool, maxMacAge: real,
                               updateInterval: real, pingInterval: real, hostnameInterval: real)

  // Devices and the white- or blacklist

  function FreshDevice(name: string, hardware: HardwareType): DeviceInfo {
    DeviceInfo(name, hardware, false, false, "", "", "", 0.0)
  }

  function Find(devices: seq<DeviceInfo>, name: string): Option<DeviceInfo> {
    if devices == [] then None
    else if devices[0].name == name then Some(devices[0])
    else Find(devices[1..], name)
  }

  predicate Known(devices: seq<DeviceInfo>, name: string) {
    Find(devices, name).Some?
  }

  function EraseFirst(devices: seq<DeviceInfo>, name: string): seq<DeviceInfo> {
    if devices == [] then []
    else if devices[0].name == name then devices[1..]
    else [devices[0]] + EraseFirst(devices[1..], name)
  }

  predicate Allowed(s: NetState, name: string) {
    var listed := exists p :: p in s.patterns && s.matches(name, p);
    (s.mode == Whitelist && listed) || (s.mode == Blacklist && !listed)
  }

  function AddDevice(s: NetState, name: string, os: Os): NetState {
    if Allowed(s, name) && !Known(s.devices, name) && name in s.systemNames then
      var mac := MacText(os.address(name));
      s.(devices := s.devices + [FreshDevice(name, os.hardware(name)).(mac := mac)],
         events := s.events + [DeviceAdded(name), DeviceEvidenceChanged(name, "mac", mac, "")])
    else s
  }

  /** Why an entry leaves the table: its device goes away, or it was not heard for too long. */
  datatype Doom = OnDevice(device: string) | Unheard(start: real, maxAge: real) {
    predicate Hits(e: Entity) {
      match this
      case OnDevice(device) => e.device == device
      case Unheard(start, maxAge) => start - e.lastSeen > maxAge
    }
  }

  function Survivors(macs: seq<Entity>, doom: Doom): seq<Entity> {
    if macs == [] then []
    else
      var rest := Survivors(macs[..|macs| - 1], doom);
      var last := macs[|macs| - 1];
      if doom.Hits(last) then rest else rest + [last]
  }

  /** The events that tell of the dropped entries, in table order. */
  function Farewells(macs: seq<Entity>, doom: Doom): seq<Event> {
    if macs == [] then []
    else
      var rest := Farewells(macs[..|macs| - 1], doom);
      var last := macs[|macs| - 1];
      if doom.Hits(last) then rest + [MacDisappeared(last.device, last.mac)] else rest
  }

  function Drop(s: NetState, doom: Doom): NetState {
    s.(macs := Survivors(s.macs, doom), events := s.events + Farewells(s.macs, doom))
  }

  function RemoveDevice(s: NetState, name: string): NetState {
    Drop(s.(devices := EraseFirst(s.devices, name), events := s.events + [DeviceRemoved(name)]), OnDevice(name))
  }

  function RemoveAll(s: NetState, names: seq<string>): NetState {
    if names == [] then s
    else RemoveDevice(RemoveAll(s, names[..|names| - 1]), names[|names| - 1])
  }

  function AddAll(s: NetState, names: seq<string>, os: Os): NetState {
    if names == [] then s
    else AddDevice(AddAll(s, names[..|names| - 1], os), names[|names| - 1], os)
  }

  /** Names of the known devices that the list does not allow, in order. */
  function Banned(s: NetState, devices: seq<DeviceInfo>): seq<string> {
    if devices == [] then []
    else
      var rest := Banned(s, devices[..|devices| - 1]);
      var name := devices[|devices| - 1].name;
      if Allowed(s, name) then rest else rest + [name]
  }

  function AddPattern(s: NetState, pattern: string): NetState {
    var listed := s.(patterns := s.patterns + [pattern]);
    RemoveAll(listed, Banned(listed, s.devices))
  }

  /** Names of the devices that the system no longer has, in order. */
  function Vanished(devices: seq<DeviceInfo>, names: seq<string>): seq<string> {
    if devices == [] then []
    else
      var rest := Vanished(devices[..|devices| - 1], names);
      var name := devices[|devices| - 1].name;
      if name in names then rest else rest + [name]
  }

  /** System names that are not known yet, duplicates included. */
  function Unknown(devices: seq<DeviceInfo>, names: seq<string>): seq<string> {
    if names == [] then []
    else
      var rest := Unknown(devices, names[..|names| - 1]);
      var name := names[|names| - 1];
      if Known(devices, name) then rest else rest + [name]
  }

  function Manage(s: NetState, os: Os): NetState {
    var named := s.(systemNames := os.names);
    if s.settings.autoManage then
      AddAll(RemoveAll(named, Vanished(s.devices, os.names)), Unknown(s.devices, os.names), os)
    else named
  }

  /** The new record of a device after its flags and addresses are read. */
  function Refreshed(d: DeviceInfo, os: Os): DeviceInfo {
    d.(up := os.up(d.name), running := os.running(d.name), ip := IpText(os.ip(d.name)),
       broadcastIp := IpText(os.broadcastIp(d.name)))
  }

  function UpDifference(d: DeviceInfo, up: bool): seq<Event> {
    if d.up != up then [DeviceStateChanged(d.name, Up(up))] else []
  }

  function RunningDifference(d: DeviceInfo, running: bool): seq<Event> {
    if d.running != running then [DeviceStateChanged(d.name, Running(running))] else []
  }

  function AddressDifference(name: string, field: string, value: string, former: string): seq<Event> {
    if value != former then [DeviceEvidenceChanged(name, field, value, former)] else []
  }

  function Differences(d: DeviceInfo, os: Os): seq<Event> {
    UpDifference(d, os.up(d.name)) +
    RunningDifference(d, os.running(d.name)) +
    AddressDifference(d.name, "ip", IpText(os.ip(d.name)), d.ip) +
    AddressDifference(d.name, "broadcast-ip", IpText(os.broadcastIp(d.name)), d.broadcastIp)
  }

  function MaintainAt(s: NetState, i: nat, os: Os): (s': NetState)
    requires i < |s.devices|
    ensures |s'.devices| == |s.devices|
  {
    if s.settings.controlOpen then
      s.(devices := s.devices[i := Refreshed(s.devices[i], os)], events := s.events + Differences(s.devices[i], os))
    else s
  }

  /** The state after the first k devices were maintained. */
  function Maintain(s: NetState, k: nat, os: Os): (s': NetState)
    requires k <= |s.devices|
    ensures |s'.devices| == |s.devices|
  {
    if k == 0 then s else MaintainAt(Maintain(s, k - 1, os), k - 1, os)
  }

  // The MAC table

  predicate MacAllowed(s: NetState, mac: string) {
    mac != ZERO_MAC && mac != BROADCAST_MAC &&
    !(s.settings.ignoreDeviceMacs && exists i :: 0 <= i < |s.devices| && s.devices[i].mac == mac)
  }

  predicate IpAllowed(ip: string) {
    ip != "255.255.255.255" && (if |ip| < 3 then ip else ip[..3]) != "224"
  }

  predicate Is(e: Entity, mac: string, device: string) {
    e.mac == mac && e.device == device
  }

  predicate Listed(macs: seq<Entity>, mac: string, device: string) {
    exists i :: 0 <= i < |macs| && Is(macs[i], mac, device)
  }

  /** When the first entry of the pair was last heard; -1 stands for no entry. */
  function LastSeen(macs: seq<Entity>, mac: string, device: string): real {
    if macs == [] then -1.0
    else if Is(macs[0], mac, device) then macs[0].lastSeen
    else LastSeen(macs[1..], mac, device)
  }

  function Touched(e: Entity, mac: string, device: string, at: real): Entity {
    if Is(e, mac, device) then e.(lastSeen := at) else e
  }

  function Touch(macs: seq<Entity>, mac: string, device: string, at: real): (r: seq<Entity>)
    ensures |r| == |macs|
    ensures forall i :: 0 <= i < |r| ==> r[i] == Touched(macs[i], mac, device, at)
  {
    seq(|macs|, i requires 0 <= i < |macs| => Touched(macs[i], mac, device, at))
  }

  function AddMac(s: NetState, mac: string, device: string, at: real): NetState {
    if MacAllowed(s, mac) then
      s.(events := if LastSeen(s.macs, mac, device) == -1.0 then s.events + [MacDiscovered(device, mac)] else s.events,
         macs := if Listed(s.macs, mac, device) then Touch(s.macs, mac, device, at)
                 else s.macs + [Entity(mac, device, "", "", at, at, 0.0)])
    else s
  }

  function DeviceForMac(macs: seq<Entity>, mac: string): string {
    if macs == [] then ""
    else if macs[0].mac == mac then macs[0].device
    else DeviceForMac(macs[1..], mac)
  }

  /** What the evidence map holds; a missing entry reads as "". */
  function EvidenceOf(evidence: Evidence, mac: string, field: string): string {
    if mac in evidence && field in evidence[mac] then evidence[mac][field] else ""
  }

  /** operator[] of std::map: looking at an absent entry inserts the default. */
  function WithMac(evidence: Evidence, mac: string): Evidence {
    if mac in evidence then evidence else evidence[mac := map[]]
  }

  function WithField(evidence: Evidence, mac: string, field: string): Evidence {
    var e := WithMac(evidence, mac);
    if field in e[mac] then e else e[mac := e[mac][field := ""]]
  }

  function UpdateEvidence(s: NetState, device: string, mac: string, field: string, value: string): NetState {
    if MacAllowed(s, mac) then
      var evidence := WithField(s.evidence, mac, field);
      if evidence[mac][field] != value then
        s.(evidence := evidence[mac := evidence[mac][field := value]],
           events := s.events + [MacEvidenceChanged(device, mac, field, value, evidence[mac][field])])
      else s.(evidence := evidence)
    else s
  }

  // Hearing frames

  /** A C int compared with a sizeof is converted to the unsigned 64-bit type first. */
  function AsSize(n: int): nat
    requires -0x8000_0000 <= n < 0x8000_0000
  {
    if n < 0 then n + 0x1_0000_0000_0000_0000 else n
  }

  predicate HasHeader(r: Reading) {
    -0x8000_0000 <= r.length < 0x8000_0000 && AsSize(r.length) >= HEADER_LENGTH
  }

  function SourceMac(b: FrameBuffer): string {
    MacText(b[6..12])
  }

  function EtherType(b: seq<byte>): nat
    requires |b| >= HEADER_LENGTH
  {
    b[12] as int * 256 + b[13] as int
  }

  function SenderIp(b: FrameBuffer): string {
    IpText(b[HEADER_LENGTH + 12..HEADER_LENGTH + 16])
  }

  function Hear(s: NetState, device: string, r: Reading): NetState {
    if HasHeader(r) then
      var mac := SourceMac(r.buffer);
      var added := AddMac(s, mac, device, r.at);
      if EtherType(r.buffer) == 0x0800 && IpAllowed(SenderIp(r.buffer)) then
        UpdateEvidence(added, device, mac, "ip", SenderIp(r.buffer))
      else added
    else s
  }

  /** The state after the first k devices were polled. */
  function HearAll(s: NetState, k: nat, os: Os): (s': NetState)
    requires k <= |s.devices|
    ensures s'.devices == s.devices
  {
    if k == 0 then s else Hear(HearAll(s, k - 1, os), s.devices[k - 1].name, os.reading(k - 1))
  }

  function CheckHostname(s: NetState, mac: string, os: Os): NetState {
    if EvidenceHas(s.evidence, mac, "ip") && !EvidenceHas(s.evidence, mac, "hostname") then
      match os.resolve(s.evidence[mac]["ip"])
      case None => s
      case Some(host) => UpdateEvidence(s, DeviceForMac(s.macs, mac), mac, "hostname", host)
    else s
  }

  predicate EvidenceHas(evidence: Evidence, mac: string, field: string) {
    mac in evidence && field in evidence[mac]
  }

  function CheckHostnames(s: NetState, order: seq<string>, os: Os): NetState {
    if order == [] then s
    else CheckHostname(CheckHostnames(s, order[..|order| - 1], os), order[|order| - 1], os)
  }

  function Detect(s: NetState, os: Os): NetState {
    var heard := HearAll(s, |s.devices|, os);
    if os.checkTime - heard.hostnamesLastChecked > heard.settings.hostnameInterval then
      CheckHostnames(heard, SortedKeys(heard.evidence.Keys), os).(hostnamesLastChecked := os.checkTime)
    else heard
  }

  // The rest of a cycle

  function Stamped(e: Entity, start: real, interval: real): Entity {
    if e.hostName == "" && start - e.lastUpdate > interval then e.(lastUpdate := start) else e
  }

  function Stamps(macs: seq<Entity>, start: real, interval: real): (r: seq<Entity>)
    ensures |r| == |macs|
    ensures forall i :: 0 <= i < |r| ==> r[i] == Stamped(macs[i], start, interval)
  {
    seq(|macs|, i requires 0 <= i < |macs| => Stamped(macs[i], start, interval))
  }

  predicate PingDue(d: DeviceInfo, start: real, interval: real) {
    start >= d.pingLastSent + interval
  }

  /** A ping is due and can be built. */
  predicate Broadcasts(d: DeviceInfo, start: real, interval: real) {
    PingDue(d, start, interval) && d.ip != "" && d.broadcastIp != ""
  }

  /** The device after its chance to ping: the timer restarts, and the address text is made if it was not yet. */
  function Pinged(d: DeviceInfo, start: real, interval: real, address: Address): DeviceInfo {
    d.(pingLastSent := if PingDue(d, start, interval) then start else d.pingLastSent,
       mac := if Broadcasts(d, start, interval) && d.mac == "" then MacText(address) else d.mac)
  }

  function Pings(devices: seq<DeviceInfo>, os: Os, interval: real): (r: seq<DeviceInfo>)
    ensures |r| == |devices|
    ensures forall i :: 0 <= i < |r| ==> r[i] == Pinged(devices[i], os.start, interval, os.address(devices[i].name))
  {
    seq(|devices|, i requires 0 <= i < |devices| => Pinged(devices[i], os.start, interval, os.address(devices[i].name)))
  }

  /** The devices on which pings are broadcast, in order. */
  function Broadcasters(devices: seq<DeviceInfo>, start: real, interval: real): seq<string> {
    if devices == [] then []
    else
      var last := devices[|devices| - 1];
      Broadcasters(devices[..|devices| - 1], start, interval) +
      (if Broadcasts(last, start, interval) then [last.name] else [])
  }

  function Finish(s: NetState, os: Os): NetState {
    s.(macs := Stamps(s.macs, os.start, s.settings.updateInterval),
       devices := Pings(s.devices, os, s.settings.pingInterval))
  }

  function Begin(s: NetState): NetState {
    s.(events := [])
  }

  function Settled(s: NetState, os: Os): NetState {
    var managed := Manage(Detect(Begin(s), os), os);
    Maintain(managed, |managed.devices|, os)
  }

  /** The devices on which a cycle broadcasts pings. */
  function Broadcasting(s: NetState, os: Os): seq<string> {
    Broadcasters(Settled(s, os).devices, os.start, s.settings.pingInterval)
  }

  function Cycle(s: NetState, os: Os): NetState {
    Finish(Drop(Settled(s, os), Unheard(os.start, s.settings.maxMacAge)), os)
  }
}
