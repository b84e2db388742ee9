/** The daemon as a value: monitor, server, and the streams that clients have switched on. */
module DaemonModel {
  import opened Trees
  import opened Ordering
  import opened NetworkModel
  import opened ServerModel

  datatype Stream = Stream(client: nat, device: string)

  datatype DaemonState = DaemonState(net: NetState, srv: ServerState, streams: seq<Stream>,
                                     lastKeepAlive: real, keepAliveInterval: real)

  /** What one daemon cycle gets from outside: both inputs of its parts, the clock read before the keepalive,
      and the library functions that name a vendor and print a time. */
  datatype DaemonIo = DaemonIo(os: Os, server: ServerIo, keepAliveTime: real,
                               vendor: string -> string, timeText: real -> string)

  function Tell(d: DaemonState, client: nat, message: Tree): DaemonState {
    d.(srv := d.srv.(outbox := Post(d.srv.outbox, client, message)))
  }

  predicate StreamEnabled(streams: seq<Stream>, client: nat, device: string) {
    Stream(client, device) in streams
  }

  // Streams

  /** The streams without those of a removed connection. */
  function WithoutClient(streams: seq<Stream>, client: nat): seq<Stream> {
    if streams == [] then []
    else if streams[0].client == client then WithoutClient(streams[1..], client)
    else [streams[0]] + WithoutClient(streams[1..], client)
  }

  function WithoutClients(streams: seq<Stream>, clients: seq<nat>): seq<Stream> {
    if clients == [] then streams
    else WithoutClient(WithoutClients(streams, clients[..|clients| - 1]), clients[|clients| - 1])
  }

  function EnableStream(streams: seq<Stream>, client: nat, device: string): seq<Stream> {
    if StreamEnabled(streams, client, device) then streams else streams + [Stream(client, device)]
  }

  /** The streams without the first one of the pair. */
  function DisableStream(streams: seq<Stream>, client: nat, device: string): seq<Stream> {
    if streams == [] then []
    else if streams[0] == Stream(client, device) then streams[1..]
    else [streams[0]] + DisableStream(streams[1..], client, device)
  }

  // Requests

  function HardwareText(h: HardwareType): string {
    match h
    case Loopback => "loopback"
    case Wired => "wired"
    case Wireless => "wireless"
  }

  function DeviceEntry(d: DeviceInfo): Tree {
    Tree(d.name, "", [Leaf("mac", d.mac), Leaf("ip", d.ip), Leaf("broadcast-ip", d.broadcastIp),
                      Leaf("hardware-type", HardwareText(d.hardware))])
  }

  function DeviceEntries(devices: seq<DeviceInfo>): seq<Tree> {
    if devices == [] then [] else DeviceEntries(devices[..|devices| - 1]) + [DeviceEntry(devices[|devices| - 1])]
  }

  function MacEntry(e: Entity, io: DaemonIo): Tree {
    Tree(e.mac, "", [Leaf("device-name", e.device), Leaf("last-seen", io.timeText(e.lastSeen)),
                     Leaf("first-seen", io.timeText(e.firstSeen)), Leaf("vendor", io.vendor(e.mac))])
  }

  function MacEntries(macs: seq<Entity>, io: DaemonIo): seq<Tree> {
    if macs == [] then [] else MacEntries(macs[..|macs| - 1], io) + [MacEntry(macs[|macs| - 1], io)]
  }

  function EvidenceEntries(fields: map<string, string>, order: seq<string>): seq<Tree>
    requires forall k :: k in order ==> k in fields
  {
    if order == [] then []
    else EvidenceEntries(fields, order[..|order| - 1]) + [Leaf(order[|order| - 1], fields[order[|order| - 1]])]
  }

  function Result(result: string, device: string): Tree {
    Tree("result", result, [Leaf("device-name", device)])
  }

  function Response(request: Tree, inner: Tree): Tree {
    Tree("response", request.content, [inner])
  }

  const EMPTY := Leaf("", "")

  /** The answer to one request and the state with the request's effect. */
  function Answer(d: DaemonState, q: QueuedValue, io: DaemonIo): (DaemonState, Tree) {
    var v := q.value;
    var serving := ServingById(d.srv.servings, q.serving);
    if v.content == "devices-list" then
      (d, Tree("devices-list", "", DeviceEntries(d.net.devices)))
    else if v.content == "known-mac-addresses" then
      (d, Tree("known-mac-addresses", "", MacEntries(d.net.macs, io)))
    else if v.content == "mac-evidence" then
      match SubText(v, "mac-address")
      case None => (d, EMPTY)
      case Some(mac) =>
        var evidence := WithMac(d.net.evidence, mac);
        var fields := evidence[mac]["mac-address" := mac];
        (d.(net := d.net.(evidence := evidence)),
         Tree("mac-evidence", "", EvidenceEntries(fields, SortedKeys(fields.Keys))))
    else if v.content == "enable-stream" then
      match SubText(v, "device-name")
      case None => (d, Leaf("result", "device-name-missing"))
      case Some(device) =>
        if StreamEnabled(d.streams, q.client, serving.device) then (d, Result("already-enabled", device))
        else (d.(streams := EnableStream(d.streams, q.client, device)), Result("success", device))
    else if v.content == "disable-stream" then
      match SubText(v, "device-name")
      case None => (d, Leaf("result", "device-name-missing"))
      case Some(device) =>
        if StreamEnabled(d.streams, q.client, serving.device) then
          (d.(streams := DisableStream(d.streams, q.client, serving.device)), Result("success", device))
        else (d, Result("already-disabled", device))
    else (d, EMPTY)
  }

  function Handle(d: DaemonState, q: QueuedValue, io: DaemonIo): DaemonState {
    var (answered, inner) := Answer(d, q, io);
    Tell(answered, q.client, Response(q.value, inner))
  }

  function HandleAll(d: DaemonState, queue: seq<QueuedValue>, io: DaemonIo): DaemonState {
    if queue == [] then d else Handle(HandleAll(d, queue[..|queue| - 1], io), queue[|queue| - 1], io)
  }

  // Events

  /** Tells the subscriber of stream i that it is off and erases the stream. */
  function EndAt(d: DaemonState, i: nat): DaemonState
    requires i < |d.streams|
  {
    var ending := d.streams[i];
    Tell(d, ending.client, Tree("info", "stream-disabled", [Leaf("device-name", ending.device)]))
    .(streams := d.streams[..i] + d.streams[i + 1..])
  }

  /** Ends all streams of a device, first to last. */
  function EndStreams(d: DaemonState, device: string): DaemonState
    decreases |d.streams|
  {
    var i := FirstOn(d.streams, device);
    if i == |d.streams| then d else EndStreams(EndAt(d, i), device)
  }

  /** Index of the first stream of the device, or the number of streams. */
  function FirstOn(streams: seq<Stream>, device: string): (i: nat)
    ensures i <= |streams| && (i < |streams| ==> streams[i].device == device)
    ensures forall j :: 0 <= j < i ==> streams[j].device != device
  {
    if streams == [] || streams[0].device == device then 0 else 1 + FirstOn(streams[1..], device)
  }

  function HardwareOf(net: NetState, device: string, os: Os): HardwareType {
    match Find(net.devices, device)
    case Some(d) => d.hardware
    case None => os.hardware(device)
  }

  /** The message of an event. */
  function Message(net: NetState, e: Event, io: DaemonIo): Tree {
    MessageText(e, HardwareOf(net, e.device, io.os), io)
  }

  /** The message of an event, given the kind of its device. */
  function MessageText(e: Event, hardware: HardwareType, io: DaemonIo): Tree {
    match e
    case DeviceAdded(device) =>
      Tree("info", "device-added", [Leaf("device-name", device), Leaf("hardware-type", HardwareText(hardware))])
    case DeviceRemoved(device) => Tree("info", "device-removed", [Leaf("device-name", device)])
    case DeviceStateChanged(_, Up(up)) =>
      Tree("info", "device-state-changed", [Leaf("changed-state", "up"), Leaf("state", if up then "true" else "false")])
    case DeviceStateChanged(_, Running(running)) =>
      Tree("info", "device-state-changed",
           [Leaf("changed-state", "running"), Leaf("state", if running then "true" else "false")])
    case DeviceEvidenceChanged(_, field, value, former) =>
      Tree("info", "device-evidence-changed",
           [Leaf("field", field), Leaf("value", value), Leaf("value-former", former)])
    case MacDiscovered(device, mac) =>
      Tree("info", "mac-address-discovered",
           [Leaf("mac", mac), Leaf("vendor", io.vendor(mac)), Leaf("device-name", device)])
    case MacDisappeared(device, mac) =>
      Tree("info", "mac-address-disappeared", [Leaf("mac", mac), Leaf("device-name", device)])
    case MacEvidenceChanged(device, mac, field, value, former) =>
      Tree("info", "mac-evidence-changed",
           [Leaf("mac-address", mac), Leaf("field", field), Leaf("value", value), Leaf("value-former", former)])
  }

  /** The device whose subscribers get the message; "" stands for every client. */
  function Scope(e: Event): string {
    match e
    case MacDiscovered(device, _) => device
    case MacDisappeared(device, _) => device
    case MacEvidenceChanged(device, _, _, _, _) => device
    case _ => ""
  }

  predicate Receives(streams: seq<Stream>, client: nat, scope: string) {
    scope == "" || StreamEnabled(streams, client, scope)
  }

  /** The state after the first k connections were considered for a message. */
  function Broadcast(d: DaemonState, k: nat, scope: string, message: Tree): (d': DaemonState)
    requires k <= |d.srv.served|
    ensures d' == d.(srv := d.srv.(outbox := d'.srv.outbox))
  {
    if k == 0 then d
    else
      var before := Broadcast(d, k - 1, scope, message);
      if Receives(d.streams, d.srv.served[k - 1].0, scope) then Tell(before, d.srv.served[k - 1].0, message) else before
  }

  function Announce(d: DaemonState, scope: string, message: Tree): DaemonState {
    Broadcast(d, |d.srv.served|, scope, message)
  }

  function Route(d: DaemonState, e: Event, io: DaemonIo): DaemonState {
    var ended := if e.DeviceRemoved? then EndStreams(d, e.device) else d;
    Announce(ended, Scope(e), Message(ended.net, e, io))
  }

  function RouteAll(d: DaemonState, events: seq<Event>, io: DaemonIo): DaemonState {
    if events == [] then d else Route(RouteAll(d, events[..|events| - 1], io), events[|events| - 1], io)
  }

  const KEEPALIVE := Leaf("info", "keepalive")

  predicate KeepAliveDue(d: DaemonState, time: real) {
    time > d.lastKeepAlive + d.keepAliveInterval
  }

  function KeepAlive(d: DaemonState, time: real): DaemonState {
    if KeepAliveDue(d, time) then Announce(d.(lastKeepAlive := time), "", KEEPALIVE) else d
  }

  // One cycle

  /** The state when the requests of this cycle are about to be handled. */
  function Prepared(d: DaemonState, io: DaemonIo): DaemonState {
    var srv := ServerModel.Cycle(d.srv, io.server);
    d.(net := NetworkModel.Cycle(d.net, io.os), srv := srv.(removed := [], queue := []),
       streams := WithoutClients(d.streams, srv.removed))
  }

  function Served(d: DaemonState, io: DaemonIo): DaemonState {
    HandleAll(Prepared(d, io), ServerModel.Cycle(d.srv, io.server).queue, io)
  }

  function Routed(d: DaemonState, io: DaemonIo): DaemonState {
    RouteAll(Served(d, io), Served(d, io).net.events, io)
  }

  predicate Succeeds(d: DaemonState) {
    d.net.shouldRun && d.srv.run
  }

  /** A cycle; after a shutdown of the monitor the server is not cycled, after a shutdown of the server
      nothing is handled. */
  function Cycle(d: DaemonState, io: DaemonIo): DaemonState {
    if Succeeds(d) then KeepAlive(Routed(d, io), io.keepAliveTime)
    else d.(net := NetworkModel.Cycle(d.net, io.os))
  }
}
