/** The daemon itself: it owns the monitor and the server. Every method is proved to do what DaemonModel says. */
module Daemons {
  import opened Basics
  import opened Trees
  import opened Ordering
  import opened NetworkModel
  import opened ServerModel
  import opened DaemonModel
  import NetworkCycle
  import opened DaemonRuns
  import opened Devices
  import opened Networks
  import opened Servers

  lemma {:induction false} WithoutClientFirst(streams: seq<Stream>, i: nat, client: nat)
    requires i < |streams| && streams[i].client == client && forall j :: 0 <= j < i ==> streams[j].client != client
    ensures WithoutClient(streams, client) == WithoutClient(streams[..i] + streams[i + 1..], client)
  {
    if i == 0 {
      assert streams[..0] + streams[1..] == streams[1..];
    } else {
      WithoutClientFirst(streams[1..], i - 1, client);
      assert (streams[..i] + streams[i + 1..])[1..] == streams[1..][..i - 1] + streams[1..][i..];
    }
  }

  lemma {:induction false} WithoutClientNone(streams: seq<Stream>, client: nat)
    requires forall i :: 0 <= i < |streams| ==> streams[i].client != client
    ensures WithoutClient(streams, client) == streams
  {
    if streams != [] {
      WithoutClientNone(streams[1..], client);
      assert streams == [streams[0]] + streams[1..];
    }
  }

  lemma {:induction false} DisableStreamAt(streams: seq<Stream>, i: nat, client: nat, device: string)
    requires i <= |streams| && forall j :: 0 <= j < i ==> streams[j] != Stream(client, device)
    requires i < |streams| ==> streams[i] == Stream(client, device)
    ensures DisableStream(streams, client, device) ==
            if i < |streams| then streams[..i] + streams[i + 1..] else streams
  {
    if i == 0 {
      if streams != [] { assert streams[..0] + streams[1..] == streams[1..]; }
    } else {
      DisableStreamAt(streams[1..], i - 1, client, device);
      if i < |streams| {
        CutLater(streams, i);
      } else {
        assert streams == [streams[0]] + streams[1..];
      }
    }
  }

  class Daemon {
    const network: Network
    const server: Server
    var streams: seq<Stream>
    var lastKeepAlive: real
    var keepAliveInterval: real

    ghost predicate Valid()
      reads this, network
    {
      network.Valid()
    }

    ghost function State(): DaemonState
      reads this, network, network.devices, server
    {
      DaemonState(network.State(), server.State(), streams, lastKeepAlive, keepAliveInterval)
    }

    constructor (matches: (string, string) -> bool, controlOpen: bool)
      ensures Valid() && fresh(network) && fresh(server)
      ensures State() == Initial(matches, controlOpen)
    {
      var n := new Network(matches, controlOpen);
      n.settings := n.settings.(autoManage := true);
      n.mode := Whitelist;
      network := n;
      server := new Server();
      streams, lastKeepAlive, keepAliveInterval := [], 0.0, 1.0;
      assert Infos(n.devices) == [];
    }

    /** Starts to serve on a device. */
    method Serve(device: string, port: int, socketMade: bool, bound: bool) returns (ok: bool)
      requires Valid()
      modifies server
      ensures State() == Perform(old(State()), Offering(device, port, socketMade, bound))
      ensures ok <==> server.servings != old(server.servings)
    {
      ok := server.Serve(device, port, socketMade, bound);
    }

    /** What the configuration does to the monitor. */
    method Configure(setup: Setup)
      requires Valid()
      modifies network
      ensures Valid() && (forall d :: d in network.devices ==> d in old(network.devices))
      ensures State() == Perform(old(State()), Configuring(setup))
    {
      hide Infos, AddPattern, DaemonModel.Cycle;
      match setup {
        case AddingPattern(pattern) => network.AddDeviceWhiteBlacklistEntry(pattern);
        case SettingMode(mode) => network.mode := mode;
        case ClearingPatterns => network.patterns := [];
        case Tuning(settings) => network.settings := settings;
        case Asking(mac) => var fields := network.MacEvidence(mac);
        case Stopping => network.Shutdown();
      }
    }

    method SetKeepAliveInterval(interval: real)
      requires Valid()
      modifies this`keepAliveInterval
      ensures State() == Perform(old(State()), Pacing(interval))
    {
      keepAliveInterval := interval;
    }

    method Shutdown()
      requires Valid()
      modifies server`run, network`shouldRun
      ensures State() == Perform(old(State()), DaemonRuns.Stopping)
    {
      server.Shutdown();
      network.Shutdown();
    }

    method IsStreamEnabled(client: nat, device: string) returns (enabled: bool)
      ensures enabled == StreamEnabled(streams, client, device)
    {
      enabled := false;
      var i := 0;
      while i < |streams|
        invariant i <= |streams| && !enabled
        invariant forall j :: 0 <= j < i ==> streams[j] != Stream(client, device)
      {
        if streams[i].client == client && streams[i].device == device {
          assert streams[i] == Stream(client, device);
          enabled := true;
          break;
        }
        i := i + 1;
      }
    }

    method Enable(client: nat, device: string)
      modifies this`streams
      ensures streams == EnableStream(old(streams), client, device)
    {
      var enabled := IsStreamEnabled(client, device);
      if !enabled {
        streams := streams + [Stream(client, device)];
      }
    }

    method Disable(client: nat, device: string) returns (found: bool)
      modifies this`streams
      ensures streams == DisableStream(old(streams), client, device)
      ensures found == StreamEnabled(old(streams), client, device)
    {
      found := false;
      var i := 0;
      while i < |streams|
        invariant i <= |streams| && streams == old(streams) && !found
        invariant forall j :: 0 <= j < i ==> streams[j] != Stream(client, device)
      {
        if streams[i].client == client && streams[i].device == device {
          DisableStreamAt(streams, i, client, device);
          assert streams[i] == Stream(client, device);
          streams := streams[..i] + streams[i + 1..];
          found := true;
          return;
        }
        i := i + 1;
      }
      DisableStreamAt(streams, i, client, device);
    }

    /** Erases every stream of a removed connection. */
    method DropClient(client: nat)
      modifies this`streams
      ensures streams == WithoutClient(old(streams), client)
    {
      var changed := true;
      while changed
        invariant WithoutClient(streams, client) == WithoutClient(old(streams), client)
        invariant !changed ==> forall i :: 0 <= i < |streams| ==> streams[i].client != client
        decreases |streams|, changed
      {
        changed := false;
        var i := 0;
        while i < |streams|
          invariant i <= |streams| && !changed
          invariant forall j :: 0 <= j < i ==> streams[j].client != client
        {
          if streams[i].client == client {
            WithoutClientFirst(streams, i, client);
            streams := streams[..i] + streams[i + 1..];
            changed := true;
            break;
          }
          i := i + 1;
        }
      }
      WithoutClientNone(streams, client);
    }

    method DropClients(clients: seq<nat>)
      modifies this`streams
      ensures streams == WithoutClients(old(streams), clients)
    {
      for i := 0 to |clients|
        invariant streams == WithoutClients(old(streams), clients[..i])
      {
        DropClient(clients[i]);
        assert clients[..i + 1][..i] == clients[..i];
      }
      assert clients[..|clients|] == clients;
    }

    method ListDevices() returns (entries: seq<Tree>)
      requires Valid()
      ensures entries == DeviceEntries(Infos(network.devices))
    {
      entries := [];
      ghost var infos := Infos(network.devices);
      for i := 0 to |network.devices|
        invariant entries == DeviceEntries(infos[..i])
      {
        var d := network.devices[i];
        assert infos[..i + 1][..i] == infos[..i];
        entries := entries + [Tree(d.name, "", [Leaf("mac", d.mac), Leaf("ip", d.ip),
                                                Leaf("broadcast-ip", d.broadcastIp),
                                                Leaf("hardware-type", HardwareText(d.hardware))])];
      }
      assert infos[..|infos|] == infos;
    }

    method ListMacs(io: DaemonIo) returns (entries: seq<Tree>)
      ensures entries == MacEntries(network.macs, io)
    {
      entries := [];
      for i := 0 to |network.macs|
        invariant entries == MacEntries(network.macs[..i], io)
      {
        assert network.macs[..i + 1][..i] == network.macs[..i];
        entries := entries + [MacEntry(network.macs[i], io)];
      }
      assert network.macs[..|network.macs|] == network.macs;
    }

    method ListEvidence(fields: map<string, string>) returns (entries: seq<Tree>)
      ensures entries == EvidenceEntries(fields, SortedKeys(fields.Keys))
    {
      entries := [];
      var order := SortedKeys(fields.Keys);
      for i := 0 to |order|
        invariant entries == EvidenceEntries(fields, order[..i])
      {
        assert order[..i + 1][..i] == order[..i] && order[i] in order;
        entries := entries + [Leaf(order[i], fields[order[i]])];
      }
      assert order[..|order|] == order;
    }

    /** Works out the answer to a request and applies its effect. */
    method AnswerRequest(q: QueuedValue, io: DaemonIo) returns (inner: Tree)
      requires Valid()
      modifies this`streams, network`evidence
      ensures (State(), inner) == Answer(old(State()), q, io)
    {
      hide EnableStream, DisableStream, MacEntries, DeviceEntries, EvidenceEntries, SortedKeys;
      var serving := server.ServingById(q.serving);
      var v := q.value;
      inner := EMPTY;
      if v.content == "devices-list" {
        var entries := ListDevices();
        inner := Tree("devices-list", "", entries);
      } else if v.content == "known-mac-addresses" {
        var entries := ListMacs(io);
        inner := Tree("known-mac-addresses", "", entries);
      } else if v.content == "mac-evidence" {
        var mac := SubText(v, "mac-address");
        if mac.Some? {
          var fields := network.MacEvidence(mac.value);
          var entries := ListEvidence(fields["mac-address" := mac.value]);
          inner := Tree("mac-evidence", "", entries);
        }
      } else if v.content == "enable-stream" {
        inner := AnswerEnable(q, serving);
      } else if v.content == "disable-stream" {
        inner := AnswerDisable(q, serving);
      }
    }

    method AnswerEnable(q: QueuedValue, serving: Serving) returns (inner: Tree)
      modifies this`streams
      ensures match SubText(q.value, "device-name")
              case None => streams == old(streams) && inner == Leaf("result", "device-name-missing")
              case Some(device) =>
                if StreamEnabled(old(streams), q.client, serving.device)
                then streams == old(streams) && inner == Result("already-enabled", device)
                else streams == EnableStream(old(streams), q.client, device) && inner == Result("success", device)
    {
      var name := SubText(q.value, "device-name");
      if name.Some? {
        var enabled := IsStreamEnabled(q.client, serving.device);
        if enabled {
          inner := Result("already-enabled", name.value);
        } else {
          Enable(q.client, name.value);
          inner := Result("success", name.value);
        }
      } else {
        inner := Leaf("result", "device-name-missing");
      }
    }

    method AnswerDisable(q: QueuedValue, serving: Serving) returns (inner: Tree)
      modifies this`streams
      ensures match SubText(q.value, "device-name")
              case None => streams == old(streams) && inner == Leaf("result", "device-name-missing")
              case Some(device) =>
                if StreamEnabled(old(streams), q.client, serving.device)
                then streams == DisableStream(old(streams), q.client, serving.device) &&
                    inner == Result("success", device)
                else streams == old(streams) && inner == Result("already-disabled", device)
    {
      var name := SubText(q.value, "device-name");
      if name.Some? {
        var enabled := IsStreamEnabled(q.client, serving.device);
        if enabled {
          var found := Disable(q.client, serving.device);
          inner := Result("success", name.value);
        } else {
          inner := Result("already-disabled", name.value);
        }
      } else {
        inner := Leaf("result", "device-name-missing");
      }
    }

    /** The outer part of an answer; there is none for a value that is not a request. */
    method ResponseTo(v: Tree) returns (outer: Option<Tree>)
      ensures outer == if v.key == "request" then Some(Leaf("response", v.content)) else None
    {
      outer := if v.key == "request" then Some(Leaf("response", v.content)) else None;
    }

    method HandleValues(values: seq<QueuedValue>, io: DaemonIo)
      requires Valid()
      requires forall i :: 0 <= i < |values| ==> values[i].value.key == "request"
      modifies this`streams, network`evidence, server`outbox
      ensures State() == HandleAll(old(State()), values, io)
    {
      for i := 0 to |values|
        invariant State() == HandleAll(old(State()), values[..i], io)
      {
        assert values[..i + 1][..i] == values[..i];
        HandleValue(values[i], io);
      }
      assert values[..|values|] == values;
    }

    /** A value that is not a request has no outer response to put the answer into; the source requires one. */
    method HandleValue(q: QueuedValue, io: DaemonIo)
      requires Valid() && q.value.key == "request"
      modifies this`streams, network`evidence, server`outbox
      ensures State() == Handle(old(State()), q, io)
    {
      var outer := ResponseTo(q.value);
      var inner := AnswerRequest(q, io);
      assert Trees.Add(outer.value, inner).subs == [inner];
      server.Send(q.client, Trees.Add(outer.value, inner));
    }

    /** The erase-and-restart loop that ends the streams of a removed device. */
    method EndStreamsOf(device: string)
      requires Valid()
      modifies this`streams, server`outbox
      ensures State() == EndStreams(old(State()), device)
    {
      hide FirstOn;
      var changed := true;
      while changed
        invariant State() == old(State()).(streams := streams, srv := server.State())
        invariant server.State() == old(server.State()).(outbox := server.outbox)
        invariant EndStreams(State(), device) == EndStreams(old(State()), device)
        invariant !changed ==> FirstOn(streams, device) == |streams|
        decreases |streams|, changed
      {
        changed := false;
        var i := 0;
        while i < |streams|
          invariant i <= |streams| && !changed
          invariant forall j :: 0 <= j < i ==> streams[j].device != device
        {
          if streams[i].device == device {
            assert FirstOn(streams, device) == i;
            EndStream(i);
            changed := true;
            break;
          }
          i := i + 1;
        }
      }
    }

    /** Tells the subscriber of a stream that it is off and erases the stream. */
    method EndStream(i: nat)
      requires Valid() && i < |streams|
      modifies this`streams, server`outbox
      ensures State() == EndAt(old(State()), i)
    {
      var device := streams[i].device;
      server.Send(streams[i].client, Tree("info", "stream-disabled", [Leaf("device-name", device)]));
      streams := streams[..i] + streams[i + 1..];
    }

    method AnnounceTo(scope: string, message: Tree)
      requires Valid()
      modifies server`outbox
      ensures State() == Announce(old(State()), scope, message)
    {
      for i := 0 to |server.served|
        invariant State() == Broadcast(old(State()), i, scope, message)
      {
        var (client, serving) := server.served[i];
        var enabled := IsStreamEnabled(client, scope);
        if scope == "" || enabled {
          server.Send(client, message);
        }
      }
    }

    method RouteEvent(e: Event, io: DaemonIo)
      requires Valid()
      modifies this`streams, server`outbox
      ensures State() == Route(old(State()), e, io)
    {
      if e.DeviceRemoved? {
        EndStreamsOf(e.device);
      }
      var message := MessageOf(e, io);
      AnnounceTo(Scope(e), message);
    }

    /** The kind that a known device was given when it was added, otherwise the kind that the system reports. */
    method DeviceHardwareType(device: string, os: Os) returns (hardware: HardwareType)
      requires Valid()
      ensures hardware == HardwareOf(network.State(), device, os)
    {
      var d := network.KnownDevice(device);
      hardware := if d != null then d.hardware else os.hardware(device);
    }

    method MessageOf(e: Event, io: DaemonIo) returns (message: Tree)
      requires Valid()
      ensures message == Message(network.State(), e, io)
    {
      var hardware := Loopback;
      if e.DeviceAdded? {
        hardware := DeviceHardwareType(e.device, io.os);
      }
      message := MessageText(e, hardware, io);
    }

    method RouteEvents(io: DaemonIo)
      requires Valid()
      modifies this`streams, server`outbox
      ensures State() == RouteAll(old(State()), network.events, io)
    {
      for i := 0 to |network.events|
        invariant State() == RouteAll(old(State()), network.events[..i], io)
      {
        assert network.events[..i + 1][..i] == network.events[..i];
        RouteEvent(network.events[i], io);
      }
      assert network.events[..|network.events|] == network.events;
    }

    method SendKeepAlive(time: real) returns (sent: bool)
      requires Valid()
      modifies this`lastKeepAlive, server`outbox
      ensures State() == KeepAlive(old(State()), time)
      ensures sent <==> KeepAliveDue(old(State()), time)
    {
      sent := time > lastKeepAlive + keepAliveInterval;
      if sent {
        lastKeepAlive := time;
        AnnounceTo("", KEEPALIVE);
      }
    }

    /** The first part of a successful cycle: server cycle and dead streams. */
    method Prepare(io: DaemonIo) returns (ok: bool, values: seq<QueuedValue>)
      requires Valid()
      modifies this`streams, server
      ensures ok == old(server.run)
      ensures !ok ==> State() == old(State())
      ensures var srv := ServerModel.Cycle(old(server.State()), io.server);
              ok ==> values == srv.queue &&
                     State() == old(State()).(srv := srv.(removed := [], queue := []),
                                              streams := WithoutClients(old(streams), srv.removed))
    {
      assert !server.run ==> ServerModel.Cycle(server.State(), io.server) == server.State();
      hide ServerModel.Cycle, WithoutClients, Infos;
      values := [];
      ok := server.Cycle(io.server);
      if ok {
        var gone := server.TakeRemoved();
        DropClients(gone);
        values := server.QueuedValues();
      }
    }

    method Cycle(io: DaemonIo) returns (ok: bool)
      requires Valid()
      requires forall q :: q in server.queue ==> q.value.key == "request"
      requires forall client :: io.server.incoming(client).Got? ==> io.server.incoming(client).value.key == "request"
      modifies this, network, network.devices, server
      ensures Valid() && (forall d :: d in network.devices ==> d in old(network.devices) || fresh(d))
      ensures State() == DaemonModel.Cycle(old(State()), io)
      ensures ok == Succeeds(old(State()))
    {
      hide HandleAll, RouteAll, KeepAlive, ServerModel.Cycle, NetworkModel.Cycle;
      NetworkCycle.CyclePolicy(network.State(), io.os);
      QueueOfRequests(server.State(), io.server);
      var pinged;
      ok, pinged := network.Cycle(io.os);
      if ok {
        var values: seq<QueuedValue>;
        ok, values := Prepare(io);
        if ok {
          assert State() == Prepared(old(State()), io);
          HandleValues(values, io);
          RouteEvents(io);
          var sent := SendKeepAlive(io.keepAliveTime);
        }
      }
    }
  }

  /** Only requests are queued when only requests arrive. */
  lemma QueueOfRequests(s: ServerState, io: ServerIo)
    requires forall q :: q in s.queue ==> q.value.key == "request"
    requires forall client :: io.incoming(client).Got? ==> io.incoming(client).value.key == "request"
    ensures forall i :: 0 <= i < |ServerModel.Cycle(s, io).queue| ==>
            ServerModel.Cycle(s, io).queue[i].value.key == "request"
  {
    if s.run {
      var listening := Listen(s, io);
      ServeFirstQueue(s, |s.servings|, io);
      ReceivedSpec(listening.served, io);
      var read := listening.(queue := listening.queue + Received(listening.served, io));
      DisconnectAllQueue(read, Broken(listening.served, io));
    }
    var t := ServerModel.Cycle(s, io);
    forall i | 0 <= i < |t.queue| ensures t.queue[i].value.key == "request" {
      assert t.queue[i] in t.queue;
    }
  }

  lemma {:induction false} ServeFirstQueue(s: ServerState, k: nat, io: ServerIo)
    requires k <= |s.servings|
    ensures ServeFirst(s, k, io).queue == s.queue
  {
    if k > 0 {
      ServeFirstQueue(s, k - 1, io);
    }
  }

  lemma {:induction false} DisconnectAllQueue(s: ServerState, clients: seq<nat>)
    ensures DisconnectAll(s, clients).queue == s.queue
  {
    if clients != [] {
      DisconnectAllQueue(s, clients[..|clients| - 1]);
    }
  }
}
