/** Who is subscribed to what: stream safety over whole runs, and what requests do to subscriptions. */
module Subscriptions {
  import opened Basics
  import opened Trees
  import opened NetworkModel
  import opened ServerModel
  import opened DaemonModel

  ghost predicate DistinctStreams(streams: seq<Stream>) {
    forall i, j :: 0 <= i < j < |streams| ==> streams[i] != streams[j]
  }

  /** Every stream belongs to a connected client and no (client, device) pair occurs twice; between two cycles
      nothing is queued and no removal is pending. */
  ghost predicate DaemonOk(d: DaemonState) {
    && ServerOk(d.srv) && d.srv.queue == [] && d.srv.removed == []
    && DistinctStreams(d.streams)
    && (forall s :: s in d.streams ==> Connected(d.srv.served, s.client))
  }

  // Lists of streams

  lemma {:induction false} WithoutClientSpec(streams: seq<Stream>, client: nat)
    ensures forall s :: s in WithoutClient(streams, client) <==> s in streams && s.client != client
    ensures DistinctStreams(streams) ==> DistinctStreams(WithoutClient(streams, client))
  {
    if streams != [] {
      WithoutClientSpec(streams[1..], client);
      assert streams == [streams[0]] + streams[1..];
      if DistinctStreams(streams) {
        assert streams[0] !in streams[1..];
        var rest := WithoutClient(streams[1..], client);
        forall i, j | 0 <= i < j < |[streams[0]] + rest| ensures ([streams[0]] + rest)[i] != ([streams[0]] + rest)[j] {
          if i == 0 { assert rest[j - 1] in streams[1..]; }
        }
      }
    }
  }

  lemma {:induction false} WithoutClientsSpec(streams: seq<Stream>, clients: seq<nat>)
    ensures forall s :: s in WithoutClients(streams, clients) <==> s in streams && s.client !in clients
    ensures DistinctStreams(streams) ==> DistinctStreams(WithoutClients(streams, clients))
  {
    if clients != [] {
      var front, last := clients[..|clients| - 1], clients[|clients| - 1];
      WithoutClientsSpec(streams, front);
      WithoutClientSpec(WithoutClients(streams, front), last);
      assert clients == front + [last];
    }
  }

  lemma {:induction false} DisableStreamSpec(streams: seq<Stream>, client: nat, device: string)
    requires DistinctStreams(streams)
    ensures forall s :: s in DisableStream(streams, client, device) <==> s in streams && s != Stream(client, device)
    ensures DistinctStreams(DisableStream(streams, client, device))
  {
    if streams != [] {
      assert streams == [streams[0]] + streams[1..];
      assert streams[0] !in streams[1..];
      if streams[0] != Stream(client, device) {
        DisableStreamSpec(streams[1..], client, device);
        var rest := DisableStream(streams[1..], client, device);
        forall i, j | 0 <= i < j < |[streams[0]] + rest| ensures ([streams[0]] + rest)[i] != ([streams[0]] + rest)[j] {
          if i == 0 { assert rest[j - 1] in streams[1..]; }
        }
      }
    }
  }

  /** t differs from s at most in streams, outboxes and inserted empty evidence. */
  ghost predicate SameBut(s: DaemonState, t: DaemonState) {
    && t == s.(net := s.net.(evidence := t.net.evidence), streams := t.streams, srv := s.srv.(outbox := t.srv.outbox))
  }

  lemma HandleKeeps(d: DaemonState, q: QueuedValue, io: DaemonIo)
    requires DistinctStreams(d.streams)
    ensures SameBut(d, Handle(d, q, io)) && DistinctStreams(Handle(d, q, io).streams)
    ensures forall s :: s in Handle(d, q, io).streams ==> s in d.streams || s.client == q.client
  {
    var serving := ServingById(d.srv.servings, q.serving);
    DisableStreamSpec(d.streams, q.client, serving.device);
  }

  lemma {:induction false} HandleAllKeeps(d: DaemonState, queue: seq<QueuedValue>, io: DaemonIo)
    requires DistinctStreams(d.streams)
    ensures SameBut(d, HandleAll(d, queue, io)) && DistinctStreams(HandleAll(d, queue, io).streams)
    ensures forall s :: s in HandleAll(d, queue, io).streams ==>
                          s in d.streams || exists i :: 0 <= i < |queue| && queue[i].client == s.client
  {
    if queue != [] {
      var front := queue[..|queue| - 1];
      HandleAllKeeps(d, front, io);
      HandleKeeps(HandleAll(d, front, io), queue[|queue| - 1], io);
    }
  }

  lemma {:induction false} EndStreamsSpec(d: DaemonState, device: string)
    requires DistinctStreams(d.streams)
    ensures SameBut(d, EndStreams(d, device)) && EndStreams(d, device).net == d.net
    ensures DistinctStreams(EndStreams(d, device).streams)
    ensures forall s :: s in EndStreams(d, device).streams <==> s in d.streams && s.device != device
    decreases |d.streams|
  {
    var i := FirstOn(d.streams, device);
    if i < |d.streams| {
      var left := EndAt(d, i).streams;
      EndStreamsSpec(EndAt(d, i), device);
      forall s ensures s in left ==> s in d.streams { }
      forall s | s in d.streams && s.device != device ensures s in left {
        assert s in d.streams[..i] || s in d.streams[i + 1..];
      }
    }
  }

  lemma RouteKeeps(d: DaemonState, e: Event, io: DaemonIo)
    requires DistinctStreams(d.streams)
    ensures SameBut(d, Route(d, e, io)) && Route(d, e, io).net == d.net
    ensures DistinctStreams(Route(d, e, io).streams)
    ensures forall s :: s in Route(d, e, io).streams <==> s in d.streams && e != DeviceRemoved(s.device)
  {
    if e.DeviceRemoved? {
      EndStreamsSpec(d, e.device);
    }
  }

  /** The streams after all events are those whose device was not removed. */
  lemma {:induction false} RouteAllKeeps(d: DaemonState, events: seq<Event>, io: DaemonIo)
    requires DistinctStreams(d.streams)
    ensures SameBut(d, RouteAll(d, events, io)) && RouteAll(d, events, io).net == d.net
    ensures DistinctStreams(RouteAll(d, events, io).streams)
    ensures forall s :: s in RouteAll(d, events, io).streams <==> s in d.streams && DeviceRemoved(s.device) !in events
  {
    hide Route;
    if events != [] {
      var front, last := events[..|events| - 1], events[|events| - 1];
      RouteAllKeeps(d, front, io);
      RouteKeeps(RouteAll(d, front, io), last, io);
      assert events == front + [last];
    }
  }

  // One cycle

  lemma PreparedKeeps(d: DaemonState, io: DaemonIo)
    requires DaemonOk(d) && Succeeds(d)
    ensures DaemonOk(Prepared(d, io))
    ensures forall q :: q in ServerModel.Cycle(d.srv, io.server).queue ==>
            Connected(Prepared(d, io).srv.served, q.client)
  {
    ServerModel.CycleKeeps(d.srv, io.server);
    var srv := ServerModel.Cycle(d.srv, io.server);
    WithoutClientsSpec(d.streams, srv.removed);
  }

  lemma ServedKeeps(d: DaemonState, io: DaemonIo)
    requires DaemonOk(d) && Succeeds(d)
    ensures DaemonOk(Served(d, io)) && SameBut(Prepared(d, io), Served(d, io))
  {
    PreparedKeeps(d, io);
    var queue := ServerModel.Cycle(d.srv, io.server).queue;
    HandleAllKeeps(Prepared(d, io), queue, io);
    forall s | s in Served(d, io).streams ensures Connected(Served(d, io).srv.served, s.client) {
      if s !in Prepared(d, io).streams {
        var i :| 0 <= i < |queue| && queue[i].client == s.client;
        assert queue[i] in queue;
      }
    }
  }

  /** Subscription safety: after every successful cycle each stream belongs to a connected client, and no client
      has two streams on one device. */
  lemma CycleSafe(d: DaemonState, io: DaemonIo)
    requires DaemonOk(d)
    ensures DaemonOk(DaemonModel.Cycle(d, io))
  {
    if Succeeds(d) {
      ServedKeeps(d, io);
      RouteAllKeeps(Served(d, io), Served(d, io).net.events, io);
    }
  }

  // What requests promise

  /** The stream that a request asked to switch off is off afterwards. */
  ghost predicate DisabledAsAsked(d: DaemonState, q: QueuedValue, device: string, io: DaemonIo) {
    Stream(q.client, device) !in Handle(d, q, io).streams
  }

  /** disable-stream looks at the stream of the device that serves the client, not at the one asked for. The asked
      stream is off afterwards exactly when it was off before or the client is served on that very device. */
  lemma DisableRequest(d: DaemonState, q: QueuedValue, device: string, io: DaemonIo)
    requires DistinctStreams(d.streams)
    requires q.value.content == "disable-stream" && SubText(q.value, "device-name") == Some(device)
    ensures DisabledAsAsked(d, q, device, io) <==>
            !StreamEnabled(d.streams, q.client, device) || ServingById(d.srv.servings, q.serving).device == device
  {
    DisableStreamSpec(d.streams, q.client, ServingById(d.srv.servings, q.serving).device);
  }

  /** enable-stream makes the same test: the asked stream is on afterwards exactly when it was on before or the
      stream of the serving device was off. */
  lemma EnableRequest(d: DaemonState, q: QueuedValue, device: string, io: DaemonIo)
    requires q.value.content == "enable-stream" && SubText(q.value, "device-name") == Some(device)
    ensures Stream(q.client, device) in Handle(d, q, io).streams <==>
            StreamEnabled(d.streams, q.client, device) ||
            !StreamEnabled(d.streams, q.client, ServingById(d.srv.servings, q.serving).device)
  {
  }

  /** A request of client 0, connected to serving 0. */
  function Ask(content: string, device: string): QueuedValue {
    QueuedValue(Tree("request", content, [Leaf("device-name", device)]), 0, 0)
  }

  /** A client served on "lo" without streams switches on "eth0", then "lo", then asks to switch "eth0" off: "eth0"
      stays on and "lo" goes off. */
  lemma DisableRequestFails(d: DaemonState, io: DaemonIo)
    requires d.srv.servings == [Serving(Started, 0, "lo", 7090)] && d.streams == []
    ensures var one := Handle(d, Ask("enable-stream", "eth0"), io);
            var both := Handle(one, Ask("enable-stream", "lo"), io);
            && both.streams == [Stream(0, "eth0"), Stream(0, "lo")]
            && Handle(both, Ask("disable-stream", "eth0"), io).streams == [Stream(0, "eth0")]
            && !DisabledAsAsked(both, Ask("disable-stream", "eth0"), "eth0", io)
  {
    HandleEnable(d, "eth0", io);
    var one := Handle(d, Ask("enable-stream", "eth0"), io);
    HandleEnable(one, "lo", io);
    var both := Handle(one, Ask("enable-stream", "lo"), io);
    assert both.streams[1] == Stream(0, "lo");
    HandleDisable(both, "eth0", io);
    assert DisableStream(both.streams, 0, "lo") == [Stream(0, "eth0")] by {
      assert both.streams[1..] == [Stream(0, "lo")];
      assert DisableStream([Stream(0, "lo")], 0, "lo") == [];
    }
    assert Handle(both, Ask("disable-stream", "eth0"), io).streams[0] == Stream(0, "eth0");
  }

  /** The same client switches on "lo", then asks for "eth0": only "lo" is on. */
  lemma EnableRequestFails(d: DaemonState, io: DaemonIo)
    requires d.srv.servings == [Serving(Started, 0, "lo", 7090)] && d.streams == []
    ensures var one := Handle(d, Ask("enable-stream", "lo"), io);
            && one.streams == [Stream(0, "lo")]
            && Handle(one, Ask("enable-stream", "eth0"), io).streams == [Stream(0, "lo")]
  {
    HandleEnable(d, "lo", io);
    var one := Handle(d, Ask("enable-stream", "lo"), io);
    assert one.streams[0] == Stream(0, "lo");
    HandleEnable(one, "eth0", io);
  }

  lemma HandleEnable(d: DaemonState, device: string, io: DaemonIo)
    requires d.srv.servings == [Serving(Started, 0, "lo", 7090)]
    ensures Handle(d, Ask("enable-stream", device), io).streams ==
            if StreamEnabled(d.streams, 0, "lo") then d.streams else EnableStream(d.streams, 0, device)
    ensures Handle(d, Ask("enable-stream", device), io).srv.servings == d.srv.servings
  {
    assert SubText(Ask("enable-stream", device).value, "device-name") == Some(device);
    assert ServingById(d.srv.servings, 0).device == "lo";
  }

  lemma HandleDisable(d: DaemonState, device: string, io: DaemonIo)
    requires d.srv.servings == [Serving(Started, 0, "lo", 7090)] && StreamEnabled(d.streams, 0, "lo")
    ensures Handle(d, Ask("disable-stream", device), io).streams == DisableStream(d.streams, 0, "lo")
  {
    assert SubText(Ask("disable-stream", device).value, "device-name") == Some(device);
    assert ServingById(d.srv.servings, 0).device == "lo";
  }
}
