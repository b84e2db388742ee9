/** Exactly which messages a connected client gets in a cycle, and in which order. */
module Transcripts {
  import opened Trees
  import opened NetworkModel
  import opened ServerModel
  import opened DaemonModel
  import opened Subscriptions

  // Messages to all who are entitled

  lemma NobodyConnected(served: seq<(nat, int)>, client: nat)
    ensures !Connected(served[..0], client)
  {
  }

  lemma ConnectedStep(served: seq<(nat, int)>, k: nat, client: nat)
    requires 0 < k <= |served|
    ensures Connected(served[..k], client) <==> Connected(served[..k - 1], client) || served[k - 1].0 == client
    ensures DistinctClients(served) && served[k - 1].0 == client ==> !Connected(served[..k - 1], client)
  {
    if Connected(served[..k], client) && served[k - 1].0 != client {
      var i :| 0 <= i < k && served[..k][i].0 == client;
      assert served[..k - 1][i].0 == client;
    }
    if Connected(served[..k - 1], client) {
      var i :| 0 <= i < k - 1 && served[..k - 1][i].0 == client;
      assert served[..k][i].0 == client;
    }
    assert served[..k][k - 1] == served[k - 1];
  }

  lemma {:induction false} BroadcastOutbox(d: DaemonState, k: nat, scope: string, m: Tree, client: nat)
    requires k <= |d.srv.served| && DistinctClients(d.srv.served)
    ensures OutboxOf(Broadcast(d, k, scope, m).srv.outbox, client) ==
            OutboxOf(d.srv.outbox, client) +
            (if Connected(d.srv.served[..k], client) && Receives(d.streams, client, scope) then [m] else [])
  {
    hide Connected;
    if k == 0 {
      NobodyConnected(d.srv.served, client);
    } else {
      BroadcastOutbox(d, k - 1, scope, m, client);
      ConnectedStep(d.srv.served, k, client);
    }
  }

  /** A connected client that is entitled to a message gets it once at the end of its outbox, any other not at all. */
  lemma AnnounceOutbox(d: DaemonState, scope: string, m: Tree, client: nat)
    requires DistinctClients(d.srv.served)
    ensures OutboxOf(Announce(d, scope, m).srv.outbox, client) ==
            OutboxOf(d.srv.outbox, client) +
            (if Connected(d.srv.served, client) && Receives(d.streams, client, scope) then [m] else [])
  {
    BroadcastOutbox(d, |d.srv.served|, scope, m, client);
    assert d.srv.served[..|d.srv.served|] == d.srv.served;
  }

  // Events

  function Disabled(device: string): Tree {
    Tree("info", "stream-disabled", [Leaf("device-name", device)])
  }

  lemma {:induction false} EndStreamsOutbox(d: DaemonState, device: string, client: nat)
    requires DistinctStreams(d.streams)
    ensures OutboxOf(EndStreams(d, device).srv.outbox, client) ==
            OutboxOf(d.srv.outbox, client) + (if Stream(client, device) in d.streams then [Disabled(device)] else [])
    decreases |d.streams|
  {
    var i := FirstOn(d.streams, device);
    if i < |d.streams| {
      var left := EndAt(d, i).streams;
      EndStreamsOutbox(EndAt(d, i), device, client);
      StreamsWithout(d.streams, i);
    } else {
      assert Stream(client, device) !in d.streams;
    }
  }

  lemma StreamsWithout(streams: seq<Stream>, i: nat)
    requires DistinctStreams(streams) && i < |streams|
    ensures forall s :: s in streams[..i] + streams[i + 1..] <==> s in streams && s != streams[i]
  {
  }

  /** The client has the stream on when the events after past are routed. */
  predicate On(streams: seq<Stream>, past: seq<Event>, client: nat, device: string) {
    StreamEnabled(streams, client, device) && DeviceRemoved(device) !in past
  }

  /** The event is about an address that was heard on a device. */
  predicate AboutAddress(e: Event) {
    e.MacDiscovered? || e.MacDisappeared? || e.MacEvidenceChanged?
  }

  /** What an event tells a client, after the events of past. What happens to a device is told to every client, and
      before a device goes away its subscribers are told that their stream ends. What happens to an address is told to
      the subscribers of its device; without a device it is told to every client. */
  function Told(streams: seq<Stream>, past: seq<Event>, net: NetState, e: Event, client: nat, io: DaemonIo): seq<Tree> {
    if AboutAddress(e) then
      if e.device == "" || On(streams, past, client, e.device) then [Message(net, e, io)] else []
    else if e.DeviceRemoved? && On(streams, past, client, e.device) then [Disabled(e.device), Message(net, e, io)]
    else [Message(net, e, io)]
  }

  function ToldAll(streams: seq<Stream>, net: NetState, events: seq<Event>, client: nat, io: DaemonIo): seq<Tree> {
    if events == [] then []
    else
      var front := events[..|events| - 1];
      ToldAll(streams, net, front, client, io) + Told(streams, front, net, events[|events| - 1], client, io)
  }

  lemma RouteOutbox(d: DaemonState, e: Event, io: DaemonIo, client: nat)
    requires DistinctClients(d.srv.served) && Connected(d.srv.served, client) && DistinctStreams(d.streams)
    ensures OutboxOf(Route(d, e, io).srv.outbox, client) ==
            OutboxOf(d.srv.outbox, client) + Told(d.streams, [], d.net, e, client, io)
  {
    hide Message, Announce, EndStreams, DistinctStreams, DistinctClients;
    var ended := if e.DeviceRemoved? then EndStreams(d, e.device) else d;
    if e.DeviceRemoved? {
      EndStreamsSpec(d, e.device);
      EndStreamsOutbox(d, e.device, client);
    }
    AnnounceOutbox(ended, Scope(e), Message(ended.net, e, io), client);
    if e.DeviceRemoved? && Stream(client, e.device) in d.streams {
      assert [Disabled(e.device)] + [Message(d.net, e, io)] == [Disabled(e.device), Message(d.net, e, io)];
    }
  }

  /** Which messages an event sends, kind by kind. What happens to a device is told to every connected client, with or
      without streams, once; what happens to an address exactly to those with a stream on its device, or to everyone if
      no device is named. */
  lemma EventOutbox(d: DaemonState, e: Event, io: DaemonIo, client: nat)
    requires DistinctClients(d.srv.served) && Connected(d.srv.served, client) && DistinctStreams(d.streams)
    ensures var before, after := OutboxOf(d.srv.outbox, client), OutboxOf(Route(d, e, io).srv.outbox, client);
            var message := Message(d.net, e, io);
            match e
            case DeviceAdded(_) => after == before + [message]
            case DeviceStateChanged(_, _) => after == before + [message]
            case DeviceEvidenceChanged(_, _, _, _) => after == before + [message]
            case DeviceRemoved(device) =>
              after == if Stream(client, device) in d.streams then before + [Disabled(device)] + [message]
                       else before + [message]
            case MacDiscovered(device, _) =>
              after == if device == "" || Stream(client, device) in d.streams then before + [message] else before
            case MacDisappeared(device, _) =>
              after == if device == "" || Stream(client, device) in d.streams then before + [message] else before
            case MacEvidenceChanged(device, _, _, _, _) =>
              after == if device == "" || Stream(client, device) in d.streams then before + [message] else before
  {
    hide Message, Route, OutboxOf;
    RouteOutbox(d, e, io, client);
    var message := Message(d.net, e, io);
    assert e.DeviceRemoved? ==> [Disabled(e.device), message] == [Disabled(e.device)] + [message];
  }

  /** Routing the events of a cycle appends exactly what they tell the client. */
  lemma {:induction false} RouteAllOutbox(d: DaemonState, events: seq<Event>, io: DaemonIo, client: nat)
    requires DistinctClients(d.srv.served) && Connected(d.srv.served, client) && DistinctStreams(d.streams)
    ensures OutboxOf(RouteAll(d, events, io).srv.outbox, client) ==
            OutboxOf(d.srv.outbox, client) + ToldAll(d.streams, d.net, events, client, io)
  {
    hide Message, Route, Told;
    if events != [] {
      var front, last := events[..|events| - 1], events[|events| - 1];
      RouteAllOutbox(d, front, io, client);
      RouteAllKeeps(d, front, io);
      RouteOutbox(RouteAll(d, front, io), last, io, client);
      ToldLater(d, front, last, io, client);
    }
  }

  /** The streams that are on after past are those whose device past did not remove. */
  lemma ToldLater(d: DaemonState, past: seq<Event>, e: Event, io: DaemonIo, client: nat)
    requires DistinctStreams(d.streams)
    ensures var t := RouteAll(d, past, io);
            Told(t.streams, [], t.net, e, client, io) == Told(d.streams, past, d.net, e, client, io)
  {
    hide Message, RouteAll;
    RouteAllKeeps(d, past, io);
  }

  // Requests

  /** The answers to the client's requests among the queued values, in order. */
  function Answered(d: DaemonState, queue: seq<QueuedValue>, io: DaemonIo, client: nat): seq<Tree> {
    if queue == [] then []
    else
      var front, last := queue[..|queue| - 1], queue[|queue| - 1];
      Answered(d, front, io, client) +
      (if last.client == client then [Response(last.value, Answer(HandleAll(d, front, io), last, io).1)] else [])
  }

  lemma {:induction false} HandleAllOutbox(d: DaemonState, queue: seq<QueuedValue>, io: DaemonIo, client: nat)
    ensures OutboxOf(HandleAll(d, queue, io).srv.outbox, client) ==
            OutboxOf(d.srv.outbox, client) + Answered(d, queue, io, client)
  {
    if queue != [] {
      var front, last := queue[..|queue| - 1], queue[|queue| - 1];
      HandleAllOutbox(d, front, io, client);
      HandleOutbox(HandleAll(d, front, io), last, io, client);
      hide Handle;
    }
  }

  lemma HandleOutbox(d: DaemonState, q: QueuedValue, io: DaemonIo, client: nat)
    ensures OutboxOf(Handle(d, q, io).srv.outbox, client) ==
            OutboxOf(d.srv.outbox, client) +
            (if q.client == client then [Response(q.value, Answer(d, q, io).1)] else [])
  {
    hide EvidenceEntries, DeviceEntries, MacEntries, EnableStream, DisableStream;
  }

  // A whole cycle

  function Beat(d: DaemonState, io: DaemonIo): seq<Tree> {
    if KeepAliveDue(d, io.keepAliveTime) then [Tree("info", "keepalive", [])] else []
  }

  /** What a cycle sends to the client of a connection made earlier that is still there at its end: the answers to its
      requests, then what the events tell it, then a keepalive if one is due. Nothing else, and in this order. */
  function News(d: DaemonState, io: DaemonIo, client: nat): seq<Tree> {
    var p, s := Prepared(d, io), Served(d, io);
    Answered(p, ServerModel.Cycle(d.srv, io.server).queue, io, client) +
    ToldAll(s.streams, s.net, s.net.events, client, io) +
    Beat(d, io)
  }

  lemma CycleOutbox(d: DaemonState, io: DaemonIo, client: nat)
    requires DaemonOk(d) && Succeeds(d) && client < d.srv.nextClient
    requires Connected(DaemonModel.Cycle(d, io).srv.served, client)
    ensures OutboxOf(DaemonModel.Cycle(d, io).srv.outbox, client) ==
            OutboxOf(d.srv.outbox, client) + News(d, io, client)
  {
    hide *;
    ConnectedThroughout(d, io, client);
    PreparedOutbox(d, io, client);
    ServedOutbox(d, io, client);
    RoutedOutbox(d, io, client);
    BeatOutbox(d, io, client);
    NewsParts(d, io, client);
  }

  /** Where an event of a cycle stands in what a client gets: behind the answers to its requests and behind what the
      earlier events told it. */
  lemma EventTold(d: DaemonState, io: DaemonIo, client: nat, i: nat)
    requires DaemonOk(d) && Succeeds(d) && client < d.srv.nextClient
    requires Connected(DaemonModel.Cycle(d, io).srv.served, client) && i < |Served(d, io).net.events|
    ensures var s := Served(d, io);
            var e, past := s.net.events[i], s.net.events[..i];
            var front := OutboxOf(d.srv.outbox, client) +
                         Answered(Prepared(d, io), ServerModel.Cycle(d.srv, io.server).queue, io, client) +
                         ToldAll(s.streams, s.net, past, client, io);
            var on := Stream(client, e.device) in s.streams && DeviceRemoved(e.device) !in past;
            var message := Message(s.net, e, io);
            front + (if e.DeviceAdded? || e.DeviceStateChanged? || e.DeviceEvidenceChanged? then [message]
                     else if e.DeviceRemoved? then (if on then [Disabled(e.device), message] else [message])
                     else if e.device == "" || on then [message] else [])
            <= OutboxOf(DaemonModel.Cycle(d, io).srv.outbox, client)
  {
    hide Answered, Message, Prepared, Served, DaemonOk, Succeeds, DaemonModel.Cycle, ServerModel.Cycle, OutboxOf;
    hide ToldAll, Beat, Connected;
    CycleOutbox(d, io, client);
    var s := Served(d, io);
    ToldAt(s.streams, s.net, s.net.events, i, client, io);
    Behind(OutboxOf(d.srv.outbox, client),
           Answered(Prepared(d, io), ServerModel.Cycle(d.srv, io.server).queue, io, client),
           ToldAll(s.streams, s.net, s.net.events[..i], client, io),
           ToldAll(s.streams, s.net, s.net.events, client, io), Beat(d, io));
  }

  lemma Behind(before: seq<Tree>, answers: seq<Tree>, past: seq<Tree>, told: seq<Tree>, beat: seq<Tree>)
    ensures forall sent: seq<Tree> :: past + sent <= told ==>
              before + answers + past + sent <= before + (answers + told + beat)
  {
    forall sent: seq<Tree> | past + sent <= told
      ensures before + answers + past + sent <= before + (answers + told + beat)
    {
      assert told == past + sent + told[|past + sent|..];
      assert before + (answers + told + beat) == (before + answers + past + sent) + (told[|past + sent|..] + beat);
    }
  }

  lemma ToldAt(streams: seq<Stream>, net: NetState, events: seq<Event>, i: nat, client: nat, io: DaemonIo)
    requires i < |events|
    ensures var e, past := events[i], events[..i];
            var on := Stream(client, e.device) in streams && DeviceRemoved(e.device) !in past;
            var message := Message(net, e, io);
            ToldAll(streams, net, past, client, io) +
            (if e.DeviceAdded? || e.DeviceStateChanged? || e.DeviceEvidenceChanged? then [message]
             else if e.DeviceRemoved? then (if on then [Disabled(e.device), message] else [message])
             else if e.device == "" || on then [message] else [])
            <= ToldAll(streams, net, events, client, io)
  {
    hide Message;
    ToldPrefix(streams, net, events, i + 1, client, io);
    var most := events[..i + 1];
    assert most[..i] == events[..i] && most[..|most| - 1] == events[..i] && most[i] == events[i];
    assert ToldAll(streams, net, most, client, io) ==
           ToldAll(streams, net, events[..i], client, io) + Told(streams, events[..i], net, events[i], client, io);
    hide ToldAll;
  }

  lemma {:induction false} ToldPrefix(streams: seq<Stream>, net: NetState, events: seq<Event>, n: nat, client: nat,
                                      io: DaemonIo)
    requires n <= |events|
    ensures ToldAll(streams, net, events[..n], client, io) <= ToldAll(streams, net, events, client, io)
  {
    hide Told;
    if n == |events| {
      assert events[..n] == events;
    } else {
      ToldPrefix(streams, net, events[..|events| - 1], n, client, io);
      assert events[..|events| - 1][..n] == events[..n];
    }
  }

  lemma NewsParts(d: DaemonState, io: DaemonIo, client: nat)
    ensures News(d, io, client) ==
            Answered(Prepared(d, io), ServerModel.Cycle(d.srv, io.server).queue, io, client) +
            ToldAll(Served(d, io).streams, Served(d, io).net, Served(d, io).net.events, client, io) + Beat(d, io)
  {
  }

  /** After the server cycle connections, and the keepalive timer until the end, stay the same. */
  lemma ConnectedThroughout(d: DaemonState, io: DaemonIo, client: nat)
    requires DaemonOk(d) && Succeeds(d)
    ensures var s, r := Served(d, io), Routed(d, io);
            && DistinctClients(s.srv.served) && DistinctStreams(s.streams) && DistinctClients(r.srv.served)
            && Prepared(d, io).srv.served == s.srv.served == r.srv.served == DaemonModel.Cycle(d, io).srv.served
            && KeepAliveDue(r, io.keepAliveTime) == KeepAliveDue(d, io.keepAliveTime)
  {
    hide NetworkModel.Cycle, ServerModel.Cycle, HandleAll, RouteAll, Broadcast;
    ServedKeeps(d, io);
    RouteAllKeeps(Served(d, io), Served(d, io).net.events, io);
  }

  lemma PreparedOutbox(d: DaemonState, io: DaemonIo, client: nat)
    requires DaemonOk(d) && Succeeds(d) && client < d.srv.nextClient
    ensures OutboxOf(Prepared(d, io).srv.outbox, client) == OutboxOf(d.srv.outbox, client)
  {
    hide NetworkModel.Cycle, ServerModel.Cycle;
    ServerModel.CycleKeeps(d.srv, io.server);
  }

  lemma ServedOutbox(d: DaemonState, io: DaemonIo, client: nat)
    ensures OutboxOf(Served(d, io).srv.outbox, client) ==
            OutboxOf(Prepared(d, io).srv.outbox, client) +
            Answered(Prepared(d, io), ServerModel.Cycle(d.srv, io.server).queue, io, client)
  {
    hide Prepared, ServerModel.Cycle, HandleAll, Answered;
    HandleAllOutbox(Prepared(d, io), ServerModel.Cycle(d.srv, io.server).queue, io, client);
  }

  lemma RoutedOutbox(d: DaemonState, io: DaemonIo, client: nat)
    requires var s := Served(d, io);
             DistinctClients(s.srv.served) && Connected(s.srv.served, client) && DistinctStreams(s.streams)
    ensures var s := Served(d, io);
            OutboxOf(Routed(d, io).srv.outbox, client) ==
            OutboxOf(s.srv.outbox, client) + ToldAll(s.streams, s.net, s.net.events, client, io)
  {
    hide Served, ToldAll, RouteAll;
    RouteAllOutbox(Served(d, io), Served(d, io).net.events, io, client);
  }

  lemma BeatOutbox(d: DaemonState, io: DaemonIo, client: nat)
    requires Succeeds(d)
    requires var r := Routed(d, io);
             && DistinctClients(r.srv.served) && Connected(r.srv.served, client)
             && KeepAliveDue(r, io.keepAliveTime) == KeepAliveDue(d, io.keepAliveTime)
    ensures OutboxOf(DaemonModel.Cycle(d, io).srv.outbox, client) ==
            OutboxOf(Routed(d, io).srv.outbox, client) + Beat(d, io)
  {
    hide Routed, NetworkModel.Cycle, Announce;
    AnnounceOutbox(Routed(d, io).(lastKeepAlive := io.keepAliveTime), "", KEEPALIVE, client);
  }
}
