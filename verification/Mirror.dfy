/** What a client can reconstruct: folding the messages that the daemon sends to it gives the monitor's tables. */
module Mirrors {
  import opened Basics
  import opened Trees
  import opened Ordering
  import opened NetworkModel
  import opened EventLog
  import opened NetworkLaws
  import opened NetworkCycle
  import NetworkRuns
  import opened ServerModel
  import opened DaemonModel
  import opened Subscriptions
  import opened DaemonRuns
  import opened Transcripts

  // The client's side

  /** What a client follows: the addresses on one device, or the names of the known devices. */
  datatype Subject = MacsOf(device: string) | Names

  /** The request whose answer lists the subject. */
  function Question(subject: Subject): string {
    match subject
    case MacsOf(_) => "known-mac-addresses"
    case Names => "devices-list"
  }

  function Listing(entries: seq<Tree>, subject: Subject): set<string> {
    match subject
    case MacsOf(device) => set t | t in entries && SubText(t, "device-name") == Some(device) :: t.key
    case Names => set t | t in entries :: t.key
  }

  /** The client's list after a message that names a device. */
  function Update(list: set<string>, subject: Subject, m: Tree, device: string): set<string> {
    match subject
    case MacsOf(watched) =>
      if device != watched then list
      else if m.content == "mac-address-discovered" && SubText(m, "mac").Some? then list + {SubText(m, "mac").value}
      else if m.content == "mac-address-disappeared" && SubText(m, "mac").Some? then list - {SubText(m, "mac").value}
      else if m.content == "device-removed" then {}
      else list
    case Names =>
      if m.content == "device-added" then list + {device}
      else if m.content == "device-removed" then list - {device}
      else list
  }

  /** The client's list (None before the first answer) after one more message. */
  function See(mirror: Option<set<string>>, subject: Subject, m: Tree): Option<set<string>> {
    if m.key == "response" && m.content == Question(subject) then
      match Sub(m, Question(subject))
      case None => mirror
      case Some(answer) => Some(Listing(answer.subs, subject))
    else if m.key == "info" && SubText(m, "device-name").Some? && mirror.Some? then
      Some(Update(mirror.value, subject, m, SubText(m, "device-name").value))
    else mirror
  }

  function Mirror(messages: seq<Tree>, subject: Subject): Option<set<string>> {
    if messages == [] then None
    else See(Mirror(messages[..|messages| - 1], subject), subject, messages[|messages| - 1])
  }

  /** What the client holds. */
  function Held(d: DaemonState, client: nat, subject: Subject): Option<set<string>> {
    Mirror(OutboxOf(d.srv.outbox, client), subject)
  }

  /** What the monitor holds. */
  function Table(net: NetState, subject: Subject): set<string> {
    match subject
    case MacsOf(device) => set e | e in net.macs && e.device == device :: e.mac
    case Names => set d | d in net.devices :: d.name
  }

  lemma MirrorAppend(messages: seq<Tree>, m: Tree, subject: Subject)
    ensures Mirror(messages + [m], subject) == See(Mirror(messages, subject), subject, m)
  {
    assert (messages + [m])[..|messages|] == messages;
  }

  lemma NothingNew(messages: seq<Tree>, subject: Subject)
    ensures Mirror(messages + [], subject) == Mirror(messages, subject)
  {
    assert messages + [] == messages;
  }

  // Requests

  lemma {:induction false} MacEntriesSpec(macs: seq<Entity>, io: DaemonIo)
    ensures forall e :: e in macs ==> MacEntry(e, io) in MacEntries(macs, io)
    ensures forall t :: t in MacEntries(macs, io) ==> exists e :: e in macs && t == MacEntry(e, io)
  {
    if macs != [] {
      var front, last := macs[..|macs| - 1], macs[|macs| - 1];
      MacEntriesSpec(front, io);
      assert macs == front + [last];
      assert MacEntry(last, io) in MacEntries(macs, io);
    }
  }

  lemma {:induction false} DeviceEntriesSpec(devices: seq<DeviceInfo>)
    ensures forall d :: d in devices ==> DeviceEntry(d) in DeviceEntries(devices)
    ensures forall t :: t in DeviceEntries(devices) ==> exists d :: d in devices && t == DeviceEntry(d)
  {
    if devices != [] {
      var front, last := devices[..|devices| - 1], devices[|devices| - 1];
      DeviceEntriesSpec(front);
      assert devices == front + [last];
      assert DeviceEntry(last) in DeviceEntries(devices);
    }
  }

  lemma ListingOfMacs(net: NetState, io: DaemonIo, device: string)
    ensures Listing(MacEntries(net.macs, io), MacsOf(device)) == Table(net, MacsOf(device))
  {
    MacEntriesSpec(net.macs, io);
    forall m | m in Table(net, MacsOf(device)) ensures m in Listing(MacEntries(net.macs, io), MacsOf(device)) {
      var e :| e in net.macs && e.device == device && e.mac == m;
      assert MacEntry(e, io) in MacEntries(net.macs, io);
    }
    forall m | m in Listing(MacEntries(net.macs, io), MacsOf(device)) ensures m in Table(net, MacsOf(device)) {
      var t :| t in MacEntries(net.macs, io) && SubText(t, "device-name") == Some(device) && t.key == m;
      var e :| e in net.macs && t == MacEntry(e, io);
    }
  }

  lemma ListingOfNames(net: NetState)
    ensures Listing(DeviceEntries(net.devices), Names) == Table(net, Names)
  {
    DeviceEntriesSpec(net.devices);
    forall n | n in Table(net, Names) ensures n in Listing(DeviceEntries(net.devices), Names) {
      var d :| d in net.devices && d.name == n;
      assert DeviceEntry(d) in DeviceEntries(net.devices);
    }
    forall n | n in Listing(DeviceEntries(net.devices), Names) ensures n in Table(net, Names) {
      var t :| t in DeviceEntries(net.devices) && t.key == n;
      var d :| d in net.devices && t == DeviceEntry(d);
    }
  }

  predicate AsksFor(q: QueuedValue, client: nat, subject: Subject) {
    q.client == client && q.value.content == Question(subject)
  }

  /** Only the answer to the subject's question touches a mirror, and it sets it to the table. */
  lemma AnswerSeen(d: DaemonState, q: QueuedValue, io: DaemonIo, mirror: Option<set<string>>, subject: Subject)
    ensures See(mirror, subject, Response(q.value, Answer(d, q, io).1)) ==
            if q.value.content == Question(subject) then Some(Table(d.net, subject)) else mirror
  {
    hide SortedKeys, EvidenceEntries, DeviceEntries, MacEntries, EnableStream, DisableStream, Table, Listing;
    if q.value.content == Question(subject) {
      SubAt([Answer(d, q, io).1], 0, Question(subject));
      match subject
      case MacsOf(device) => ListingOfMacs(d.net, io, device);
      case Names => ListingOfNames(d.net);
    }
  }

  lemma HandleHeld(d: DaemonState, q: QueuedValue, io: DaemonIo, client: nat, subject: Subject)
    ensures Held(Handle(d, q, io), client, subject) ==
            if AsksFor(q, client, subject) then Some(Table(d.net, subject)) else Held(d, client, subject)
  {
    hide See, Handle, Answer, Response, Table;
    var outbox := OutboxOf(d.srv.outbox, client);
    HandleOutbox(d, q, io, client);
    AnswerSeen(d, q, io, Held(d, client, subject), subject);
    MirrorAppend(outbox, Response(q.value, Answer(d, q, io).1), subject);
    NothingNew(outbox, subject);
  }

  lemma HandleTable(d: DaemonState, q: QueuedValue, io: DaemonIo, subject: Subject)
    ensures Table(Handle(d, q, io).net, subject) == Table(d.net, subject)
  {
    hide SortedKeys, EvidenceEntries, DeviceEntries, MacEntries;
  }

  ghost predicate Asked(queue: seq<QueuedValue>, client: nat, subject: Subject) {
    exists i :: 0 <= i < |queue| && AsksFor(queue[i], client, subject)
  }

  lemma {:induction false} HandleAllHeld(d: DaemonState, queue: seq<QueuedValue>, io: DaemonIo, client: nat,
                                         subject: Subject)
    ensures Held(HandleAll(d, queue, io), client, subject) ==
            if Asked(queue, client, subject) then Some(Table(d.net, subject)) else Held(d, client, subject)
    ensures Table(HandleAll(d, queue, io).net, subject) == Table(d.net, subject)
  {
    hide Held, Table, Handle;
    if queue != [] {
      var front, last := queue[..|queue| - 1], queue[|queue| - 1];
      HandleAllHeld(d, front, io, client, subject);
      HandleHeld(HandleAll(d, front, io), last, io, client, subject);
      HandleTable(HandleAll(d, front, io), last, io, subject);
      AskedStep(queue, client, subject);
    }
  }

  lemma AskedStep(queue: seq<QueuedValue>, client: nat, subject: Subject)
    requires queue != []
    ensures Asked(queue, client, subject) <==>
            Asked(queue[..|queue| - 1], client, subject) || AsksFor(queue[|queue| - 1], client, subject)
  {
    var front := queue[..|queue| - 1];
    if Asked(front, client, subject) {
      var i :| 0 <= i < |front| && AsksFor(front[i], client, subject);
      assert AsksFor(queue[i], client, subject);
    }
    if Asked(queue, client, subject) && !AsksFor(queue[|queue| - 1], client, subject) {
      var i :| 0 <= i < |queue| && AsksFor(queue[i], client, subject);
      assert AsksFor(front[i], client, subject);
    }
  }

  // Events

  /** What an event does to the table. */
  function Follow(list: set<string>, subject: Subject, e: Event): set<string> {
    match (subject, e)
    case (MacsOf(device), MacDiscovered(d, mac)) => if d == device then list + {mac} else list
    case (MacsOf(device), MacDisappeared(d, mac)) => if d == device then list - {mac} else list
    case (Names, DeviceAdded(d)) => list + {d}
    case (Names, DeviceRemoved(d)) => list - {d}
    case _ => list
  }

  function FollowAll(list: set<string>, subject: Subject, events: seq<Event>): set<string> {
    if events == [] then list
    else Follow(FollowAll(list, subject, events[..|events| - 1]), subject, events[|events| - 1])
  }

  /** The event ends the client's stream, and with it the list. */
  predicate Clears(subject: Subject, e: Event) {
    subject.MacsOf? && e == DeviceRemoved(subject.device)
  }

  predicate Hears(streams: seq<Stream>, client: nat, subject: Subject) {
    subject.MacsOf? ==> Receives(streams, client, subject.device)
  }

  lemma MessageSeen(net: NetState, e: Event, io: DaemonIo, subject: Subject, list: set<string>)
    ensures See(Some(list), subject, Message(net, e, io)) ==
            Some(if Clears(subject, e) then {} else Follow(list, subject, e))
  {
    var m := Message(net, e, io);
    match e
    case MacDiscovered(d, mac) =>
      SubAt(m.subs, 0, "mac");
      SubAt(m.subs, 2, "device-name");
    case MacDisappeared(d, mac) =>
      SubAt(m.subs, 0, "mac");
      SubAt(m.subs, 1, "device-name");
    case DeviceRemoved(d) =>
      SubAt(m.subs, 0, "device-name");
    case DeviceAdded(d) =>
      SubAt(m.subs, 0, "device-name");
    case _ =>
  }

  /** That a stream ended, and a keepalive, say nothing about a table. */
  lemma SilentSeen(mirror: Option<set<string>>, subject: Subject, device: string)
    ensures See(mirror, subject, Disabled(device)) == mirror
    ensures See(mirror, subject, KEEPALIVE) == mirror
  {
  }

  lemma RouteHeld(d: DaemonState, e: Event, io: DaemonIo, client: nat, subject: Subject, list: set<string>)
    requires DistinctClients(d.srv.served) && Connected(d.srv.served, client) && DistinctStreams(d.streams)
    requires Held(d, client, subject) == Some(list)
    ensures Held(Route(d, e, io), client, subject) ==
            Some(if Clears(subject, e) then {}
                 else if Hears(d.streams, client, subject) then Follow(list, subject, e) else list)
  {
    hide See, Route, Message;
    var outbox, m := OutboxOf(d.srv.outbox, client), Message(d.net, e, io);
    RouteOutbox(d, e, io, client);
    MessageSeen(d.net, e, io, subject, list);
    NothingNew(outbox, subject);
    MirrorAppend(outbox, m, subject);
    if e.DeviceRemoved? {
      SilentSeen(Some(list), subject, e.device);
      MirrorAppend(outbox, Disabled(e.device), subject);
      MirrorAppend(outbox + [Disabled(e.device)], m, subject);
      assert outbox + [Disabled(e.device), m] == outbox + [Disabled(e.device)] + [m];
    }
  }

  /** The client hears of everything in the subject while these events are routed. */
  ghost predicate Uninterrupted(streams: seq<Stream>, client: nat, subject: Subject, events: seq<Event>) {
    match subject
    case MacsOf(device) => Stream(client, device) in streams && DeviceRemoved(device) !in events
    case Names => true
  }

  /** While the stream is on, the mirror follows the events. */
  lemma {:induction false} RouteAllHeld(d: DaemonState, events: seq<Event>, io: DaemonIo, client: nat, subject: Subject,
                                        list: set<string>)
    requires DistinctClients(d.srv.served) && Connected(d.srv.served, client) && DistinctStreams(d.streams)
    requires Held(d, client, subject) == Some(list) && Uninterrupted(d.streams, client, subject, events)
    ensures Held(RouteAll(d, events, io), client, subject) == Some(FollowAll(list, subject, events))
  {
    hide Held, Follow, Route;
    if events != [] {
      var front, last := events[..|events| - 1], events[|events| - 1];
      assert events == front + [last];
      RouteAllHeld(d, front, io, client, subject, list);
      RouteAllKeeps(d, front, io);
      RouteHeld(RouteAll(d, front, io), last, io, client, subject, FollowAll(list, subject, front));
    }
  }

  /** Once the device is removed, the list of its addresses is empty and stays so. */
  lemma {:induction false} RouteAllCleared(d: DaemonState, events: seq<Event>, io: DaemonIo, client: nat,
                                           device: string)
    requires DistinctClients(d.srv.served) && Connected(d.srv.served, client) && DistinctStreams(d.streams)
    requires Held(d, client, MacsOf(device)).Some? && device != ""
    ensures Held(RouteAll(d, events, io), client, MacsOf(device)).Some?
    ensures DeviceRemoved(device) in events ==> Held(RouteAll(d, events, io), client, MacsOf(device)) == Some({})
  {
    hide Held, Route;
    if events != [] {
      var front, last := events[..|events| - 1], events[|events| - 1];
      assert events == front + [last];
      RouteAllCleared(d, front, io, client, device);
      RouteAllKeeps(d, front, io);
      var t := RouteAll(d, front, io);
      RouteHeld(t, last, io, client, MacsOf(device), Held(t, client, MacsOf(device)).value);
    }
  }

  // Tables and facts

  function AspectOf(subject: Subject, x: string): Aspect {
    match subject
    case MacsOf(device) => OfPair(x, device)
    case Names => OfDevice(x)
  }

  /** The fact says that the thing is there. */
  predicate Holds(f: Fact) {
    match f
    case Present(present) => present
    case Device(view) => view.Some?
    case Text(_) => false
  }

  predicate Fits(f: Fact, subject: Subject) {
    match subject
    case MacsOf(_) => f.Present?
    case Names => f.Device?
  }

  lemma TableFact(net: NetState, subject: Subject, x: string)
    ensures x in Table(net, subject) <==> Holds(FactOf(net, AspectOf(subject, x)))
    ensures Fits(FactOf(net, AspectOf(subject, x)), subject)
  {
    match subject
    case MacsOf(device) =>
      if x in Table(net, subject) {
        var e :| e in net.macs && e.device == device && e.mac == x;
        var i :| 0 <= i < |net.macs| && net.macs[i] == e;
        assert Is(net.macs[i], x, device);
      }
    case Names => FindSpec(net.devices, x);
  }

  lemma {:induction false} FollowIsReplay(list: set<string>, subject: Subject, events: seq<Event>, x: string, f: Fact)
    requires Fits(f, subject) && Holds(f) == (x in list)
    ensures Fits(Replay(f, AspectOf(subject, x), events), subject)
    ensures Holds(Replay(f, AspectOf(subject, x), events)) == (x in FollowAll(list, subject, events))
  {
    if events != [] {
      FollowIsReplay(list, subject, events[..|events| - 1], x, f);
    }
  }

  /** Following the events of a cycle from the old table, or again from the new one, gives the new table. */
  lemma FollowCycle(s: NetState, os: Os, now: real, subject: Subject)
    requires Inv(s, now) && OsOk(os, now)
    ensures var t := NetworkModel.Cycle(s, os);
            && FollowAll(Table(s, subject), subject, t.events) == Table(t, subject)
            && FollowAll(Table(t, subject), subject, t.events) == Table(t, subject)
  {
    hide Table, FactOf;
    var t := NetworkModel.Cycle(s, os);
    forall x
      ensures x in FollowAll(Table(s, subject), subject, t.events) <==> x in Table(t, subject)
      ensures x in FollowAll(Table(t, subject), subject, t.events) <==> x in Table(t, subject)
    {
      var a := AspectOf(subject, x);
      TableFact(s, subject, x);
      TableFact(t, subject, x);
      NetworkRuns.CycleLog(s, os, now, a);
      FollowIsReplay(Table(s, subject), subject, t.events, x, FactOf(s, a));
      FollowIsReplay(Table(t, subject), subject, t.events, x, FactOf(t, a));
    }
  }

  // One cycle

  /** The client still follows the subject when the cycle ends: it is connected and, for the addresses on a device,
      subscribed, unless the device went away. */
  ghost predicate Follows(d: DaemonState, io: DaemonIo, client: nat, subject: Subject) {
    var t := DaemonModel.Cycle(d, io);
    && Connected(t.srv.served, client)
    && match subject
       case MacsOf(device) =>
         Stream(client, device) in t.streams ||
         (DeviceRemoved(device) in NetworkModel.Cycle(d.net, io.os).events && device != "")
       case Names => true
  }

  ghost predicate Synchronized(d: DaemonState, client: nat, subject: Subject) {
    Held(d, client, subject) == Some(Table(d.net, subject))
  }

  lemma KeepAliveHeld(d: DaemonState, time: real, client: nat, subject: Subject)
    requires DistinctClients(d.srv.served)
    ensures Held(KeepAlive(d, time), client, subject) == Held(d, client, subject)
  {
    if KeepAliveDue(d, time) {
      var outbox := OutboxOf(d.srv.outbox, client);
      AnnounceOutbox(d.(lastKeepAlive := time), "", KEEPALIVE, client);
      hide Announce;
      SilentSeen(Held(d, client, subject), subject, "");
      MirrorAppend(outbox, KEEPALIVE, subject);
      NothingNew(outbox, subject);
    }
  }

  lemma RoutedHeld(d: DaemonState, io: DaemonIo, now: real, client: nat, subject: Subject)
    requires DaemonOk(d) && Succeeds(d) && Inv(d.net, now) && OsOk(io.os, now)
    requires Follows(d, io, client, subject) && Held(Served(d, io), client, subject).Some?
    ensures var s := Served(d, io);
            var events := NetworkModel.Cycle(d.net, io.os).events;
            Held(Routed(d, io), client, subject) ==
            Some(if subject.MacsOf? && DeviceRemoved(subject.device) in events then {}
                 else FollowAll(Held(s, client, subject).value, subject, events))
  {
    hide NetworkModel.Cycle, ServerModel.Cycle, HandleAll, RouteAll, Held, FollowAll;
    var s, r := Served(d, io), Routed(d, io);
    var events := s.net.events;
    ConnectedThroughout(d, io, client);
    ServedKeeps(d, io);
    RouteAllKeeps(s, events, io);
    if subject.MacsOf? && DeviceRemoved(subject.device) in events {
      assert Stream(client, subject.device) !in r.streams;
      RouteAllCleared(s, events, io, client, subject.device);
    } else {
      RouteAllHeld(s, events, io, client, subject, Held(s, client, subject).value);
    }
  }

  /** One cycle: a client that agrees with the table before it, or asks for the table in it, and follows the subject
      to its end, agrees with the table after it. */
  lemma CycleMirrors(d: DaemonState, io: DaemonIo, now: real, client: nat, subject: Subject)
    requires DaemonOk(d) && Succeeds(d) && Inv(d.net, now) && OsOk(io.os, now)
    requires Follows(d, io, client, subject)
    requires Asked(ServerModel.Cycle(d.srv, io.server).queue, client, subject) ||
             (client < d.srv.nextClient && Synchronized(d, client, subject))
    ensures Synchronized(DaemonModel.Cycle(d, io), client, subject)
  {
    hide NetworkModel.Cycle, ServerModel.Cycle, HandleAll, RouteAll, FollowAll, KeepAlive, Asked, Mirror;
    var p, s, r := Prepared(d, io), Served(d, io), Routed(d, io);
    var queue := ServerModel.Cycle(d.srv, io.server).queue;
    if !Asked(queue, client, subject) { PreparedOutbox(d, io, client); }
    HandleAllHeld(p, queue, io, client, subject);
    RoutedHeld(d, io, now, client, subject);
    FollowCycle(d.net, io.os, now, subject);
    if subject.MacsOf? && DeviceRemoved(subject.device) in p.net.events {
      RemovedIsEmpty(d.net, io.os, now, subject.device);
    }
    ConnectedThroughout(d, io, client);
    KeepAliveHeld(r, io.keepAliveTime, client, subject);
    CycleTable(d, io, subject);
  }

  lemma CycleTable(d: DaemonState, io: DaemonIo, subject: Subject)
    requires DaemonOk(d) && Succeeds(d)
    ensures Table(DaemonModel.Cycle(d, io).net, subject) == Table(NetworkModel.Cycle(d.net, io.os), subject)
  {
    MonitorAfter(d, io);
  }

  // A removed device leaves no entry

  ghost predicate NoRemoval(s: NetState, t: NetState, device: string) {
    s.events <= t.events && DeviceRemoved(device) !in t.events[|s.events|..]
  }

  lemma NoRemovalTransitive(s: NetState, t: NetState, u: NetState, device: string)
    requires NoRemoval(s, t, device) && NoRemoval(t, u, device)
    ensures NoRemoval(s, u, device)
  {
    assert u.events[|s.events|..] == t.events[|s.events|..] + u.events[|t.events|..];
  }

  lemma {:induction false} HearAllNoRemoval(s: NetState, k: nat, os: Os, device: string)
    requires k <= |s.devices|
    ensures NoRemoval(s, HearAll(s, k, os), device)
  {
    if k > 0 {
      var t := HearAll(s, k - 1, os);
      HearAllNoRemoval(s, k - 1, os, device);
      HearNoRemoval(t, s.devices[k - 1].name, os.reading(k - 1), device);
      NoRemovalTransitive(s, t, HearAll(s, k, os), device);
    }
  }

  lemma HearNoRemoval(s: NetState, name: string, r: Reading, device: string)
    ensures NoRemoval(s, Hear(s, name, r), device)
  {
    var mac := SourceMac(r.buffer);
    var t := AddMac(s, mac, name, r.at);
    assert NoRemoval(s, t, device);
    assert NoRemoval(t, UpdateEvidence(t, name, mac, "ip", SenderIp(r.buffer)), device);
    NoRemovalTransitive(s, t, UpdateEvidence(t, name, mac, "ip", SenderIp(r.buffer)), device);
  }

  lemma {:induction false} CheckHostnamesNoRemoval(s: NetState, order: seq<string>, os: Os, device: string)
    ensures NoRemoval(s, CheckHostnames(s, order, os), device)
  {
    if order != [] {
      var t := CheckHostnames(s, order[..|order| - 1], os);
      CheckHostnamesNoRemoval(s, order[..|order| - 1], os, device);
      assert NoRemoval(t, CheckHostname(t, order[|order| - 1], os), device);
      NoRemovalTransitive(s, t, CheckHostnames(s, order, os), device);
    }
  }

  lemma {:induction false} RemoveAllRemovals(s: NetState, names: seq<string>, device: string)
    requires device !in names
    ensures NoRemoval(s, RemoveAll(s, names), device)
  {
    if names != [] {
      var t := RemoveAll(s, names[..|names| - 1]);
      var name := names[|names| - 1];
      RemoveAllRemovals(s, names[..|names| - 1], device);
      FarewellsKind(t.macs, OnDevice(name));
      assert RemoveDevice(t, name).events[|t.events|..] == [DeviceRemoved(name)] + Farewells(t.macs, OnDevice(name));
      NoRemovalTransitive(s, t, RemoveAll(s, names), device);
    }
  }

  lemma {:induction false} AddAllNoRemoval(s: NetState, names: seq<string>, os: Os, device: string)
    ensures NoRemoval(s, AddAll(s, names, os), device)
  {
    if names != [] {
      var t := AddAll(s, names[..|names| - 1], os);
      AddAllNoRemoval(s, names[..|names| - 1], os, device);
      assert NoRemoval(t, AddDevice(t, names[|names| - 1], os), device);
      NoRemovalTransitive(s, t, AddAll(s, names, os), device);
    }
  }

  lemma {:induction false} MaintainNoRemoval(s: NetState, k: nat, os: Os, device: string)
    requires k <= |s.devices|
    ensures NoRemoval(s, Maintain(s, k, os), device)
  {
    hide Differences, MaintainAt, NoRemoval;
    if k == 0 {
      NoRemovalNothing(s, device);
    } else {
      var t := Maintain(s, k - 1, os);
      MaintainNoRemoval(s, k - 1, os, device);
      MaintainAtNoRemoval(t, k - 1, os, device);
      NoRemovalTransitive(s, t, Maintain(s, k, os), device);
    }
  }

  lemma NoRemovalNothing(s: NetState, device: string)
    ensures NoRemoval(s, s, device)
  {
  }

  lemma MaintainAtNoRemoval(s: NetState, i: nat, os: Os, device: string)
    requires i < |s.devices|
    ensures NoRemoval(s, MaintainAt(s, i, os), device)
  {
    if s.settings.controlOpen {
      assert MaintainAt(s, i, os).events[|s.events|..] == Differences(s.devices[i], os);
    }
  }

  /** A cycle reports the removal of a device only when it manages devices and the system lost the name. */
  lemma RemovalReason(s: NetState, os: Os, device: string)
    requires DeviceRemoved(device) in NetworkModel.Cycle(s, os).events
    ensures s.settings.autoManage && device in Vanished(s.devices, os.names)
  {
    var t0 := Begin(s);
    var heard := HearAll(t0, |t0.devices|, os);
    var t1 := Detect(t0, os);
    var t2 := Manage(t1, os);
    var t3 := Maintain(t2, |t2.devices|, os);
    DetectSettings(t0, os);
    HearAllNoRemoval(t0, |t0.devices|, os, device);
    CheckHostnamesNoRemoval(heard, SortedKeys(heard.evidence.Keys), os, device);
    NoRemovalTransitive(t0, heard, t1, device);
    MaintainNoRemoval(t2, |t2.devices|, os, device);
    FarewellsKind(t3.macs, Unheard(os.start, s.settings.maxMacAge));
    NoRemovalTransitive(t2, t3, NetworkModel.Cycle(s, os), device);
    assert NetworkModel.Cycle(s, os).events[|t0.events|..] == NetworkModel.Cycle(s, os).events;
    if !(s.settings.autoManage && device in Vanished(s.devices, os.names)) {
      var named := t1.(systemNames := os.names);
      var gone := Vanished(s.devices, os.names);
      var removed := RemoveAll(named, gone);
      if s.settings.autoManage {
        RemoveAllRemovals(named, gone, device);
        AddAllNoRemoval(removed, Unknown(s.devices, os.names), os, device);
        NoRemovalTransitive(named, removed, t2, device);
      }
      assert NoRemoval(t1, t2, device);
      NoRemovalTransitive(t0, t1, t2, device);
      NoRemovalTransitive(t0, t2, NetworkModel.Cycle(s, os), device);
    }
  }

  lemma RemovedIsEmpty(s: NetState, os: Os, now: real, device: string)
    requires Inv(s, now) && OsOk(os, now) && DeviceRemoved(device) in NetworkModel.Cycle(s, os).events
    ensures Table(NetworkModel.Cycle(s, os), MacsOf(device)) == {}
  {
    RemovalReason(s, os, device);
    VanishedSpec(s.devices, os.names);
    NetworkRuns.CycleDevices(s, os, now);
    NetworkRuns.CycleKeeps(s, os, now);
  }

  // Runs

  /** The state before step number k of a run. */
  ghost function Before(d: DaemonState, steps: seq<Step>, k: nat): DaemonState
    requires k <= |steps|
  {
    Run(d, steps[..k])
  }

  /** The client is connected and, for the addresses on a device, subscribed. */
  ghost predicate Attends(d: DaemonState, client: nat, subject: Subject) {
    match subject
    case MacsOf(device) => Stream(client, device) in d.streams
    case Names => Connected(d.srv.served, client)
  }

  /** The pattern would ban the device, which is known. */
  predicate Bans(s: NetState, pattern: string, device: string) {
    Known(s.devices, device) && !Allowed(s.(patterns := s.patterns + [pattern]), device)
  }

  /** The pattern takes nothing from the subject's table. */
  predicate Unharmed(s: NetState, pattern: string, subject: Subject) {
    match subject
    case MacsOf(device) => Bans(s, pattern, device) ==> Table(s, subject) == {}
    case Names => forall n :: n in Table(s, Names) ==> !Bans(s, pattern, n)
  }

  /** The step is a successful cycle that the client follows to its end, or changes no table. */
  ghost predicate Heeds(d: DaemonState, step: Step, client: nat, subject: Subject) {
    match step
    case Cycling(io) => Succeeds(d) && Follows(d, io, client, subject)
    case Configuring(setup) => setup.AddingPattern? ==> Unharmed(d.net, setup.pattern, subject)
    case _ => true
  }

  /** The client asks for the table in a first cycle, attends before every later step and follows every cycle; in the
      last one its stream may also end because the device is removed. Patterns added on the way do not harm the
      subject. */
  ghost predicate Watches(d: DaemonState, steps: seq<Step>, client: nat, subject: Subject) {
    && 0 < |steps| && steps[0].Cycling?
    && Asked(ServerModel.Cycle(d.srv, steps[0].io.server).queue, client, subject)
    && (forall k :: 0 <= k < |steps| ==> Heeds(Before(d, steps, k), steps[k], client, subject))
    && (forall k :: 0 < k < |steps| ==> Attends(Before(d, steps, k), client, subject))
  }

  lemma PatternTable(s: NetState, pattern: string, now: real, subject: Subject)
    requires Inv(s, now)
    ensures Table(AddPattern(s, pattern), subject) ==
            match subject
            case MacsOf(device) => if Bans(s, pattern, device) then {} else Table(s, subject)
            case Names => set n | n in Table(s, Names) && !Bans(s, pattern, n)
  {
    hide RemoveAll;
    var listed := s.(patterns := s.patterns + [pattern]);
    var banned := Banned(listed, s.devices);
    var t := AddPattern(s, pattern);
    BannedSpec(listed, s.devices);
    match subject
    case MacsOf(device) =>
      RemoveAllMacs(listed, banned);
      FindSpec(s.devices, device);
      assert device in banned <==> Bans(s, pattern, device);
      forall e | e in s.macs ensures Known(s.devices, e.device) {
        var k :| 0 <= k < |s.macs| && s.macs[k] == e;
        assert EntryOk(s.devices, s.macs[k], now);
      }
    case Names =>
      NetworkRuns.AddPatternKeeps(s, pattern, now);
      RemoveAllSettings(listed, banned);
      forall n ensures n in Table(t, Names) <==> n in Table(s, Names) && !Bans(s, pattern, n) {
        FindSpec(s.devices, n);
        FindSpec(t.devices, n);
        assert Allowed(t, n) == Allowed(listed, n);
      }
  }

  /** A pattern added between two cycles keeps client and table in agreement exactly when it does not harm the subject:
      the list of the client stays as it is, because nothing tells of what the pattern removes. */
  lemma PatternMirrors(d: DaemonState, pattern: string, now: real, client: nat, subject: Subject)
    requires Inv(d.net, now) && Synchronized(d, client, subject)
    ensures Synchronized(Perform(d, Configuring(NetworkRuns.AddingPattern(pattern))), client, subject) <==>
            Unharmed(d.net, pattern, subject)
  {
    hide AddPattern, Bans, Mirror;
    PatternTable(d.net, pattern, now, subject);
    if subject.Names? && Unharmed(d.net, pattern, subject) {
      assert (set n | n in Table(d.net, Names) && !Bans(d.net, pattern, n)) == Table(d.net, Names);
    }
  }

  /** A client holds the one address heard on "eth0". The pattern that bans "eth0" empties the table, and the client
      does not notice. */
  lemma PatternUnnoticed(d: DaemonState, now: real, client: nat, mac: string)
    requires Inv(d.net, now) && d.net.mode == Blacklist && d.net.patterns == [] && d.net.matches("eth0", "eth0")
    requires Known(d.net.devices, "eth0") && Held(d, client, MacsOf("eth0")) == Some({mac})
    ensures var t := Perform(d, Configuring(NetworkRuns.AddingPattern("eth0")));
            Table(t.net, MacsOf("eth0")) == {} && Held(t, client, MacsOf("eth0")) == Some({mac})
  {
    hide AddPattern, Mirror;
    PatternTable(d.net, "eth0", now, MacsOf("eth0"));
    assert "eth0" in [] + ["eth0"];
  }

  /** Any other step between cycles keeps the agreement. */
  lemma SetupMirrors(d: DaemonState, step: Step, now: real, client: nat, subject: Subject)
    requires !step.Cycling? && Inv(d.net, now) && Heeds(d, step, client, subject) && Synchronized(d, client, subject)
    ensures Synchronized(Perform(d, step), client, subject)
  {
    if step.Configuring? && step.setup.AddingPattern? {
      PatternMirrors(d, step.setup.pattern, now, client, subject);
    } else {
      var t := Perform(d, step);
      assert t.net.macs == d.net.macs && t.net.devices == d.net.devices;
    }
  }

  /** Client mirror: after every cycle since its table was sent, for as long as it attends, what the client holds is
      exactly the monitor's table, whatever else is served, configured or stopped in between. */
  lemma {:induction false} RunMirrors(d: DaemonState, steps: seq<Step>, now: real, client: nat, subject: Subject)
    requires DaemonOk(d) && Inv(d.net, now) && ClockOk(now, steps) && Watches(d, steps, client, subject)
    ensures Synchronized(Run(d, steps), client, subject)
    decreases |steps|
  {
    hide Follows, Synchronized, Perform, Inv, OsOk, Asked, DaemonOk, Attends, Heeds;
    var front, last := steps[..|steps| - 1], steps[|steps| - 1];
    var t := Run(d, front);
    RunKeeps(d, front, now);
    assert Before(d, steps, |front|) == t;
    if front == [] {
      assert t == d && steps[0] == last;
      CycleHeeded(t, last, ClockAfter(now, front), client, subject);
    } else {
      WatchesFront(d, steps, client, subject);
      RunMirrors(d, front, now, client, subject);
      if last.Cycling? {
        KnownConnection(t, client, subject);
        CycleHeeded(t, last, ClockAfter(now, front), client, subject);
      } else {
        SetupMirrors(t, last, ClockAfter(now, front), client, subject);
      }
    }
  }

  lemma CycleHeeded(d: DaemonState, step: Step, now: real, client: nat, subject: Subject)
    requires step.Cycling? && DaemonOk(d) && Inv(d.net, now) && OsOk(step.io.os, now) && Heeds(d, step, client, subject)
    requires Asked(ServerModel.Cycle(d.srv, step.io.server).queue, client, subject) ||
             (client < d.srv.nextClient && Synchronized(d, client, subject))
    ensures Synchronized(Perform(d, step), client, subject)
  {
    hide Follows, Synchronized, Asked, Inv, OsOk, DaemonOk, DaemonModel.Cycle, ServerModel.Cycle;
    CycleMirrors(d, step.io, now, client, subject);
  }

  lemma WatchesFront(d: DaemonState, steps: seq<Step>, client: nat, subject: Subject)
    requires Watches(d, steps, client, subject) && 1 < |steps|
    ensures Watches(d, steps[..|steps| - 1], client, subject)
    ensures Attends(Run(d, steps[..|steps| - 1]), client, subject)
  {
    hide Perform, ServerModel.Cycle, Heeds, Asked, Attends;
    var front := steps[..|steps| - 1];
    forall k | 0 <= k <= |front| ensures Before(d, front, k) == Before(d, steps, k) {
      assert front[..k] == steps[..k];
    }
    assert front[..|front|] == front;
    assert Attends(Before(d, steps, |front|), client, subject);
  }

  lemma KnownConnection(d: DaemonState, client: nat, subject: Subject)
    requires DaemonOk(d) && Attends(d, client, subject)
    ensures client < d.srv.nextClient && Connected(d.srv.served, client)
  {
    if subject.MacsOf? {
      assert Connected(d.srv.served, Stream(client, subject.device).client);
    }
  }
}
