/** When a client knows the evidence of an address: what it folds from an answer and the changes it is told. Changes are
    told to the subscribers of one device only, so a client with too few streams misses some. */
module EvidenceMirrors {
  import opened Basics
  import opened Trees
  import opened Ordering
  import opened NetworkModel
  import opened EventLog
  import opened NetworkLaws
  import NetworkRuns
  import opened ServerModel
  import opened DaemonModel
  import opened Subscriptions
  import opened DaemonRuns
  import opened Transcripts
  import opened Answers

  // The client's side

  /** One field of the evidence of one address. */
  datatype Topic = Topic(mac: string, field: string)

  /** The client's value (None before the first answer) after one more message. */
  function Learn(belief: Option<string>, topic: Topic, m: Tree): Option<string> {
    if m.key == "response" && m.content == "mac-evidence" then
      match Sub(m, "mac-evidence")
      case None => belief
      case Some(answer) =>
        if SubText(answer, "mac-address") != Some(topic.mac) then belief
        else match SubText(answer, topic.field) case None => Some("") case Some(value) => Some(value)
    else if m.key == "info" && m.content == "mac-evidence-changed" && SubText(m, "mac-address") == Some(topic.mac) &&
            SubText(m, "field") == Some(topic.field) && belief.Some? && SubText(m, "value").Some?
    then SubText(m, "value")
    else belief
  }

  function Belief(messages: seq<Tree>, topic: Topic): Option<string> {
    if messages == [] then None
    else Learn(Belief(messages[..|messages| - 1], topic), topic, messages[|messages| - 1])
  }

  function Believed(d: DaemonState, client: nat, topic: Topic): Option<string> {
    Belief(OutboxOf(d.srv.outbox, client), topic)
  }

  function Truth(net: NetState, topic: Topic): string {
    EvidenceOf(net.evidence, topic.mac, topic.field)
  }

  lemma BeliefAppend(messages: seq<Tree>, m: Tree, topic: Topic)
    ensures Belief(messages + [m], topic) == Learn(Belief(messages, topic), topic, m)
    ensures Belief(messages + [], topic) == Belief(messages, topic)
  {
    assert (messages + [m])[..|messages|] == messages;
    assert messages + [] == messages;
  }

  // Requests

  predicate AsksEvidence(q: QueuedValue, client: nat, topic: Topic) {
    q.client == client && q.value.content == "mac-evidence" && SubText(q.value, "mac-address") == Some(topic.mac)
  }

  /** Only an answer about the address changes what the client believes, and it makes it true. */
  lemma AnswerLearned(d: DaemonState, q: QueuedValue, io: DaemonIo, belief: Option<string>, topic: Topic)
    requires topic.field != "mac-address"
    ensures Learn(belief, topic, Response(q.value, AnswerTo(d, q, io))) ==
            if AsksEvidence(q, q.client, topic) then Some(Truth(d.net, topic)) else belief
  {
    hide SortedKeys, EvidenceEntries, DeviceEntries, MacEntries, EnableStream, DisableStream;
    var m := Response(q.value, AnswerTo(d, q, io));
    if q.value.content == "mac-evidence" {
      match SubText(q.value, "mac-address") {
        case None =>
          var none: seq<Tree> := [];
          assert m.subs[1..] == none && SubIn(none, "mac-evidence") == None;
          assert m.subs[0] == EMPTY && EMPTY.key != "mac-evidence";
        case Some(mac) =>
          SubAt(m.subs, 0, "mac-evidence");
          EvidenceAnswered(d, q, io, mac, "mac-address");
          EvidenceAnswered(d, q, io, mac, topic.field);
      }
    }
  }

  lemma HandleBelief(d: DaemonState, q: QueuedValue, io: DaemonIo, client: nat, topic: Topic)
    requires topic.field != "mac-address"
    ensures Believed(Handle(d, q, io), client, topic) ==
            if AsksEvidence(q, client, topic) then Some(Truth(d.net, topic)) else Believed(d, client, topic)
  {
    hide Learn, Handle, Answer, Response, Truth;
    HandleOutbox(d, q, io, client);
    AnswerLearned(d, q, io, Believed(d, client, topic), topic);
    BeliefAppend(OutboxOf(d.srv.outbox, client), Response(q.value, AnswerTo(d, q, io)), topic);
    assert AnswerTo(d, q, io) == Answer(d, q, io).1;
  }

  lemma HandleTruth(d: DaemonState, q: QueuedValue, io: DaemonIo, topic: Topic)
    ensures Truth(Handle(d, q, io).net, topic) == Truth(d.net, topic)
  {
    hide SortedKeys, EvidenceEntries, DeviceEntries, MacEntries, EnableStream, DisableStream;
  }

  predicate Inquired(queue: seq<QueuedValue>, client: nat, topic: Topic) {
    queue != [] &&
    (Inquired(queue[..|queue| - 1], client, topic) || AsksEvidence(queue[|queue| - 1], client, topic))
  }

  lemma {:induction false} HandleAllBelief(d: DaemonState, queue: seq<QueuedValue>, io: DaemonIo, client: nat,
                                           topic: Topic)
    requires topic.field != "mac-address"
    ensures Believed(HandleAll(d, queue, io), client, topic) ==
            if Inquired(queue, client, topic) then Some(Truth(d.net, topic)) else Believed(d, client, topic)
    ensures Truth(HandleAll(d, queue, io).net, topic) == Truth(d.net, topic)
  {
    hide Believed, Truth, Handle, AsksEvidence;
    if queue != [] {
      var front, last := queue[..|queue| - 1], queue[|queue| - 1];
      HandleAllBelief(d, front, io, client, topic);
      HandleBelief(HandleAll(d, front, io), last, io, client, topic);
      HandleTruth(HandleAll(d, front, io), last, io, topic);
    }
  }

  // Events

  predicate Concerns(e: Event, topic: Topic) {
    e.MacEvidenceChanged? && e.mac == topic.mac && e.field == topic.field
  }

  /** The value after an event. */
  function Changed(value: string, topic: Topic, e: Event): string {
    if Concerns(e, topic) then e.value else value
  }

  function ChangedAll(value: string, topic: Topic, events: seq<Event>): string {
    if events == [] then value
    else Changed(ChangedAll(value, topic, events[..|events| - 1]), topic, events[|events| - 1])
  }

  lemma {:induction false} ChangedIsReplay(value: string, topic: Topic, events: seq<Event>)
    ensures Replay(Text(value), OfEvidence(topic.mac, topic.field), events) == Text(ChangedAll(value, topic, events))
  {
    if events != [] {
      ChangedIsReplay(value, topic, events[..|events| - 1]);
    }
  }

  lemma MessageLearned(net: NetState, e: Event, io: DaemonIo, topic: Topic, value: string)
    ensures Learn(Some(value), topic, Message(net, e, io)) == Some(Changed(value, topic, e))
    ensures Learn(Some(value), topic, Disabled(e.device)) == Some(value)
  {
    if e.MacEvidenceChanged? {
      var m := Message(net, e, io);
      SubAt(m.subs, 0, "mac-address");
      SubAt(m.subs, 1, "field");
      SubAt(m.subs, 2, "value");
    }
  }

  lemma KeepAliveLearned(topic: Topic, value: string)
    ensures Learn(Some(value), topic, KEEPALIVE) == Some(value)
  {
  }

  lemma RouteBelief(d: DaemonState, e: Event, io: DaemonIo, client: nat, topic: Topic, value: string)
    requires DistinctClients(d.srv.served) && Connected(d.srv.served, client) && DistinctStreams(d.streams)
    requires Believed(d, client, topic) == Some(value)
    ensures Believed(Route(d, e, io), client, topic) ==
            Some(if Receives(d.streams, client, Scope(e)) then Changed(value, topic, e) else value)
  {
    hide Learn, Route, Message;
    var outbox, m := OutboxOf(d.srv.outbox, client), Message(d.net, e, io);
    RouteOutbox(d, e, io, client);
    MessageLearned(d.net, e, io, topic, value);
    BeliefAppend(outbox, m, topic);
    if e.DeviceRemoved? {
      BeliefAppend(outbox, Disabled(e.device), topic);
      BeliefAppend(outbox + [Disabled(e.device)], m, topic);
      assert outbox + [Disabled(e.device), m] == outbox + [Disabled(e.device)] + [m];
    }
  }

  /** One change: a client that knows the value before it knows the value after it exactly when it is told, that is,
      when all clients are told or it has a stream on the device of the change. */
  lemma ToldExactly(d: DaemonState, e: Event, io: DaemonIo, client: nat, topic: Topic, value: string)
    requires DistinctClients(d.srv.served) && Connected(d.srv.served, client) && DistinctStreams(d.streams)
    requires Believed(d, client, topic) == Some(value)
    requires Concerns(e, topic) && Justified(Text(value), OfEvidence(topic.mac, topic.field), e)
    ensures Believed(Route(d, e, io), client, topic) == Some(e.value) <==>
            e.device == "" || StreamEnabled(d.streams, client, e.device)
  {
    hide Route, Believed;
    RouteBelief(d, e, io, client, topic, value);
  }

  /** A client without streams believes the first of two IP addresses and goes on believing it. */
  lemma ChangeMissed(d: DaemonState, io: DaemonIo, client: nat, mac: string)
    requires DistinctClients(d.srv.served) && Connected(d.srv.served, client) && d.streams == []
    requires Believed(d, client, Topic(mac, "ip")) == Some("10.0.0.1")
    ensures var e := MacEvidenceChanged("eth0", mac, "ip", "10.0.0.2", "10.0.0.1");
            Believed(Route(d, e, io), client, Topic(mac, "ip")) == Some("10.0.0.1")
  {
    hide Route, Believed;
    var e := MacEvidenceChanged("eth0", mac, "ip", "10.0.0.2", "10.0.0.1");
    RouteBelief(d, e, io, client, Topic(mac, "ip"), "10.0.0.1");
  }

  /** The client is told of every change of the topic among the events. */
  ghost predicate HearsAll(streams: seq<Stream>, client: nat, topic: Topic, events: seq<Event>) {
    forall i :: 0 <= i < |events| && Concerns(events[i], topic) ==>
      events[i].device == "" || On(streams, events[..i], client, events[i].device)
  }

  lemma {:induction false} RouteAllBelief(d: DaemonState, events: seq<Event>, io: DaemonIo, client: nat, topic: Topic,
                                          value: string)
    requires DistinctClients(d.srv.served) && Connected(d.srv.served, client) && DistinctStreams(d.streams)
    requires Believed(d, client, topic) == Some(value) && HearsAll(d.streams, client, topic, events)
    ensures Believed(RouteAll(d, events, io), client, topic) == Some(ChangedAll(value, topic, events))
  {
    hide Believed, Route;
    if events != [] {
      var front, last := events[..|events| - 1], events[|events| - 1];
      forall i | 0 <= i < |front| && Concerns(front[i], topic)
        ensures front[i].device == "" || On(d.streams, front[..i], client, front[i].device)
      {
        assert front[i] == events[i] && front[..i] == events[..i];
      }
      RouteAllBelief(d, front, io, client, topic, value);
      RouteAllKeeps(d, front, io);
      RouteBelief(RouteAll(d, front, io), last, io, client, topic, ChangedAll(value, topic, front));
    }
  }

  // Cycles and runs

  ghost predicate Knows(d: DaemonState, client: nat, topic: Topic) {
    Believed(d, client, topic) == Some(Truth(d.net, topic))
  }

  lemma KeepAliveBelief(d: DaemonState, time: real, client: nat, topic: Topic)
    requires DistinctClients(d.srv.served) && Believed(d, client, topic).Some?
    ensures Believed(KeepAlive(d, time), client, topic) == Believed(d, client, topic)
  {
    if KeepAliveDue(d, time) {
      AnnounceOutbox(d.(lastKeepAlive := time), "", KEEPALIVE, client);
      hide Announce;
      KeepAliveLearned(topic, Believed(d, client, topic).value);
      BeliefAppend(OutboxOf(d.srv.outbox, client), KEEPALIVE, topic);
    }
  }

  /** Replaying the events of a cycle over the old value, or again over the new one, gives the new value. */
  lemma TruthCycle(s: NetState, os: Os, now: real, topic: Topic)
    requires Inv(s, now) && OsOk(os, now)
    ensures var t := NetworkModel.Cycle(s, os);
            && ChangedAll(Truth(s, topic), topic, t.events) == Truth(t, topic)
            && ChangedAll(Truth(t, topic), topic, t.events) == Truth(t, topic)
  {
    hide NetworkModel.Cycle, Inv, OsOk;
    var t := NetworkModel.Cycle(s, os);
    NetworkRuns.CycleLog(s, os, now, OfEvidence(topic.mac, topic.field));
    ChangedIsReplay(Truth(s, topic), topic, t.events);
    ChangedIsReplay(Truth(t, topic), topic, t.events);
  }

  /** What a cycle needs of a client that is to know the topic after it: it stays connected and is told every change. */
  ghost predicate Listens(d: DaemonState, io: DaemonIo, client: nat, topic: Topic) {
    && Succeeds(d) && Connected(DaemonModel.Cycle(d, io).srv.served, client)
    && HearsAll(Served(d, io).streams, client, topic, NetworkModel.Cycle(d.net, io.os).events)
  }

  lemma CycleKnows(d: DaemonState, io: DaemonIo, now: real, client: nat, topic: Topic)
    requires DaemonOk(d) && Inv(d.net, now) && OsOk(io.os, now) && Listens(d, io, client, topic)
    requires topic.field != "mac-address"
    requires Inquired(ServerModel.Cycle(d.srv, io.server).queue, client, topic) ||
             (client < d.srv.nextClient && Knows(d, client, topic))
    ensures Knows(DaemonModel.Cycle(d, io), client, topic)
  {
    hide NetworkModel.Cycle, ServerModel.Cycle, HandleAll, RouteAll, ChangedAll, KeepAlive, Inquired, Truth, Belief;
    var p, s, r := Prepared(d, io), Served(d, io), Routed(d, io);
    var queue := ServerModel.Cycle(d.srv, io.server).queue;
    if !Inquired(queue, client, topic) { PreparedOutbox(d, io, client); }
    HandleAllBelief(p, queue, io, client, topic);
    ConnectedThroughout(d, io, client);
    ServedKeeps(d, io);
    RouteAllBelief(s, s.net.events, io, client, topic, Believed(s, client, topic).value);
    TruthCycle(d.net, io.os, now, topic);
    KeepAliveBelief(r, io.keepAliveTime, client, topic);
    MonitorAfter(d, io);
  }

  /** The client asks for the evidence in the first step, and in every cycle it stays connected and is told every
      change of the topic. */
  ghost predicate Inquires(d: DaemonState, steps: seq<Step>, client: nat, topic: Topic) {
    0 < |steps| &&
    var front, last := steps[..|steps| - 1], steps[|steps| - 1];
    var t := Run(d, front);
    && (last.Cycling? ==> Listens(t, last.io, client, topic))
    && (if front == [] then last.Cycling? && Inquired(ServerModel.Cycle(d.srv, last.io.server).queue, client, topic)
        else client < t.srv.nextClient && Inquires(d, front, client, topic))
  }

  /** Evidence mirror: such a client holds exactly the evidence after every step of the run. */
  lemma {:induction false} RunKnows(d: DaemonState, steps: seq<Step>, now: real, client: nat, topic: Topic)
    requires DaemonOk(d) && Inv(d.net, now) && ClockOk(now, steps) && Inquires(d, steps, client, topic)
    requires topic.field != "mac-address"
    ensures Knows(Run(d, steps), client, topic)
    decreases |steps|
  {
    hide DaemonOk, Inv, OsOk, Perform, Listens, Knows, ServerModel.Cycle, Inquired;
    var front, last := steps[..|steps| - 1], steps[|steps| - 1];
    var t := Run(d, front);
    RunKeeps(d, front, now);
    if front != [] { RunKnows(d, front, now, client, topic); }
    StepKnows(t, last, ClockAfter(now, front), client, topic);
  }

  lemma StepKnows(d: DaemonState, step: Step, now: real, client: nat, topic: Topic)
    requires DaemonOk(d) && Inv(d.net, now) && (step.Cycling? ==> OsOk(step.io.os, now))
    requires step.Cycling? ==> Listens(d, step.io, client, topic)
    requires topic.field != "mac-address"
    requires (step.Cycling? && Inquired(ServerModel.Cycle(d.srv, step.io.server).queue, client, topic)) ||
             (client < d.srv.nextClient && Knows(d, client, topic))
    ensures Knows(Perform(d, step), client, topic)
  {
    hide DaemonOk, Inv, OsOk, Listens, Knows, ServerModel.Cycle, DaemonModel.Cycle, Inquired;
    hide NetworkRuns.Perform, Serve;
    match step
    case Cycling(io) => CycleKnows(d, io, now, client, topic);
    case Configuring(setup) => SetupKnows(d, setup, now, client, topic);
    case _ => OtherKnows(d, step, client, topic);
  }

  lemma SetupKnows(d: DaemonState, setup: Setup, now: real, client: nat, topic: Topic)
    requires Inv(d.net, now) && Knows(d, client, topic)
    ensures Knows(Perform(d, Configuring(setup)), client, topic)
  {
    hide Belief, AddPattern, Inv;
    if setup.AddingPattern? { NetworkRuns.AddPatternKeeps(d.net, setup.pattern, now); }
  }

  lemma OtherKnows(d: DaemonState, step: Step, client: nat, topic: Topic)
    requires !step.Cycling? && !step.Configuring? && Knows(d, client, topic)
    ensures Knows(Perform(d, step), client, topic)
  {
    hide Belief, FreeId;
  }
}
