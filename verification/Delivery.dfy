/** From the monitor to the far end of the wire: what a client folds from the messages that it has received. */
module Deliveries {
  import opened Basics
  import opened Trees
  import opened Codec
  import opened NetworkLaws
  import opened ServerModel
  import opened DaemonModel
  import opened Subscriptions
  import opened DaemonRuns
  import opened Mirrors
  import opened Subscribers
  import opened PacketEntities

  const NEW_WIRE := Wire("", [], [])

  /** What was sent, in order. */
  function Sends(acts: seq<Act>): seq<Tree> {
    if acts == [] then []
    else
      var last := acts[|acts| - 1];
      Sends(acts[..|acts| - 1]) + (if last.Sending? then [last.tree] else [])
  }

  lemma {:induction false} SentIsSends(acts: seq<Act>)
    ensures Converse(NEW_WIRE, acts).sent == Sends(acts)
  {
    hide Encode, Decode;
    if acts != [] {
      SentIsSends(acts[..|acts| - 1]);
    }
  }

  /** Every message that the daemon handed to the connection is sent, some of them may have been received. */
  ghost predicate Conveys(acts: seq<Act>, d: DaemonState, client: nat) {
    && Sends(acts) == OutboxOf(d.srv.outbox, client)
    && forall i :: 0 <= i < |acts| && acts[i].Sending? ==> Size(acts[i].tree) < LIMIT
  }

  /** At any time the client holds what the daemon told it up to some message. */
  lemma PartlyDelivered(d: DaemonState, client: nat, subject: Subject, acts: seq<Act>)
    requires Conveys(acts, d, client)
    ensures var received, outbox := Converse(NEW_WIRE, acts).received, OutboxOf(d.srv.outbox, client);
            |received| <= |outbox| && Mirror(received, subject) == Mirror(outbox[..|received|], subject)
  {
    hide Mirror, Converse, Size, Encode;
    Fifo(acts);
    SentIsSends(acts);
    var w := Converse(NEW_WIRE, acts);
    assert w.received == w.sent[..|w.received|];
  }

  /** Whatever was received before: once everything under way is received, the client holds exactly the table. */
  lemma FullyDelivered(d: DaemonState, client: nat, subject: Subject, acts: seq<Act>)
    requires Conveys(acts, d, client) && Synchronized(d, client, subject)
    ensures Mirror(Drained(Converse(NEW_WIRE, acts)).received, subject) == Some(Table(d.net, subject))
  {
    hide Mirror, Converse, Table, Size;
    Fifo(acts);
    SentIsSends(acts);
    Delivers(Converse(NEW_WIRE, acts));
  }

  /** From end to end: what a calm subscriber folds from the messages it has received over the stream, once it has
      received them all, is exactly the monitor's table. */
  lemma EndToEnd(d: DaemonState, steps: seq<Step>, now: real, client: nat, subject: Subject, acts: seq<Act>)
    requires DaemonOk(d) && Inv(d.net, now) && ClockOk(now, steps) && 0 < |steps|
    requires Succeeds(d) && Attends(d, client, subject) && AsksIn(steps[0], client, subject)
    requires AllCalm(d, steps, client, subject) && Conveys(acts, Run(d, steps), client)
    ensures Mirror(Drained(Converse(NEW_WIRE, acts)).received, subject) == Some(Table(Run(d, steps).net, subject))
  {
    hide *;
    SubscriberMirrors(d, steps, now, client, subject);
    FullyDelivered(Run(d, steps), client, subject, acts);
  }
}
