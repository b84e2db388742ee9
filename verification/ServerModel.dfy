/** The server as a value: which devices it serves, who is connected, what was received and sent.
    A connection (a shared pointer to a Served object) is its connection number; everything handed to
    PacketEntity::send on it is appended to its outbox. */
module ServerModel {
  import opened Trees

  datatype Status = Invalid | Started | Stopped

  datatype Serving = Serving(status: Status, id: int, device: string, port: int)

  datatype QueuedValue = QueuedValue(value: Tree, client: nat, serving: int)

  type Outboxes = map<nat, seq<Tree>>

  datatype ServerState = ServerState(run: bool, name: string, servings: seq<Serving>, served: seq<(nat, int)>,
                                     queue: seq<QueuedValue>, removed: seq<nat>, outbox: Outboxes, nextClient: nat)

  datatype Accept = WouldBlock | Failed | Accepted

  /** What receive gives for one connection: a value, nothing, or a broken connection. */
  datatype Incoming = Got(value: Tree) | Quiet | Lost

  /** What one server cycle gets from the operating system. */
  datatype ServerIo = ServerIo(listen: nat -> bool, accept: nat -> Accept, incoming: nat -> Incoming)

  function OutboxOf(outbox: Outboxes, client: nat): seq<Tree> {
    if client in outbox then outbox[client] else []
  }

  function Post(outbox: Outboxes, client: nat, message: Tree): Outboxes {
    outbox[client := OutboxOf(outbox, client) + [message]]
  }

  // Servings

  predicate IdUsed(servings: seq<Serving>, id: int) {
    exists i :: 0 <= i < |servings| && servings[i].id == id
  }

  predicate IsServed(servings: seq<Serving>, device: string, port: int) {
    exists i :: 0 <= i < |servings| && servings[i].device == device && servings[i].port == port
  }

  const NO_SERVING := Serving(Invalid, -1, "", 0)

  function ServingById(servings: seq<Serving>, id: int): Serving {
    if servings == [] then NO_SERVING
    else if servings[0].id == id then servings[0]
    else ServingById(servings[1..], id)
  }

  // One cycle

  function Hello(name: string): Tree {
    Tree("info", "hello", [Tree("detail", "server-info", [Leaf("server-name", name)])])
  }

  function StatusAfter(status: Status, listens: bool, accept: Accept): Status {
    var listening := if status == Stopped then (if listens then Started else Invalid) else status;
    if accept == Failed then Invalid else listening
  }

  function ServeAt(s: ServerState, i: nat, io: ServerIo): (s': ServerState)
    requires i < |s.servings|
    ensures |s'.servings| == |s.servings|
  {
    var serving := s.servings[i];
    var status := StatusAfter(serving.status, io.listen(i), io.accept(i));
    var looked := s.(servings := s.servings[i := serving.(status := status)]);
    if io.accept(i) == Accepted then
      looked.(served := s.served + [(s.nextClient, serving.id)], nextClient := s.nextClient + 1,
              outbox := Post(s.outbox, s.nextClient, Hello(s.name)))
    else looked
  }

  /** The state after the first k servings were looked at. */
  function ServeFirst(s: ServerState, k: nat, io: ServerIo): (s': ServerState)
    requires k <= |s.servings|
    ensures |s'.servings| == |s.servings|
  {
    if k == 0 then s else ServeAt(ServeFirst(s, k - 1, io), k - 1, io)
  }

  predicate Dead(serving: Serving) {
    serving.status == Invalid || serving.status == Stopped
  }

  function Alive(servings: seq<Serving>): seq<Serving> {
    if servings == [] then []
    else if Dead(servings[0]) then Alive(servings[1..])
    else [servings[0]] + Alive(servings[1..])
  }

  /** What is queued when the connections are read in order. */
  function Received(served: seq<(nat, int)>, io: ServerIo): seq<QueuedValue> {
    if served == [] then []
    else
      var rest := Received(served[..|served| - 1], io);
      var last := served[|served| - 1];
      match io.incoming(last.0)
      case Got(value) => rest + [QueuedValue(value, last.0, last.1)]
      case _ => rest
  }

  function Broken(served: seq<(nat, int)>, io: ServerIo): seq<nat> {
    if served == [] then []
    else
      var rest := Broken(served[..|served| - 1], io);
      var last := served[|served| - 1];
      if io.incoming(last.0).Lost? then rest + [last.0] else rest
  }

  predicate Connected(served: seq<(nat, int)>, client: nat) {
    exists i :: 0 <= i < |served| && served[i].0 == client
  }

  function WithoutFirst(served: seq<(nat, int)>, client: nat): seq<(nat, int)> {
    if served == [] then []
    else if served[0].0 == client then served[1..]
    else [served[0]] + WithoutFirst(served[1..], client)
  }

  function Disconnect(s: ServerState, client: nat): ServerState {
    if Connected(s.served, client) then
      s.(removed := s.removed + [client], served := WithoutFirst(s.served, client))
    else s
  }

  function DisconnectAll(s: ServerState, clients: seq<nat>): ServerState {
    if clients == [] then s
    else Disconnect(DisconnectAll(s, clients[..|clients| - 1]), clients[|clients| - 1])
  }

  /** Listen on every serving, accept at most one connection each, then forget the servings that failed. */
  function Listen(s: ServerState, io: ServerIo): ServerState {
    var looked := ServeFirst(s, |s.servings|, io);
    looked.(servings := Alive(looked.servings))
  }

  /** Read once from every connection; queue what came and forget the broken ones. */
  function ReadAll(s: ServerState, io: ServerIo): ServerState {
    DisconnectAll(s.(queue := s.queue + Received(s.served, io)), Broken(s.served, io))
  }

  function Cycle(s: ServerState, io: ServerIo): ServerState {
    if s.run then ReadAll(Listen(s, io), io) else s
  }

  // Serving numbers

  /** The smallest natural number that no serving carries. */
  ghost predicate IsFreeId(servings: seq<Serving>, id: int) {
    0 <= id && !IdUsed(servings, id) && forall j :: 0 <= j < id ==> IdUsed(servings, j)
  }

  function Ids(servings: seq<Serving>): (ids: set<int>)
    ensures forall i :: 0 <= i < |servings| ==> servings[i].id in ids
    ensures |ids| <= |servings|
  {
    if servings == [] then {} else Ids(servings[..|servings| - 1]) + {servings[|servings| - 1].id}
  }

  function UpTo(n: nat): (r: set<int>)
    ensures forall j :: j in r <==> 0 <= j < n
    ensures |r| == n
  {
    if n == 0 then {} else UpTo(n - 1) + {n - 1}
  }

  lemma {:induction false} SubsetSize<T>(x: set<T>, y: set<T>)
    requires x <= y
    ensures |x| <= |y|
  {
    if x != {} {
      var e :| e in x;
      SubsetSize(x - {e}, y - {e});
    }
  }

  /** Pigeonhole: n servings carry at most n of the numbers from 0. */
  lemma UsedIdsBound(servings: seq<Serving>, n: nat)
    requires forall j :: 0 <= j < n ==> IdUsed(servings, j)
    ensures n <= |servings|
  {
    forall j | j in UpTo(n) ensures j in Ids(servings) {
      assert IdUsed(servings, j);
    }
    SubsetSize(UpTo(n), Ids(servings));
  }

  /** The first unused number from n on, among as many numbers as there are servings and one more. */
  function FreeIdFrom(servings: seq<Serving>, n: nat): nat
    requires n <= |servings|
    decreases |servings| - n
  {
    if n == |servings| || !IdUsed(servings, n) then n else FreeIdFrom(servings, n + 1)
  }

  function FreeId(servings: seq<Serving>): nat {
    FreeIdFrom(servings, 0)
  }

  lemma {:induction false} FreeIdFromSpec(servings: seq<Serving>, n: nat)
    requires n <= |servings| && forall j :: 0 <= j < n ==> IdUsed(servings, j)
    ensures IsFreeId(servings, FreeIdFrom(servings, n)) && FreeIdFrom(servings, n) <= |servings|
    decreases |servings| - n
  {
    if IdUsed(servings, n) {
      UsedIdsBound(servings, n + 1);
      FreeIdFromSpec(servings, n + 1);
    }
  }

  /** Exactly one number is free and smallest. */
  lemma FreeIdUnique(servings: seq<Serving>, id: int)
    ensures IsFreeId(servings, id) <==> id == FreeId(servings)
    ensures FreeId(servings) <= |servings|
  {
    FreeIdFromSpec(servings, 0);
    if IsFreeId(servings, id) {
      assert !IdUsed(servings, id) && !IdUsed(servings, FreeId(servings));
    }
  }

  /** A device is served on a port under a free number unless the pair is served already, or no socket can be made or
      bound. */
  function Serve(s: ServerState, device: string, port: int, socketMade: bool, bound: bool): ServerState {
    if !IsServed(s.servings, device, port) && socketMade && bound then
      s.(servings := s.servings + [Serving(Stopped, FreeId(s.servings), device, port)])
    else s
  }

  /** Serving keeps numbers and pairs distinct; numbers stay as small as the number of servings allows. */
  lemma ServeKeeps(s: ServerState, device: string, port: int, socketMade: bool, bound: bool)
    requires ServerOk(s)
    ensures ServerOk(Serve(s, device, port, socketMade, bound))
    ensures FreeId(s.servings) <= |s.servings|
  {
    var id := FreeId(s.servings);
    FreeIdUnique(s.servings, id);
    if !IsServed(s.servings, device, port) {
      forall i | 0 <= i < |s.servings|
        ensures s.servings[i].id != id && !(s.servings[i].device == device && s.servings[i].port == port)
      {
        assert IdUsed(s.servings, s.servings[i].id);
      }
    }
  }

  /** Looking a number up finds exactly the entry that carries it. */
  lemma {:induction false} ServingByIdSpec(servings: seq<Serving>, id: int)
    requires DistinctServings(servings)
    ensures forall i :: 0 <= i < |servings| && servings[i].id == id ==> ServingById(servings, id) == servings[i]
    ensures !IdUsed(servings, id) ==> ServingById(servings, id) == NO_SERVING
  {
    if servings != [] {
      ServingByIdSpec(servings[1..], id);
      forall i | 0 <= i < |servings| && servings[i].id == id ensures ServingById(servings, id) == servings[i] {
        if i > 0 { assert servings[1..][i - 1] == servings[i]; }
      }
      if !IdUsed(servings, id) {
        assert servings[0].id != id;
        assert !IdUsed(servings[1..], id) by {
          forall i | 0 <= i < |servings[1..]| ensures servings[1..][i].id != id { assert servings[i + 1].id != id; }
        }
      }
    }
  }

  /** Every serving is found under its number, and nothing under any other number. */
  ghost predicate LookupExact(servings: seq<Serving>) {
    && (forall i :: 0 <= i < |servings| ==> ServingById(servings, servings[i].id) == servings[i])
    && (forall id :: !IdUsed(servings, id) ==> ServingById(servings, id) == NO_SERVING)
  }

  lemma LookupIsExact(servings: seq<Serving>)
    requires DistinctServings(servings)
    ensures LookupExact(servings)
  {
    forall id
      ensures forall i :: 0 <= i < |servings| && servings[i].id == id ==> ServingById(servings, id) == servings[i]
      ensures !IdUsed(servings, id) ==> ServingById(servings, id) == NO_SERVING
    {
      ServingByIdSpec(servings, id);
    }
  }

  // Laws

  ghost predicate DistinctClients(served: seq<(nat, int)>) {
    forall i, j :: 0 <= i < j < |served| ==> served[i].0 != served[j].0
  }

  ghost predicate DistinctServings(servings: seq<Serving>) {
    forall i, j :: 0 <= i < j < |servings| ==>
      servings[i].id != servings[j].id &&
      !(servings[i].device == servings[j].device && servings[i].port == servings[j].port)
  }

  ghost predicate ServerOk(s: ServerState) {
    && DistinctClients(s.served)
    && (forall i :: 0 <= i < |s.served| ==> s.served[i].0 < s.nextClient)
    && DistinctServings(s.servings)
    && (forall i :: 0 <= i < |s.servings| ==> 0 <= s.servings[i].id)
  }

  lemma {:induction false} WithoutFirstSpec(served: seq<(nat, int)>, client: nat)
    requires DistinctClients(served)
    ensures DistinctClients(WithoutFirst(served, client))
    ensures forall p :: p in WithoutFirst(served, client) <==> p in served && p.0 != client
  {
    if served != [] {
      assert served == [served[0]] + served[1..];
      if served[0].0 != client {
        WithoutFirstSpec(served[1..], client);
        var rest := WithoutFirst(served[1..], client);
        forall i, j | 0 <= i < j < |[served[0]] + rest| ensures ([served[0]] + rest)[i].0 != ([served[0]] + rest)[j].0 {
          if i == 0 { assert rest[j - 1] in served[1..]; }
        }
      }
    }
  }

  lemma {:induction false} DisconnectAllSpec(s: ServerState, clients: seq<nat>)
    requires DistinctClients(s.served)
    ensures var t := DisconnectAll(s, clients);
            && t == s.(removed := t.removed, served := t.served)
            && DistinctClients(t.served)
            && (forall p :: p in t.served <==> p in s.served && p.0 !in clients)
            && (forall c :: c in t.removed <==> c in s.removed || (c in clients && Connected(s.served, c)))
  {
    if clients != [] {
      var front, last := clients[..|clients| - 1], clients[|clients| - 1];
      var t := DisconnectAll(s, front);
      DisconnectAllSpec(s, front);
      WithoutFirstSpec(t.served, last);
      assert clients == front + [last];
      ConnectedIn(t.served, last);
      ConnectedIn(s.served, last);
      if !Connected(t.served, last) {
        assert forall p :: p in t.served ==> p.0 != last;
      }
      if Connected(s.served, last) && !Connected(t.served, last) {
        var p :| p in s.served && p.0 == last;
        assert p !in t.served;
      }
    }
  }

  lemma ConnectedIn(served: seq<(nat, int)>, client: nat)
    ensures Connected(served, client) <==> exists p :: p in served && p.0 == client
  {
    if Connected(served, client) {
      var i :| 0 <= i < |served| && served[i].0 == client;
      assert served[i] in served;
    }
  }

  lemma {:induction false} ReceivedSpec(served: seq<(nat, int)>, io: ServerIo)
    ensures forall q :: q in Received(served, io) <==>
                        exists i :: 0 <= i < |served| && served[i] == (q.client, q.serving) &&
                            io.incoming(q.client) == Got(q.value)
    ensures forall c :: c in Broken(served, io) <==> Connected(served, c) && io.incoming(c).Lost?
  {
    if served != [] {
      var front, last := served[..|served| - 1], served[|served| - 1];
      ReceivedSpec(front, io);
      assert served == front + [last];
      forall c ensures Connected(served, c) <==> Connected(front, c) || last.0 == c { }
      forall q ensures q in Received(served, io) <==>
                       exists i :: 0 <= i < |served| && served[i] == (q.client, q.serving) &&
                           io.incoming(q.client) == Got(q.value)
      {
        if q in Received(front, io) {
          var i :| 0 <= i < |front| && front[i] == (q.client, q.serving) && io.incoming(q.client) == Got(q.value);
          assert served[i] == (q.client, q.serving);
        }
      }
    }
  }

  /** t follows s by looking at servings: connections are only added, and only new ones are greeted. */
  ghost predicate Welcomes(s: ServerState, t: ServerState) {
    && t == s.(servings := t.servings, served := t.served, nextClient := t.nextClient, outbox := t.outbox)
    && s.served <= t.served && s.nextClient <= t.nextClient
    && (forall i :: |s.served| <= i < |t.served| ==> s.nextClient <= t.served[i].0)
    && (forall c: nat :: c < s.nextClient ==> OutboxOf(t.outbox, c) == OutboxOf(s.outbox, c))
  }

  lemma ServeAtKeeps(s: ServerState, i: nat, io: ServerIo)
    requires ServerOk(s) && i < |s.servings|
    ensures ServerOk(ServeAt(s, i, io)) && Welcomes(s, ServeAt(s, i, io))
    ensures forall j :: 0 <= j < |s.servings| ==>
              ServeAt(s, i, io).servings[j] == s.servings[j].(status := ServeAt(s, i, io).servings[j].status)
  {
  }

  lemma WelcomesTransitive(s: ServerState, t: ServerState, u: ServerState)
    requires Welcomes(s, t) && Welcomes(t, u)
    ensures Welcomes(s, u)
  {
    assert s.served <= u.served;
    forall i | |s.served| <= i < |u.served| ensures s.nextClient <= u.served[i].0 {
      if i < |t.served| { assert u.served[i] == t.served[i]; }
    }
    forall c: nat | c < s.nextClient ensures OutboxOf(u.outbox, c) == OutboxOf(s.outbox, c) {
      assert OutboxOf(t.outbox, c) == OutboxOf(s.outbox, c);
    }
  }

  lemma {:induction false} ServeFirstKeeps(s: ServerState, k: nat, io: ServerIo)
    requires ServerOk(s) && k <= |s.servings|
    ensures ServerOk(ServeFirst(s, k, io)) && Welcomes(s, ServeFirst(s, k, io))
  {
    if k > 0 {
      var t := ServeFirst(s, k - 1, io);
      ServeFirstKeeps(s, k - 1, io);
      ServeAtKeeps(t, k - 1, io);
      WelcomesTransitive(s, t, ServeFirst(s, k, io));
    }
  }

  lemma ListenKeeps(s: ServerState, io: ServerIo)
    requires ServerOk(s)
    ensures ServerOk(Listen(s, io)) && Welcomes(s, Listen(s, io))
    ensures forall x :: x in Listen(s, io).servings ==> x.status == Started
  {
    var looked := ServeFirst(s, |s.servings|, io);
    ServeFirstKeeps(s, |s.servings|, io);
    AliveSpec(looked.servings);
    forall i | 0 <= i < |Listen(s, io).servings| ensures 0 <= Listen(s, io).servings[i].id {
      assert Listen(s, io).servings[i] in Listen(s, io).servings;
    }
  }

  lemma ReadAllKeeps(s: ServerState, io: ServerIo)
    requires ServerOk(s) && s.queue == [] && s.removed == []
    ensures var t := ReadAll(s, io);
            && ServerOk(t)
            && t == s.(queue := t.queue, removed := t.removed, served := t.served)
            && (forall q :: q in t.queue <==>
                (q.client, q.serving) in s.served && io.incoming(q.client) == Got(q.value))
            && (forall p :: p in t.served <==> p in s.served && p.0 !in t.removed)
            && (forall c :: c in t.removed <==> Connected(s.served, c) && io.incoming(c).Lost?)
  {
    var read := s.(queue := s.queue + Received(s.served, io));
    ReceivedSpec(s.served, io);
    DisconnectAllSpec(read, Broken(s.served, io));
    var t := ReadAll(s, io);
    forall i | 0 <= i < |t.served| ensures t.served[i].0 < t.nextClient {
      assert t.served[i] in s.served;
    }
    forall p ensures p in t.served <==> p in s.served && p.0 !in t.removed {
      ConnectedIn(s.served, p.0);
    }
  }

  lemma {:induction false} AliveSpec(servings: seq<Serving>)
    ensures forall x :: x in Alive(servings) <==> x in servings && !Dead(x)
    ensures DistinctServings(servings) ==> DistinctServings(Alive(servings))
  {
    if servings != [] {
      AliveSpec(servings[1..]);
      assert servings == [servings[0]] + servings[1..];
      if DistinctServings(servings) && !Dead(servings[0]) {
        var rest := Alive(servings[1..]);
        forall j | 0 <= j < |rest|
          ensures rest[j].id != servings[0].id &&
                  !(rest[j].device == servings[0].device && rest[j].port == servings[0].port)
        {
          assert rest[j] in servings[1..];
        }
      }
    }
  }

  /** A server cycle keeps the connection numbers, serving IDs and (device, port) pairs distinct; only a started
      serving stays; no connection is both queued and removed; every queued value comes from a connection that
      stays; a removed connection is not served any more; nothing is sent to a connection made earlier. */
  lemma CycleKeeps(s: ServerState, io: ServerIo)
    requires ServerOk(s) && s.queue == [] && s.removed == [] && s.run
    ensures var t := Cycle(s, io);
            && ServerOk(t) && t.run && t.name == s.name
            && (forall q :: q in t.queue ==> Connected(t.served, q.client) && q.client !in t.removed
                                             && io.incoming(q.client) == Got(q.value))
            && (forall c :: c in t.removed ==> !Connected(t.served, c))
            && (forall c :: Connected(s.served, c) ==> Connected(t.served, c) || c in t.removed)
            && (forall c: nat :: c < s.nextClient ==> OutboxOf(t.outbox, c) == OutboxOf(s.outbox, c))
            && (forall x :: x in t.servings ==> x.status == Started)
  {
    var kept, t := Listen(s, io), Cycle(s, io);
    ListenKeeps(s, io);
    ReadAllKeeps(kept, io);
    forall q | q in t.queue ensures Connected(t.served, q.client) && q.client !in t.removed {
      ConnectedIn(t.served, q.client);
      assert (q.client, q.serving) in t.served;
    }
    forall c | c in t.removed ensures !Connected(t.served, c) {
      ConnectedIn(t.served, c);
    }
    forall c | Connected(s.served, c) ensures Connected(t.served, c) || c in t.removed {
      ConnectedIn(t.served, c);
      var i :| 0 <= i < |s.served| && s.served[i].0 == c;
      assert kept.served[i] == s.served[i] && kept.served[i] in kept.served;
    }
  }
}
