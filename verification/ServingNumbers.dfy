/** Which serving a number names over whole runs: how long it keeps it, and when another one takes it over. */
module ServingNumbers {
  import opened Basics
  import opened Trees
  import opened ServerModel
  import opened DaemonModel
  import opened Subscriptions
  import opened DaemonRuns

  // What a number names

  /** The (device, port) pair of the serving that the number names. */
  function Holder(servings: seq<Serving>, id: int): Option<(string, int)> {
    if IdUsed(servings, id) then
      var x := ServingById(servings, id);
      Some((x.device, x.port))
    else None
  }

  /** The lookup finds the serving itself, by membership. */
  lemma LookupMember(servings: seq<Serving>, x: Serving)
    requires DistinctServings(servings) && x in servings
    ensures IdUsed(servings, x.id) && ServingById(servings, x.id) == x
  {
    var i :| 0 <= i < |servings| && servings[i] == x;
    ServingByIdSpec(servings, x.id);
  }

  lemma {:induction false} LookupAppend(servings: seq<Serving>, x: Serving, id: int)
    ensures ServingById(servings + [x], id) ==
            if IdUsed(servings, id) then ServingById(servings, id) else if x.id == id then x else NO_SERVING
    ensures IdUsed(servings + [x], id) <==> IdUsed(servings, id) || x.id == id
  {
    UsedAppend(servings, x, id);
    if servings == [] {
      assert ([] + [x])[1..] == [];
    } else {
      LookupAppend(servings[1..], x, id);
      assert (servings + [x])[1..] == servings[1..] + [x];
      UsedFirst(servings, id);
    }
  }

  lemma UsedAppend(servings: seq<Serving>, x: Serving, id: int)
    ensures IdUsed(servings + [x], id) <==> IdUsed(servings, id) || x.id == id
  {
    if IdUsed(servings, id) {
      var i :| 0 <= i < |servings| && servings[i].id == id;
      assert (servings + [x])[i].id == id;
    }
    assert (servings + [x])[|servings|] == x;
  }

  lemma UsedFirst(servings: seq<Serving>, id: int)
    requires servings != []
    ensures IdUsed(servings, id) <==> servings[0].id == id || IdUsed(servings[1..], id)
  {
    if IdUsed(servings, id) && servings[0].id != id {
      var i :| 0 <= i < |servings| && servings[i].id == id;
      assert servings[1..][i - 1].id == id;
    }
    if IdUsed(servings[1..], id) {
      var i :| 0 <= i < |servings[1..]| && servings[1..][i].id == id;
      assert servings[i + 1].id == id;
    }
  }

  // One step

  /** The step starts a serving under the number. */
  predicate Takes(s: ServerState, step: Step, id: int) {
    step.Offering? && !IsServed(s.servings, step.device, step.port) && step.socketMade && step.bound &&
    id == FreeId(s.servings)
  }

  /** Serving on a device changes what a number names exactly when the number is the free one that it takes. */
  lemma ServeLookup(s: ServerState, device: string, port: int, socketMade: bool, bound: bool, id: int)
    requires ServerOk(s)
    ensures var t := Serve(s, device, port, socketMade, bound);
            var taken := Takes(s, Offering(device, port, socketMade, bound), id);
            && (ServingById(t.servings, id) != ServingById(s.servings, id) <==> taken)
            && Holder(t.servings, id) == (if taken then Some((device, port)) else Holder(s.servings, id))
  {
    FreeIdUnique(s.servings, FreeId(s.servings));
    LookupAppend(s.servings, Serving(Stopped, FreeId(s.servings), device, port), id);
    ServingByIdSpec(s.servings, id);
  }

  /** Serving i of the server works in the cycle: it listens already or can now, and accepting does not fail. */
  predicate Works(s: ServerState, i: nat, io: ServerIo)
    requires i < |s.servings|
  {
    (s.servings[i].status == Started || (s.servings[i].status == Stopped && io.listen(i))) && io.accept(i) != Failed
  }

  lemma {:induction false} ServeFirstEach(s: ServerState, k: nat, io: ServerIo)
    requires k <= |s.servings|
    ensures forall i :: 0 <= i < |s.servings| ==>
              ServeFirst(s, k, io).servings[i] ==
              if i < k then s.servings[i].(status := StatusAfter(s.servings[i].status, io.listen(i), io.accept(i)))
              else s.servings[i]
  {
    hide StatusAfter;
    if k > 0 {
      ServeFirstEach(s, k - 1, io);
    }
  }

  /** The servings after a cycle are those that work, started. */
  lemma CycleServings(s: ServerState, io: ServerIo)
    requires ServerOk(s) && s.run && s.queue == [] && s.removed == []
    ensures var looked, after := ServeFirst(s, |s.servings|, io).servings, ServerModel.Cycle(s, io).servings;
            && DistinctServings(looked) && DistinctServings(after)
            && forall x :: x in after <==> x in looked && !Dead(x)
  {
    ServeFirstKeeps(s, |s.servings|, io);
    AliveSpec(ServeFirst(s, |s.servings|, io).servings);
    ListenKeeps(s, io);
    ReadAllKeeps(Listen(s, io), io);
  }

  /** After a cycle a number still names its serving exactly when the serving works; otherwise it names nothing. */
  lemma CycleLookup(s: ServerState, io: ServerIo, i: nat)
    requires ServerOk(s) && s.run && s.queue == [] && s.removed == [] && i < |s.servings|
    ensures var x := s.servings[i];
            && ServingById(ServerModel.Cycle(s, io).servings, x.id) ==
               (if Works(s, i, io) then x.(status := Started) else NO_SERVING)
            && (IdUsed(ServerModel.Cycle(s, io).servings, x.id) <==> Works(s, i, io))
  {
    var looked, after := ServeFirst(s, |s.servings|, io).servings, ServerModel.Cycle(s, io).servings;
    var x := looked[i];
    ServeFirstEach(s, |s.servings|, io);
    CycleServings(s, io);
    hide ServerModel.Cycle, ServeFirst, ServerOk;
    if Works(s, i, io) {
      assert x in looked && !Dead(x);
      LookupMember(after, x);
    } else {
      assert Dead(x);
      forall j | 0 <= j < |after| ensures after[j].id != x.id {
        assert after[j] in looked && after[j] != x;
      }
      ServingByIdSpec(after, x.id);
    }
  }

  // New connections

  /** How many connections the first k servings accept. */
  function Accepts(k: nat, io: ServerIo): nat {
    if k == 0 then 0 else Accepts(k - 1, io) + (if io.accept(k - 1) == Accepted then 1 else 0)
  }

  /** The connection that serving i accepts, if it does: the next free connection number, under the serving's number. */
  function NewConnection(s: ServerState, i: nat, io: ServerIo): (nat, int)
    requires i < |s.servings|
  {
    (s.nextClient + Accepts(i, io), s.servings[i].id)
  }

  lemma {:induction false} AcceptsGrow(i: nat, k: nat, io: ServerIo)
    requires i <= k
    ensures Accepts(i, io) <= Accepts(k, io)
    ensures i < k && io.accept(i) == Accepted ==> Accepts(i, io) < Accepts(k, io)
  {
    if i < k { AcceptsGrow(i, k - 1, io); }
  }

  lemma ServeAtAccepts(s: ServerState, i: nat, io: ServerIo)
    requires i < |s.servings|
    ensures var t := ServeAt(s, i, io);
            && t.name == s.name
            && (if io.accept(i) == Accepted then
                  && t.served == s.served + [(s.nextClient, s.servings[i].id)] && t.nextClient == s.nextClient + 1
                  && t.outbox == Post(s.outbox, s.nextClient, Greeting(s.name))
                else t.served == s.served && t.nextClient == s.nextClient && t.outbox == s.outbox)
  {
  }

  /** The connections after the first k servings. */
  lemma {:induction false} ServeFirstAccepts(s: ServerState, k: nat, io: ServerIo)
    requires k <= |s.servings|
    ensures var t := ServeFirst(s, k, io);
            && t.nextClient == s.nextClient + Accepts(k, io) && t.name == s.name
            && |t.served| == |s.served| + Accepts(k, io)
  {
    hide ServeAt;
    if k > 0 {
      ServeFirstAccepts(s, k - 1, io);
      ServeAtAccepts(ServeFirst(s, k - 1, io), k - 1, io);
    }
  }

  /** A connection accepted on serving i is among those of the first k servings, k > i. */
  lemma {:induction false} AcceptedAmong(s: ServerState, k: nat, io: ServerIo, i: nat)
    requires i < k <= |s.servings| && io.accept(i) == Accepted
    ensures NewConnection(s, i, io) in ServeFirst(s, k, io).served
  {
    hide ServeAt;
    var t := ServeFirst(s, k - 1, io);
    ServeAtAccepts(t, k - 1, io);
    if i == k - 1 {
      ServeFirstAccepts(s, k - 1, io);
      ServeFirstEach(s, k - 1, io);
      hide ServeFirst;
      assert t.servings[i].id == s.servings[i].id;
      assert (t.served + [NewConnection(s, i, io)])[|t.served|] == NewConnection(s, i, io);
    } else {
      AcceptedAmong(s, k - 1, io, i);
    }
  }

  /** The greetings after the first k servings. */
  lemma {:induction false} ServeFirstGreets(s: ServerState, k: nat, io: ServerIo, client: nat)
    requires k <= |s.servings|
    ensures OutboxOf(ServeFirst(s, k, io).outbox, client) ==
            OutboxOf(s.outbox, client) +
            (if s.nextClient <= client < s.nextClient + Accepts(k, io) then [Greeting(s.name)] else [])
  {
    hide ServeAt;
    if k > 0 {
      ServeFirstGreets(s, k - 1, io, client);
      ServeFirstAccepts(s, k - 1, io);
      ServeAtAccepts(ServeFirst(s, k - 1, io), k - 1, io);
    }
  }

  /** How a new connection is greeted. */
  function Greeting(name: string): Tree {
    Tree("info", "hello", [Tree("detail", "server-info", [Tree("server-name", name, [])])])
  }

  /** A connection accepted in a cycle is entered under the number of the serving that accepted it, and is greeted with
      the name of the server; unless it breaks at once it stays, and as long as that serving works its requests look up
      the device of that serving. */
  lemma AcceptedNumber(s: ServerState, io: ServerIo, i: nat)
    requires ServerOk(s) && s.run && s.queue == [] && s.removed == []
    requires i < |s.servings| && io.accept(i) == Accepted
    ensures var t, c := ServerModel.Cycle(s, io), NewConnection(s, i, io);
            && (!io.incoming(c.0).Lost? ==> c in t.served)
            && OutboxOf(t.outbox, c.0) == OutboxOf(s.outbox, c.0) + [Greeting(s.name)]
            && (Works(s, i, io) ==> ServingById(t.servings, c.1).device == s.servings[i].device)
  {
    hide StatusAfter, ServeFirst, Works;
    var kept := Listen(s, io);
    var c := NewConnection(s, i, io);
    ServeFirstAccepts(s, |s.servings|, io);
    AcceptsGrow(i, |s.servings|, io);
    AcceptedAmong(s, |s.servings|, io, i);
    ServeFirstGreets(s, |s.servings|, io, c.0);
    ListenKeeps(s, io);
    ReadAllKeeps(kept, io);
    CycleLookup(s, io, i);
    assert c in kept.served;
  }

  /** Values are queued, broken connections collected, and working servings kept in the order of the lists. */
  lemma {:induction false} OrderKept(x: seq<(nat, int)>, y: seq<(nat, int)>, io: ServerIo)
    ensures Received(x + y, io) == Received(x, io) + Received(y, io)
    ensures Broken(x + y, io) == Broken(x, io) + Broken(y, io)
  {
    if y == [] {
      assert x + y == x;
    } else {
      OrderKept(x, y[..|y| - 1], io);
      assert (x + y)[..|x + y| - 1] == x + y[..|y| - 1];
    }
  }

  lemma {:induction false} AliveInOrder(x: seq<Serving>, y: seq<Serving>)
    ensures Alive(x + y) == Alive(x) + Alive(y)
  {
    if x == [] {
      assert x + y == y;
    } else {
      AliveInOrder(x[1..], y);
      assert (x + y)[1..] == x[1..] + y;
    }
  }

  /** A number that no serving carries is not taken in a cycle. */
  lemma CycleUnused(s: ServerState, io: ServerIo, id: int)
    requires ServerOk(s) && s.run && s.queue == [] && s.removed == [] && !IdUsed(s.servings, id)
    ensures !IdUsed(ServerModel.Cycle(s, io).servings, id)
  {
    var looked, kept := ServeFirst(s, |s.servings|, io), Listen(s, io);
    ServeFirstEach(s, |s.servings|, io);
    AliveSpec(looked.servings);
    ListenKeeps(s, io);
    ReadAllKeeps(kept, io);
    forall j | 0 <= j < |kept.servings| ensures kept.servings[j].id != id {
      assert kept.servings[j] in looked.servings;
      var i :| 0 <= i < |looked.servings| && looked.servings[i] == kept.servings[j];
      assert s.servings[i].id == looked.servings[i].id;
    }
  }

  /** The step is a cycle in which the serving with the number does not work. */
  ghost predicate Fails(d: DaemonState, step: Step, id: int) {
    step.Cycling? && Succeeds(d) &&
    exists i :: 0 <= i < |d.srv.servings| && d.srv.servings[i].id == id && !Works(d.srv, i, step.io.server)
  }

  lemma CycleHolder(s: ServerState, io: ServerIo, id: int, fails: bool)
    requires ServerOk(s) && s.run && s.queue == [] && s.removed == []
    requires fails <==> exists i :: 0 <= i < |s.servings| && s.servings[i].id == id && !Works(s, i, io)
    ensures Holder(ServerModel.Cycle(s, io).servings, id) == if fails then None else Holder(s.servings, id)
  {
    hide ServerModel.Cycle, Works;
    if IdUsed(s.servings, id) {
      var i :| 0 <= i < |s.servings| && s.servings[i].id == id;
      CycleLookup(s, io, i);
      ServingByIdSpec(s.servings, id);
      assert fails <==> !Works(s, i, io);
    } else {
      CycleUnused(s, io, id);
    }
  }

  /** What a number names after any step of the daemon. */
  lemma StepHolder(d: DaemonState, step: Step, id: int)
    requires DaemonOk(d)
    ensures Holder(Perform(d, step).srv.servings, id) ==
            if Takes(d.srv, step, id) then Some((step.device, step.port))
            else if Fails(d, step, id) then None
            else Holder(d.srv.servings, id)
  {
    hide NetworkModel.Cycle, ServerModel.Cycle, Works, Holder, ServerOk;
    match step
    case Offering(device, port, socketMade, bound) => ServeLookup(d.srv, device, port, socketMade, bound, id);
    case Cycling(io) =>
      if Succeeds(d) {
        ServerAfter(d, io);
        hide DaemonModel.Cycle;
        CycleHolder(d.srv, io.server, id, Fails(d, step, id));
      }
    case _ =>
  }

  // Runs

  /** The number names the pair after every step of the run. */
  predicate AlwaysNames(d: DaemonState, steps: seq<Step>, id: int, pair: (string, int)) {
    Holder(Run(d, steps).srv.servings, id) == Some(pair) &&
    (steps == [] || AlwaysNames(d, steps[..|steps| - 1], id, pair))
  }

  /** The serving with the number works in every cycle of the run. */
  ghost predicate NeverFails(d: DaemonState, steps: seq<Step>, id: int) {
    steps == [] ||
    (NeverFails(d, steps[..|steps| - 1], id) && !Fails(Run(d, steps[..|steps| - 1]), steps[|steps| - 1], id))
  }

  lemma HeldIsUsed(s: ServerState, step: Step, id: int)
    requires Holder(s.servings, id).Some?
    ensures !Takes(s, step, id)
  {
    FreeIdUnique(s.servings, FreeId(s.servings));
  }

  /** A number, and with it every connection made under it, keeps naming its (device, port) pair over a run exactly when
      its serving works in every cycle of the run. */
  lemma {:induction false} KeepsNaming(d: DaemonState, steps: seq<Step>, id: int, pair: (string, int))
    requires DaemonOk(d) && Holder(d.srv.servings, id) == Some(pair)
    ensures AlwaysNames(d, steps, id, pair) <==> NeverFails(d, steps, id)
  {
    hide DaemonOk, Perform, Holder, Fails, Takes;
    if steps != [] {
      var front, last := steps[..|steps| - 1], steps[|steps| - 1];
      var t := Run(d, front);
      KeepsNaming(d, front, id, pair);
      RunOk(d, front);
      StepHolder(t, last, id);
      if Holder(t.srv.servings, id) == Some(pair) { HeldIsUsed(t.srv, last, id); }
    }
  }

  // A first connection

  /** "lo" is served with number 0 and client 0 is the only connection. */
  predicate OneClient(s: ServerState) {
    && s.run && s.servings == [Serving(Started, 0, "lo", 7090)] && s.served == [(0, 0)]
    && s.queue == [] && s.removed == []
  }

  lemma FirstConnection(s: ServerState, io: ServerIo)
    requires s.run && s.servings == [Serving(Stopped, 0, "lo", 7090)] && s.served == [] && s.nextClient == 0
    requires s.queue == [] && s.removed == []
    requires io.listen(0) && io.accept(0) == Accepted && io.incoming(0) == Quiet
    ensures OneClient(ServerModel.Cycle(s, io))
  {
    var looked := ServeAt(s, 0, io);
    assert ServeFirst(s, 1, io) == looked by { assert ServeFirst(s, 0, io) == s; }
    assert looked.servings == [Serving(Started, 0, "lo", 7090)] && looked.served == [(0, 0)];
    assert Alive(looked.servings) == looked.servings by { assert Alive(looked.servings[1..]) == []; }
    ReadOne(Listen(s, io), io);
  }

  lemma ReadOne(s: ServerState, io: ServerIo)
    requires s.served == [(0, 0)] && s.queue == [] && s.removed == [] && !io.incoming(0).Lost?
    ensures ReadAll(s, io) ==
            s.(queue := if io.incoming(0).Got? then [QueuedValue(io.incoming(0).value, 0, 0)] else [])
  {
    var none: seq<(nat, int)> := [];
    assert s.served[..0] == none;
    assert Received(none, io) == [] && Broken(none, io) == [];
    assert Broken(s.served, io) == [];
  }

  lemma NextRequest(s: ServerState, io: ServerIo)
    requires OneClient(s) && io.accept(0) == WouldBlock && !io.incoming(0).Lost?
    ensures var t := ServerModel.Cycle(s, io);
            && t.queue == (if io.incoming(0).Got? then [QueuedValue(io.incoming(0).value, 0, 0)] else [])
            && OneClient(t.(queue := []))
  {
    var looked := ServeAt(s, 0, io);
    assert ServeFirst(s, 1, io) == looked by { assert ServeFirst(s, 0, io) == s; }
    assert looked == s;
    assert Alive(s.servings) == s.servings by { assert Alive(s.servings[1..]) == []; }
    ReadOne(Listen(s, io), io);
  }

  /** The serving of the connection fails; the connection stays. */
  lemma ServingFails(s: ServerState, io: ServerIo)
    requires OneClient(s) && io.accept(0) == Failed && io.incoming(0) == Quiet
    ensures var t := ServerModel.Cycle(s, io);
            t.servings == [] && t.served == [(0, 0)] && t.queue == [] && t.removed == [] && t.run
  {
    var looked := ServeAt(s, 0, io);
    assert ServeFirst(s, 1, io) == looked by { assert ServeFirst(s, 0, io) == s; }
    assert Alive(looked.servings) == [] by { assert Alive(looked.servings[1..]) == []; }
    ReadOne(Listen(s, io), io);
  }

  /** From the constructor: a client connects on "lo", that serving fails, and "eth0" is served under its number. The
      connection, made on "lo", is looked up as one on "eth0". */
  lemma NumberReused(matches: (string, string) -> bool, controlOpen: bool, first: DaemonIo, second: DaemonIo)
    requires first.server.listen(0) && first.server.accept(0) == Accepted && first.server.incoming(0) == Quiet
    requires second.server.accept(0) == Failed && second.server.incoming(0) == Quiet
    ensures var connected := Run(Initial(matches, controlOpen), [Offering("lo", 7090, true, true), Cycling(first)]);
            var t := Run(connected, [Cycling(second), Offering("eth0", 7090, true, true)]);
            && connected.srv.served == t.srv.served == [(0, 0)]
            && ServingById(connected.srv.servings, 0).device == "lo"
            && ServingById(t.srv.servings, 0).device == "eth0"
            && Fails(connected, Cycling(second), 0)
  {
    hide DaemonModel.Cycle, DaemonOk;
    var d := Initial(matches, controlOpen);
    InitialOk(matches, controlOpen);
    var one, two := Offering("lo", 7090, true, true), Cycling(first);
    RunTwo(d, one, two);
    StepOk(d, one);
    var s1 := Perform(d, one);
    FirstConnection(s1.srv, first.server);
    ServerAfter(s1, first);
    StillRunning(s1, first);
    var s2 := Perform(s1, two);
    StepOk(s1, two);
    RunTwo(s2, Cycling(second), Offering("eth0", 7090, true, true));
    ServingFails(s2.srv, second.server);
    ServerAfter(s2, second);
    assert s2.srv.servings[0].id == 0 && !Works(s2.srv, 0, second.server);
  }

  lemma RunTwo(d: DaemonState, one: Step, two: Step)
    ensures Run(d, [one, two]) == Perform(Perform(d, one), two)
  {
    hide Perform;
    assert [one, two][..1] == [one] && [one][..0] == [];
    assert Run(d, [one]) == Perform(d, one);
  }
}
