/** The server itself. Every method is proved to do what ServerModel says. */
module Servers {
  import opened Trees
  import opened ServerModel

  lemma {:induction false} ServingByIdFirst(servings: seq<Serving>, i: nat, id: int)
    requires i <= |servings| && forall j :: 0 <= j < i ==> servings[j].id != id
    ensures ServingById(servings, id) == ServingById(servings[i..], id)
  {
    if i == 0 {
      assert servings[0..] == servings;
    } else {
      ServingByIdFirst(servings[1..], i - 1, id);
      assert servings[1..][i - 1..] == servings[i..];
    }
  }

  lemma {:induction false} AliveWithoutFirstDead(servings: seq<Serving>, i: nat)
    requires i < |servings| && Dead(servings[i]) && forall j :: 0 <= j < i ==> !Dead(servings[j])
    ensures Alive(servings) == Alive(servings[..i] + servings[i + 1..])
  {
    if i == 0 {
      assert servings[..0] + servings[1..] == servings[1..];
    } else {
      AliveWithoutFirstDead(servings[1..], i - 1);
      assert (servings[..i] + servings[i + 1..])[1..] == servings[1..][..i - 1] + servings[1..][i..];
    }
  }

  lemma {:induction false} AllAlive(servings: seq<Serving>)
    requires forall i :: 0 <= i < |servings| ==> !Dead(servings[i])
    ensures Alive(servings) == servings
  {
    if servings != [] {
      AllAlive(servings[1..]);
      assert servings == [servings[0]] + servings[1..];
    }
  }

  lemma {:induction false} WithoutFirstAt(served: seq<(nat, int)>, i: nat, client: nat)
    requires i < |served| && served[i].0 == client && forall j :: 0 <= j < i ==> served[j].0 != client
    ensures WithoutFirst(served, client) == served[..i] + served[i + 1..]
  {
    if i == 0 {
      assert served[..0] + served[1..] == served[1..];
    } else {
      WithoutFirstAt(served[1..], i - 1, client);
      assert served[..i] + served[i + 1..] == [served[0]] + (served[1..][..i - 1] + served[1..][i..]);
    }
  }

  class Server {
    var run: bool
    var name: string
    var servings: seq<Serving>
    var served: seq<(nat, int)>
    var queue: seq<QueuedValue>
    var removed: seq<nat>
    var outbox: Outboxes
    var nextClient: nat

    ghost function State(): ServerState
      reads this
    {
      ServerState(run, name, servings, served, queue, removed, outbox, nextClient)
    }

    constructor ()
      ensures State() == ServerState(true, "", [], [], [], [], map[], 0)
    {
      run, name, servings, served, queue, removed, outbox, nextClient := true, "", [], [], [], [], map[], 0;
    }

    /** The loop over candidate numbers ends, because n servings cannot carry n + 1 numbers. */
    method FreeServingId() returns (id: int)
      ensures IsFreeId(servings, id) && id <= |servings|
    {
      id := -1;
      var found := true;
      while found
        invariant -1 <= id && (found || 0 <= id)
        invariant forall j :: 0 <= j < (if found then id + 1 else id) ==> IdUsed(servings, j)
        invariant !found ==> !IdUsed(servings, id)
        invariant (if found then id + 1 else id) <= |servings|
        decreases |servings| - id, found
      {
        found := false;
        id := id + 1;
        var i := 0;
        while i < |servings|
          invariant i <= |servings| && !found
          invariant forall j :: 0 <= j < i ==> servings[j].id != id
        {
          if servings[i].id == id {
            found := true;
            UsedIdsBound(servings, id + 1);
            break;
          }
          i := i + 1;
        }
      }
    }

    /** Starts serving on a device unless the pair is served already, no socket can be made or bound. */
    method Serve(device: string, port: int, socketMade: bool, bound: bool) returns (ok: bool)
      modifies this
      ensures ok <==> !IsServed(old(servings), device, port) && socketMade && bound
      ensures State() == ServerModel.Serve(old(State()), device, port, socketMade, bound)
    {
      ok := false;
      var present := false;
      for i := 0 to |servings|
        invariant present <==> exists j :: 0 <= j < i && servings[j].device == device && servings[j].port == port
      {
        if servings[i].device == device && servings[i].port == port {
          present := true;
        }
      }
      if !present {
        if socketMade {
          if bound {
            var id := FreeServingId();
            FreeIdUnique(servings, id);
            servings := servings + [Serving(Stopped, id, device, port)];
            ok := true;
          }
        }
      }
    }

    method ServingById(id: int) returns (serving: Serving)
      ensures serving == ServerModel.ServingById(servings, id)
    {
      var i := 0;
      while i < |servings|
        invariant i <= |servings|
        invariant forall j :: 0 <= j < i ==> servings[j].id != id
      {
        if servings[i].id == id {
          ServingByIdFirst(servings, i, id);
          return servings[i];
        }
        i := i + 1;
      }
      ServingByIdFirst(servings, i, id);
      serving := NO_SERVING;
    }

    /** Hands a message to the connection. */
    method Send(client: nat, message: Tree)
      modifies this`outbox
      ensures outbox == Post(old(outbox), client, message)
    {
      outbox := Post(outbox, client, message);
    }

    method LookAtServings(io: ServerIo)
      modifies this
      ensures State() == ServeFirst(old(State()), |old(servings)|, io)
    {
      hide ServeAt;
      for i := 0 to |servings|
        invariant State() == ServeFirst(old(State()), i, io) && |servings| == |old(servings)|
      {
        LookAt(i, io);
      }
    }

    /** Starts a stopped serving, then accepts at most one connection on it. */
    method LookAt(i: nat, io: ServerIo)
      requires i < |servings|
      modifies this
      ensures State() == ServeAt(old(State()), i, io)
    {
      if servings[i].status == Stopped {
        servings := servings[i := servings[i].(status := if io.listen(i) then Started else Invalid)];
      }
      match io.accept(i) {
        case WouldBlock =>
        case Failed =>
          servings := servings[i := servings[i].(status := Invalid)];
        case Accepted =>
          var client := nextClient;
          nextClient := nextClient + 1;
          served := served + [(client, servings[i].id)];
          Send(client, Hello(name));
      }
    }

    /** The erase-and-restart loop over failed servings. */
    method DropDeadServings()
      modifies this`servings
      ensures servings == Alive(old(servings))
    {
      var changed := true;
      while changed
        invariant Alive(servings) == Alive(old(servings))
        invariant !changed ==> forall i :: 0 <= i < |servings| ==> !Dead(servings[i])
        decreases |servings|, changed
      {
        changed := false;
        var i := 0;
        while i < |servings|
          invariant i <= |servings| && !changed
          invariant forall j :: 0 <= j < i ==> !Dead(servings[j])
        {
          if servings[i].status == Invalid || servings[i].status == Stopped {
            AliveWithoutFirstDead(servings, i);
            servings := servings[..i] + servings[i + 1..];
            changed := true;
            break;
          }
          i := i + 1;
        }
      }
      AllAlive(servings);
    }

    method HandleValue(client: nat, serving: int, value: Tree)
      modifies this`queue
      ensures queue == old(queue) + [QueuedValue(value, client, serving)]
    {
      queue := queue + [QueuedValue(value, client, serving)];
    }

    /** Reads once from every connection. */
    method ReceiveValues(io: ServerIo) returns (broken: seq<nat>)
      modifies this`queue
      ensures queue == old(queue) + Received(served, io) && broken == Broken(served, io)
    {
      broken := [];
      for i := 0 to |served|
        invariant queue == old(queue) + Received(served[..i], io)
        invariant broken == Broken(served[..i], io)
      {
        var (client, serving) := served[i];
        assert served[..i + 1][..i] == served[..i];
        match io.incoming(client) {
          case Got(value) => HandleValue(client, serving, value);
          case Quiet =>
          case Lost => broken := broken + [client];
        }
      }
      assert served[..|served|] == served;
    }

    method Forget(client: nat)
      modifies this
      ensures State() == Disconnect(old(State()), client)
    {
      var i := 0;
      while i < |served|
        invariant i <= |served| && State() == old(State())
        invariant forall j :: 0 <= j < i ==> served[j].0 != client
      {
        if served[i].0 == client {
          WithoutFirstAt(served, i, client);
          removed := removed + [client];
          served := served[..i] + served[i + 1..];
          return;
        }
        i := i + 1;
      }
    }

    method Cycle(io: ServerIo) returns (ok: bool)
      modifies this
      ensures State() == ServerModel.Cycle(old(State()), io)
      ensures ok == old(run)
    {
      ok := run;
      if run {
        LookAtServings(io);
        DropDeadServings();
        assert State() == Listen(old(State()), io);
        ghost var listening := State();
        var broken := ReceiveValues(io);
        ghost var read := State();
        for i := 0 to |broken|
          invariant State() == DisconnectAll(read, broken[..i])
        {
          Forget(broken[i]);
          assert broken[..i + 1][..i] == broken[..i];
        }
        assert broken[..|broken|] == broken;
      }
    }

    /** Hands the queue out and empties it. */
    method QueuedValues() returns (values: seq<QueuedValue>)
      modifies this`queue
      ensures values == old(queue) && queue == []
    {
      values := queue;
      queue := [];
    }

    /** Hands the list of removed connections out and empties it. */
    method TakeRemoved() returns (clients: seq<nat>)
      modifies this`removed
      ensures clients == old(removed) && removed == []
    {
      clients := removed;
      removed := [];
    }

    method Shutdown()
      modifies this`run
      ensures !run
    {
      run := false;
    }
  }
}
