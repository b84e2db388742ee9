/** Sending and receiving messages over a reliable byte stream. */
module PacketEntities {
  import opened Basics
  import opened Trees
  import opened Codec
  import opened Values

  const STEP := 2048

  /** One direction of a connection: the bytes written and not yet read. The outcome of each system call that
      the model does not fix (how much one write takes, what an empty stream reports) is an input. */
  class Channel {
    var bytes: string

    constructor ()
      ensures bytes == ""
    {
      bytes := "";
    }

    /** One write: the system takes at most the given number of bytes; a number that is not positive is a failure. */
    method Write(data: string, takes: int) returns (n: int)
      modifies this
      ensures n == if takes <= 0 then takes else if takes < |data| then takes else |data|
      ensures bytes == old(bytes) + (if n > 0 then data[..n] else "")
    {
      n := if takes <= 0 then takes else if takes < |data| then takes else |data|;
      if n > 0 {
        bytes := bytes + data[..n];
      }
    }

    /** One peek: as many queued bytes as fit into the buffer, at its start. */
    method Peek(buffer: array<char>) returns (n: nat)
      modifies buffer
      ensures n == if |bytes| < buffer.Length then |bytes| else buffer.Length
      ensures buffer[..][..n] == bytes[..n]
    {
      n := if |bytes| < buffer.Length then |bytes| else buffer.Length;
      Values.Write(buffer, 0, bytes[..n]);
    }

    method Consume(n: nat)
      requires n <= |bytes|
      modifies this
      ensures bytes == old(bytes)[n..]
    {
      bytes := bytes[n..];
    }
  }

  /** What reading an empty stream reports. */
  datatype Idle = WouldBlock | Closed | Error

  /** The smallest multiple of 2048 that holds n bytes. */
  ghost predicate Tight(size: nat, n: nat) {
    size % STEP == 0 && n <= size && size < n + STEP
  }

  class PacketEntity {
    const output: Channel
    const input: Channel
    var failureState: bool

    constructor (output: Channel, input: Channel)
      ensures this.output == output && this.input == input && !failureState
    {
      this.output, this.input, failureState := output, input, false;
    }

    /** Serialises into a buffer that grows until the message fits; it ends up as small as possible. */
    method Pack(v: Value) returns (buffer: array<char>, n: nat)
      requires v.Valid() && Size(v.Model()) + STEP <= LIMIT
      ensures fresh(buffer) && Tight(buffer.Length, n) && n == Size(v.Model())
      ensures buffer[..][..n] == Encode(v.Model())
    {
      hide Encode, Size;
      buffer := new char[STEP](_ => '\0');
      var length := Fill(v, buffer);
      AtLeastHeader(v.Model());
      while length == -1
        invariant fresh(buffer) && buffer.Length % STEP == 0 && buffer.Length < Size(v.Model()) + STEP
        invariant length == if Size(v.Model()) <= buffer.Length then Size(v.Model()) else -1
        invariant length != -1 ==> buffer[..][..length] == Encode(v.Model())
        decreases Size(v.Model()) + STEP - buffer.Length
      {
        buffer := new char[buffer.Length + STEP](_ => '\0');
        length := Fill(v, buffer);
      }
      n := length;
    }

    method Fill(v: Value, buffer: array<char>) returns (n: int)
      requires v.Valid() && Size(v.Model()) < LIMIT && buffer.Length < 0x1_0000_0000
      modifies buffer
      ensures n == if Size(v.Model()) <= buffer.Length then Size(v.Model()) else -1
      ensures n != -1 ==> buffer[..][..n] == Encode(v.Model())
    {
      hide Encode, Size, OutsideSame;
      n := v.Serialize(buffer, 0, buffer.Length);
    }

    /** Sends a message in as many writes as it takes. True means that exactly its encoding was appended to the
        stream; false that a proper prefix of it was, because a write took nothing. */
    method Send(v: Value, takes: nat -> int) returns (ok: bool)
      requires v.Valid() && Size(v.Model()) + STEP <= LIMIT
      modifies output
      ensures ok ==> output.bytes == old(output.bytes) + Encode(v.Model())
      ensures !ok ==> exists k :: 0 <= k < Size(v.Model()) && output.bytes == old(output.bytes) + Encode(v.Model())[..k]
      ensures (forall call :: takes(call) > 0) ==> ok
    {
      hide Encode, Size;
      var buffer, length := Pack(v);
      var data := buffer[..][..length];
      ok := false;
      var sent := 0;
      var call := 0;
      while sent < length
        invariant 0 <= sent <= length
        invariant output.bytes == old(output.bytes) + data[..sent]
        decreases length - sent
      {
        var result := output.Write(data[sent..], takes(call));
        call := call + 1;
        if result > 0 {
          assert data[..sent] + data[sent..][..result] == data[..sent + result];
          sent := sent + result;
        } else {
          break;
        }
      }
      if sent == length {
        ok := true;
        assert data[..sent] == data;
      } else {
        assert output.bytes == old(output.bytes) + Encode(v.Model())[..sent];
      }
    }

    /** Peeks into a growing buffer until all queued bytes are seen. */
    method PeekAll() returns (buffer: array<char>, n: nat)
      ensures fresh(buffer) && n == |input.bytes| && n < buffer.Length
      ensures buffer[..][..n] == input.bytes
    {
      buffer := new char[STEP](_ => '\0');
      n := input.Peek(buffer);
      while n > 0 && n == buffer.Length
        invariant fresh(buffer) && 0 < buffer.Length
        invariant n == if |input.bytes| < buffer.Length then |input.bytes| else buffer.Length
        invariant buffer[..][..n] == input.bytes[..n]
        decreases |input.bytes| + STEP - buffer.Length
      {
        buffer := new char[buffer.Length + STEP](_ => '\0');
        n := input.Peek(buffer);
      }
      assert input.bytes[..n] == input.bytes;
    }

    /** Receives one message. When bytes are queued they must start with a whole message, because a part of one
        is not waited for; the message is decoded and exactly its bytes are consumed. */
    method Receive(idle: Idle) returns (v: Value?, disconnected: bool)
      requires input.bytes == "" || Decode(input.bytes).Some?
      modifies this, input
      ensures old(input.bytes) != "" ==>
                && v != null && fresh(v) && v.Valid() && !disconnected && failureState == old(failureState)
                && var (t, n) := Decode(old(input.bytes)).value;
                   v.Model() == t && input.bytes == old(input.bytes)[n..]
      ensures old(input.bytes) == "" ==>
                && v == null && input.bytes == ""
                && disconnected == (idle != WouldBlock) && failureState == (old(failureState) || idle != WouldBlock)
    {
      hide Decode;
      v := null;
      disconnected := false;
      var buffer, n := PeekAll();
      if n == 0 {
        if idle == Closed || idle == Error {
          failureState := true;
          disconnected := true;
        }
      } else {
        var used: nat;
        v, used := Unpack(buffer, n);
        input.Consume(used);
      }
    }

    /** Reads the message at the start of the buffer, of which n bytes are filled, into a new object. */
    method Unpack(buffer: array<char>, n: nat) returns (v: Value, used: nat)
      requires n <= buffer.Length && Decode(buffer[..][..n]).Some?
      ensures fresh(v) && v.Valid() && (v.Model(), used) == Decode(buffer[..][..n]).value
    {
      hide Decode;
      ghost var s := buffer[..][..n];
      assert buffer[..][0..] == s + buffer[..][n..];
      DecodeExtends(s, buffer[..][n..]);
      v := new Value("", "");
      used := v.Deserialize(buffer, 0);
      assert [] + Decode(s).value.0.subs == Decode(s).value.0.subs;
    }
  }

  lemma AtLeastHeader(t: Tree)
    ensures 3 * WORD <= Size(t)
  {
  }

  // A whole conversation in one direction

  datatype Act = Sending(tree: Tree) | Receiving

  /** Bytes on the stream, trees sent and trees received. */
  datatype Wire = Wire(bytes: string, sent: seq<Tree>, received: seq<Tree>)

  /** A successful send or, with something queued, a receive, as Send and Receive do it. */
  function Perform(w: Wire, act: Act): Wire {
    match act
    case Sending(t) => w.(bytes := w.bytes + Encode(t), sent := w.sent + [t])
    case Receiving =>
      match Decode(w.bytes)
      case None => w
      case Some((t, n)) => w.(bytes := w.bytes[n..], received := w.received + [t])
  }

  function Converse(w: Wire, acts: seq<Act>): Wire {
    if acts == [] then w else Perform(Converse(w, acts[..|acts| - 1]), acts[|acts| - 1])
  }

  ghost predicate InOrder(w: Wire) {
    && w.received <= w.sent
    && w.bytes == EncodeAll(w.sent[|w.received|..])
    && (forall i :: 0 <= i < |w.sent| ==> Size(w.sent[i]) < LIMIT)
  }

  lemma ActKeepsOrder(w: Wire, act: Act)
    requires InOrder(w) && (act.Sending? ==> Size(act.tree) < LIMIT)
    ensures InOrder(Perform(w, act))
    ensures act.Receiving? && |w.received| < |w.sent| ==>
            Perform(w, act).received == w.received + [w.sent[|w.received|]]
    ensures act.Receiving? && w.bytes != "" ==> Decode(w.bytes).Some?
  {
    hide *;
    match act {
      case Sending(t) => SendingKeepsOrder(w, t);
      case Receiving => ReceivingKeepsOrder(w);
    }
  }

  lemma SendingKeepsOrder(w: Wire, t: Tree)
    requires InOrder(w) && Size(t) < LIMIT
    ensures InOrder(Perform(w, Sending(t)))
  {
    hide Encode, Decode, Size;
    var rest := w.sent[|w.received|..];
    assert (w.sent + [t])[|w.received|..] == rest + [t];
    assert (rest + [t])[..|rest|] == rest;
  }

  lemma ReceivingKeepsOrder(w: Wire)
    requires InOrder(w)
    ensures InOrder(Perform(w, Receiving))
    ensures |w.received| < |w.sent| ==> Perform(w, Receiving).received == w.received + [w.sent[|w.received|]]
    ensures w.bytes != "" ==> Decode(w.bytes).Some?
  {
    hide Encode, Decode, Size;
    var rest := w.sent[|w.received|..];
    if rest == [] {
      assert Decode("").None? by { NothingDecodes(); }
    } else {
      SizeAllCons(rest);
      hide EncodeAll;
      DecodeOfEncode(rest[0], EncodeAll(rest[1..]));
      assert w.bytes[Size(rest[0])..] == EncodeAll(rest[1..]);
      assert w.sent[|w.received| + 1..] == rest[1..];
      assert rest[0] == w.sent[|w.received|];
    }
  }

  /** One step of a conversation between two real ends: the sender sends the value or, without one, the receiver
      receives. While no write fails, the effect is that of the step on values. */
  method Drive(sender: PacketEntity, receiver: PacketEntity, value: Value?, takes: nat -> int, idle: Idle,
               ghost w: Wire)
    returns (got: Value?, ghost w': Wire)
    requires sender.output == receiver.input && sender.output.bytes == w.bytes && InOrder(w)
    requires value != null ==> value.Valid() && Size(value.Model()) + STEP <= LIMIT
    requires forall call :: takes(call) > 0
    modifies sender.output, receiver
    ensures InOrder(w') && sender.output.bytes == w'.bytes
    ensures value != null ==> got == null && w' == Perform(w, Sending(value.Model()))
    ensures value == null ==> w' == Perform(w, Receiving) && (got == null <==> w.bytes == "")
    ensures got != null ==> fresh(got) && got.Valid() && w'.received == w.received + [got.Model()]
  {
    hide Encode, Decode, Size, InOrder;
    got := null;
    if value != null {
      var ok := sender.Send(value, takes);
      ActKeepsOrder(w, Sending(value.Model()));
      w' := Perform(w, Sending(value.Model()));
    } else {
      ActKeepsOrder(w, Receiving);
      if w.bytes == "" { NothingDecodes(); }
      var disconnected;
      got, disconnected := receiver.Receive(idle);
      w' := Perform(w, Receiving);
    }
  }

  lemma NothingDecodes()
    ensures Decode("").None?
  {
  }

  /** First in, first out: after any mix of sends and receives the trees received are the first ones sent, in
      order, and the stream holds exactly the encodings of the others. */
  lemma {:induction false} Fifo(acts: seq<Act>)
    requires forall i :: 0 <= i < |acts| && acts[i].Sending? ==> Size(acts[i].tree) < LIMIT
    ensures InOrder(Converse(Wire("", [], []), acts))
  {
    if acts != [] {
      Fifo(acts[..|acts| - 1]);
      ActKeepsOrder(Converse(Wire("", [], []), acts[..|acts| - 1]), acts[|acts| - 1]);
    }
  }

  function ReceiveTimes(n: nat): (r: seq<Act>)
    ensures |r| == n
  {
    if n == 0 then [] else ReceiveTimes(n - 1) + [Receiving]
  }

  /** The wire after as many receives as there are trees under way. */
  function Drained(w: Wire): Wire {
    Converse(w, ReceiveTimes(if |w.received| <= |w.sent| then |w.sent| - |w.received| else 0))
  }

  /** As many receives as there are trees under way give back exactly the trees sent and empty the stream. */
  lemma Delivers(w: Wire)
    requires InOrder(w)
    ensures Drained(w) == Wire("", w.sent, w.sent)
  {
    var n := |w.sent| - |w.received|;
    DeliversSome(w, n);
    var end := Converse(w, ReceiveTimes(n));
    assert end.sent[|end.received|..] == [];
  }

  lemma ConverseStep(w: Wire, k: nat)
    ensures Converse(w, ReceiveTimes(0)) == w
    ensures k > 0 ==> Converse(w, ReceiveTimes(k)) == Perform(Converse(w, ReceiveTimes(k - 1)), Receiving)
  {
    hide Perform;
    if k > 0 {
      assert ReceiveTimes(k)[..k - 1] == ReceiveTimes(k - 1);
    }
  }

  lemma {:induction false} DeliversSome(w: Wire, k: nat)
    requires InOrder(w) && |w.received| + k <= |w.sent|
    ensures var t := Converse(w, ReceiveTimes(k));
            InOrder(t) && t.sent == w.sent && |t.received| == |w.received| + k
  {
    hide InOrder, Decode, Converse;
    ConverseStep(w, k);
    if k > 0 {
      DeliversSome(w, k - 1);
      ActKeepsOrder(Converse(w, ReceiveTimes(k - 1)), Receiving);
    }
  }

  /** What follows a message stays on the stream when the message is received. */
  lemma ReceiveTail(w: Wire, tail: string)
    requires Decode(w.bytes).Some?
    ensures Perform(w.(bytes := w.bytes + tail), Receiving) ==
            Perform(w, Receiving).(bytes := Perform(w, Receiving).bytes + tail)
  {
    hide Decode;
    DecodeExtends(w.bytes, tail);
    var n := Decode(w.bytes).value.1;
    assert (w.bytes + tail)[n..] == w.bytes[n..] + tail;
  }

  /** What follows the messages under way stays on the stream while they are received. */
  lemma {:induction false} TailWaits(w: Wire, k: nat, tail: string)
    requires InOrder(w) && |w.received| + k <= |w.sent|
    ensures var t := Converse(w, ReceiveTimes(k));
            Converse(w.(bytes := w.bytes + tail), ReceiveTimes(k)) == t.(bytes := t.bytes + tail)
  {
    hide *;
    ConverseStep(w, k);
    ConverseStep(w.(bytes := w.bytes + tail), k);
    if k > 0 {
      var t := Converse(w, ReceiveTimes(k - 1));
      TailWaits(w, k - 1, tail);
      DeliversSome(w, k - 1);
      StillQueued(t);
      ReceiveTail(t, tail);
    }
  }

  lemma StillQueued(w: Wire)
    requires InOrder(w) && |w.received| < |w.sent|
    ensures Decode(w.bytes).Some?
  {
    hide Decode, InOrder;
    ActKeepsOrder(w, Receiving);
  }

  /** A failed send leaves a part of its message on the stream. Everything sent before still arrives, in order, and
      the part itself never reads as a message. */
  lemma FailedSend(w: Wire, t: Tree, k: nat)
    requires InOrder(w) && Size(t) < LIMIT && k < Size(t)
    ensures var part := Encode(t)[..k];
            && Drained(w.(bytes := w.bytes + part)) == Wire(part, w.sent, w.sent)
            && Decode(part).None?
  {
    hide Encode, Decode, Size;
    Delivers(w);
    TailWaits(w, |w.sent| - |w.received|, Encode(t)[..k]);
    PartNeverDecodes(t, k);
  }

  /** The daemon keeps sending after a failed send. The receiver reads the next message, to its end, exactly when not a
      single byte of the failed one was written. Otherwise the first message it reads after the part, if any, reaches
      into what was sent next, so the messages are not told apart any more. */
  lemma FramingLost(t: Tree, k: nat, next: Tree, rest: string)
    requires Size(t) < LIMIT && k < Size(t) && Size(next) < LIMIT && Octets(Encode(t)[..k] + (Encode(next) + rest))
    ensures var read := Decode(Encode(t)[..k] + (Encode(next) + rest));
            && (read == Some((next, k + Size(next))) <==> k == 0)
            && (k > 0 && read.Some? ==> read.value.1 > k)
  {
    hide Encode, Decode, Size, Octets;
    var part, more := Encode(t)[..k], Encode(next) + rest;
    if k == 0 {
      assert part + more == more;
      DecodeOfEncode(next, rest);
    } else if Decode(part + more).Some? {
      var (read, n) := Decode(part + more).value;
      EncodeOfDecode(part + more);
      assert |Encode(read)| == n;
      if n <= k {
        assert (part + more)[..n] == Encode(t)[..n];
        PrefixFree(read, t);
        assert false;
      }
    }
  }
}
