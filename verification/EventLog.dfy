/** What the event list of a cycle means: every event changes one fact about the monitor, and replaying
    the list over the facts of the previous state gives the facts of the new one. */
module EventLog {
  import opened Basics
  import opened NetworkModel

  datatype DeviceView = DeviceView(up: bool, running: bool, mac: string, ip: string, broadcastIp: string)

  /** The questions the log answers. */
  datatype Aspect =
    | OfDevice(name: string)
    | OfPair(mac: string, device: string)
    | OfEvidence(macAddress: string, field: string)

  datatype Fact = Device(view: Option<DeviceView>) | Present(present: bool) | Text(text: string)

  function View(d: DeviceInfo): DeviceView {
    DeviceView(d.up, d.running, d.mac, d.ip, d.broadcastIp)
  }

  ghost function FactOf(s: NetState, a: Aspect): Fact {
    match a
    case OfDevice(name) =>
      Device(match Find(s.devices, name) case None => None case Some(d) => Some(View(d)))
    case OfPair(mac, device) => Present(Listed(s.macs, mac, device))
    case OfEvidence(mac, field) => Text(EvidenceOf(s.evidence, mac, field))
  }

  function GetField(v: DeviceView, field: string): Option<string> {
    if field == "mac" then Some(v.mac)
    else if field == "ip" then Some(v.ip)
    else if field == "broadcast-ip" then Some(v.broadcastIp)
    else None
  }

  function SetField(v: DeviceView, field: string, value: string): DeviceView {
    if field == "mac" then v.(mac := value)
    else if field == "ip" then v.(ip := value)
    else if field == "broadcast-ip" then v.(broadcastIp := value)
    else v
  }

  function SetState(v: DeviceView, change: StateChange): DeviceView {
    match change
    case Up(b) => v.(up := b)
    case Running(b) => v.(running := b)
  }

  /** The fact after the event. */
  function Apply(f: Fact, a: Aspect, e: Event): Fact {
    match (a, e)
    case (OfDevice(n), DeviceAdded(d)) =>
      if n == d then Device(Some(DeviceView(false, false, "", "", ""))) else f
    case (OfDevice(n), DeviceRemoved(d)) => if n == d then Device(None) else f
    case (OfDevice(n), DeviceStateChanged(d, change)) =>
      if n == d && f.Device? && f.view.Some? then Device(Some(SetState(f.view.value, change))) else f
    case (OfDevice(n), DeviceEvidenceChanged(d, field, value, _)) =>
      if n == d && f.Device? && f.view.Some? then Device(Some(SetField(f.view.value, field, value))) else f
    case (OfPair(m, n), MacDiscovered(d, mac)) => if m == mac && n == d then Present(true) else f
    case (OfPair(m, n), MacDisappeared(d, mac)) => if m == mac && n == d then Present(false) else f
    case (OfEvidence(m, k), MacEvidenceChanged(_, mac, field, value, _)) =>
      if m == mac && k == field then Text(value) else f
    case _ => f
  }

  /** The event reports a real change of the fact, and the former value it names is the right one. */
  predicate Justified(f: Fact, a: Aspect, e: Event) {
    match (a, e)
    case (OfDevice(n), DeviceAdded(d)) => n == d ==> f == Device(None)
    case (OfDevice(n), DeviceRemoved(d)) => n == d ==> f.Device? && f.view.Some?
    case (OfDevice(n), DeviceStateChanged(d, change)) =>
      n == d ==> f.Device? && f.view.Some? && SetState(f.view.value, change) != f.view.value
    case (OfDevice(n), DeviceEvidenceChanged(d, field, value, former)) =>
      n == d ==> f.Device? && f.view.Some? && GetField(f.view.value, field) == Some(former) && value != former
    case (OfPair(m, n), MacDiscovered(d, mac)) => m == mac && n == d ==> f == Present(false)
    case (OfPair(m, n), MacDisappeared(d, mac)) => m == mac && n == d ==> f == Present(true)
    case (OfEvidence(m, k), MacEvidenceChanged(_, mac, field, value, former)) =>
      m == mac && k == field ==> f == Text(former) && value != former
    case _ => true
  }

  function Replay(f: Fact, a: Aspect, log: seq<Event>): Fact {
    if log == [] then f else Apply(Replay(f, a, log[..|log| - 1]), a, log[|log| - 1])
  }

  predicate Sound(f: Fact, a: Aspect, log: seq<Event>) {
    log == [] || (Sound(f, a, log[..|log| - 1]) && Justified(Replay(f, a, log[..|log| - 1]), a, log[|log| - 1]))
  }

  // Replaying

  lemma {:induction false} ReplayConcat(f: Fact, a: Aspect, x: seq<Event>, y: seq<Event>)
    ensures Replay(f, a, x + y) == Replay(Replay(f, a, x), a, y)
    ensures Sound(f, a, x + y) <==> Sound(f, a, x) && Sound(Replay(f, a, x), a, y)
  {
    if y == [] {
      assert x + y == x;
    } else {
      ReplayConcat(f, a, x, y[..|y| - 1]);
      assert (x + y)[..|x + y| - 1] == x + y[..|y| - 1];
    }
  }

  lemma ApplyTwice(f: Fact, a: Aspect, e: Event)
    ensures Apply(Apply(f, a, e), a, e) == Apply(f, a, e)
  {
  }

  /** What an event does to a fact hides what an earlier event of its kind did. */
  lemma ApplyAbsorbs(f: Fact, g: Fact, a: Aspect, e: Event, later: Event)
    requires Apply(f, a, e) == Apply(g, a, e)
    ensures Apply(Apply(f, a, later), a, e) == Apply(Apply(g, a, later), a, e)
  {
    match a {
      case OfDevice(n) =>
        if e.DeviceStateChanged? && e.device == n {
        } else if e.DeviceEvidenceChanged? && e.device == n {
        }
      case OfPair(m, d) =>
      case OfEvidence(m, k) =>
    }
  }

  lemma {:induction false} ReplayAbsorbs(f: Fact, g: Fact, a: Aspect, e: Event, log: seq<Event>)
    requires Apply(f, a, e) == Apply(g, a, e)
    ensures Apply(Replay(f, a, log), a, e) == Apply(Replay(g, a, log), a, e)
  {
    if log != [] {
      var front := log[..|log| - 1];
      ReplayAbsorbs(f, g, a, e, front);
      ApplyAbsorbs(Replay(f, a, front), Replay(g, a, front), a, e, log[|log| - 1]);
    }
  }

  /** Replaying any log a second time changes nothing. */
  lemma {:induction false} ReplayIdempotent(f: Fact, a: Aspect, log: seq<Event>)
    ensures Replay(Replay(f, a, log), a, log) == Replay(f, a, log)
  {
    if log != [] {
      var front, e := log[..|log| - 1], log[|log| - 1];
      var h := Replay(f, a, front);
      ReplayIdempotent(f, a, front);
      ApplyTwice(h, a, e);
      ReplayAbsorbs(Apply(h, a, e), h, a, e, front);
    }
  }

  // Logged steps

  ghost predicate Explains(f: Fact, a: Aspect, log: seq<Event>, g: Fact) {
    Sound(f, a, log) && Replay(f, a, log) == g
  }

  lemma ExplainsConcat(f: Fact, a: Aspect, x: seq<Event>, g: Fact, y: seq<Event>, h: Fact)
    requires Explains(f, a, x, g) && Explains(g, a, y, h)
    ensures Explains(f, a, x + y, h)
  {
    ReplayConcat(f, a, x, y);
  }

  lemma ExplainsMore(f: Fact, a: Aspect, log: seq<Event>, g: Fact, e: Event)
    requires Explains(f, a, log, g) && Justified(g, a, e)
    ensures Explains(f, a, log + [e], Apply(g, a, e))
  {
    assert (log + [e])[..|log + [e]| - 1] == log;
  }

  lemma ExplainsOne(f: Fact, a: Aspect, e: Event)
    requires Justified(f, a, e)
    ensures Explains(f, a, [e], Apply(f, a, e))
  {
    assert Explains(f, a, [], f);
    ExplainsMore(f, a, [], f, e);
    assert [] + [e] == [e];
  }

  lemma {:induction false} ExplainsNothing(f: Fact, a: Aspect, log: seq<Event>)
    requires forall i :: 0 <= i < |log| ==> Justified(f, a, log[i]) && Apply(f, a, log[i]) == f
    ensures Explains(f, a, log, f)
  {
    if log != [] {
      ExplainsNothing(f, a, log[..|log| - 1]);
    }
  }

  /** The events appended by a step are sound and say all that changed. */
  ghost predicate Logged(s: NetState, t: NetState) {
    s.events <= t.events &&
    forall a: Aspect :: Explains(FactOf(s, a), a, t.events[|s.events|..], FactOf(t, a))
  }

  lemma LoggedTransitive(s: NetState, t: NetState, u: NetState)
    requires Logged(s, t) && Logged(t, u)
    ensures Logged(s, u)
  {
    var x, y := t.events[|s.events|..], u.events[|t.events|..];
    assert u.events[|s.events|..] == x + y;
    forall a: Aspect ensures Explains(FactOf(s, a), a, u.events[|s.events|..], FactOf(u, a)) {
      assert Explains(FactOf(s, a), a, x, FactOf(t, a));
      assert Explains(FactOf(t, a), a, y, FactOf(u, a));
      ReplayConcat(FactOf(s, a), a, x, y);
    }
  }

  /** A step that changes no fact and schedules nothing. */
  lemma LoggedSilent(s: NetState, t: NetState)
    requires t.events == s.events
    requires forall a: Aspect :: FactOf(s, a) == FactOf(t, a)
    ensures Logged(s, t)
  {
    assert t.events[|s.events|..] == [];
    forall a: Aspect ensures Explains(FactOf(s, a), a, t.events[|s.events|..], FactOf(t, a)) {
      assert FactOf(s, a) == FactOf(t, a);
    }
  }
}
