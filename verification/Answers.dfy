/** What clients can read back from the answers and messages of the daemon. */
module Answers {
  import opened Basics
  import opened Trees
  import opened Ordering
  import opened NetworkModel
  import opened ServerModel
  import opened DaemonModel

  // Answers to requests

  /** What a client reads in one entry of a devices-list answer. */
  datatype DeviceReading = DeviceReading(name: string, mac: Option<string>, ip: Option<string>,
                                         broadcastIp: Option<string>, hardware: Option<string>)

  function ReadDevice(t: Tree): DeviceReading {
    DeviceReading(t.key, SubText(t, "mac"), SubText(t, "ip"), SubText(t, "broadcast-ip"), SubText(t, "hardware-type"))
  }

  /** The answer that request q gets. */
  function AnswerTo(d: DaemonState, q: QueuedValue, io: DaemonIo): Tree {
    Answer(d, q, io).1
  }

  lemma {:induction false} DeviceEntriesAt(devices: seq<DeviceInfo>, i: nat)
    requires i < |devices|
    ensures |DeviceEntries(devices)| == |devices| && DeviceEntries(devices)[i] == DeviceEntry(devices[i])
  {
    var n := |devices| - 1;
    if i < n {
      DeviceEntriesAt(devices[..n], i);
    } else if n > 0 {
      DeviceEntriesAt(devices[..n], 0);
    }
  }

  /** How a client is told the kind of a device. */
  function KindText(h: HardwareType): string {
    if h == Loopback then "loopback" else if h == Wired then "wired" else "wireless"
  }

  /** A devices-list answer has one entry per known device, in order, from which a client reads the name, the
      addresses and the kind of the device. */
  lemma DevicesAnswered(d: DaemonState, q: QueuedValue, io: DaemonIo, i: nat)
    requires q.value.content == "devices-list" && i < |d.net.devices|
    ensures var entries, device := AnswerTo(d, q, io).subs, d.net.devices[i];
            && |entries| == |d.net.devices|
            && ReadDevice(entries[i]) == DeviceReading(device.name, Some(device.mac), Some(device.ip),
                                                       Some(device.broadcastIp), Some(KindText(device.hardware)))
  {
    DeviceEntriesAt(d.net.devices, i);
    var subs := DeviceEntry(d.net.devices[i]).subs;
    SubAt(subs, 0, "mac");
    SubAt(subs, 1, "ip");
    SubAt(subs, 2, "broadcast-ip");
    SubAt(subs, 3, "hardware-type");
  }

  /** What a client reads in one entry of a known-mac-addresses answer. */
  datatype MacReading = MacReading(mac: string, device: Option<string>, lastSeen: Option<string>,
                                   firstSeen: Option<string>, vendor: Option<string>)

  function ReadMac(t: Tree): MacReading {
    MacReading(t.key, SubText(t, "device-name"), SubText(t, "last-seen"), SubText(t, "first-seen"),
               SubText(t, "vendor"))
  }

  lemma {:induction false} MacEntriesAt(macs: seq<Entity>, io: DaemonIo, i: nat)
    requires i < |macs|
    ensures |MacEntries(macs, io)| == |macs| && MacEntries(macs, io)[i] == MacEntry(macs[i], io)
  {
    hide MacEntry;
    var n := |macs| - 1;
    if i < n {
      MacEntriesAt(macs[..n], io, i);
    } else if n > 0 {
      MacEntriesAt(macs[..n], io, 0);
    }
  }

  /** A known-mac-addresses answer has one entry per entry of the table, in order, from which a client reads the
      address, its device, when it was last and first heard, and its vendor. */
  lemma MacsAnswered(d: DaemonState, q: QueuedValue, io: DaemonIo, i: nat)
    requires q.value.content == "known-mac-addresses" && i < |d.net.macs|
    ensures var entries, e := AnswerTo(d, q, io).subs, d.net.macs[i];
            && |entries| == |d.net.macs|
            && ReadMac(entries[i]) == MacReading(e.mac, Some(e.device), Some(io.timeText(e.lastSeen)),
                                                 Some(io.timeText(e.firstSeen)), Some(io.vendor(e.mac)))
  {
    MacEntriesAt(d.net.macs, io, i);
    var subs := MacEntry(d.net.macs[i], io).subs;
    SubAt(subs, 0, "device-name");
    SubAt(subs, 1, "last-seen");
    SubAt(subs, 2, "first-seen");
    SubAt(subs, 3, "vendor");
  }

  lemma {:induction false} EvidenceEntriesFind(fields: map<string, string>, order: seq<string>, field: string)
    requires forall k :: k in order ==> k in fields
    ensures SubIn(EvidenceEntries(fields, order), field) ==
            if field in order then Some(Leaf(field, fields[field])) else None
  {
    if order != [] {
      var front, last := order[..|order| - 1], order[|order| - 1];
      EvidenceEntriesFind(fields, front, field);
      SubInAppend(EvidenceEntries(fields, front), Leaf(last, fields[last]), field);
      assert order == front + [last];
    }
  }

  lemma {:induction false} SubInAppend(subs: seq<Tree>, sub: Tree, key: string)
    ensures SubIn(subs + [sub], key) ==
            if SubIn(subs, key).Some? then SubIn(subs, key) else if sub.key == key then Some(sub) else None
  {
    if subs != [] {
      SubInAppend(subs[1..], sub, key);
      assert (subs + [sub])[1..] == subs[1..] + [sub];
    } else {
      assert (subs + [sub])[1..] == [];
    }
  }

  /** In a mac-evidence answer a client finds every field that the evidence map holds for the address and no
      other, except that the field "mac-address" always names the address itself. */
  lemma EvidenceAnswered(d: DaemonState, q: QueuedValue, io: DaemonIo, mac: string, field: string)
    requires q.value.content == "mac-evidence" && SubText(q.value, "mac-address") == Some(mac)
    ensures SubText(AnswerTo(d, q, io), field) ==
            if field == "mac-address" then Some(mac)
            else if EvidenceHas(d.net.evidence, mac, field) then Some(d.net.evidence[mac][field]) else None
  {
    var fields := WithMac(d.net.evidence, mac)[mac]["mac-address" := mac];
    EvidenceEntriesFind(fields, SortedKeys(fields.Keys), field);
  }

  /** What an enable-stream request is told: which device it asked for, and whether the stream of the device that serves
      it was on already. */
  lemma EnableAnswered(d: DaemonState, q: QueuedValue, io: DaemonIo)
    requires q.value.content == "enable-stream"
    ensures var m := AnswerTo(d, q, io);
            && m.key == "result"
            && (SubText(q.value, "device-name") == None ==> m == Tree("result", "device-name-missing", []))
            && (SubText(q.value, "device-name") != None ==>
                  && SubText(m, "device-name") == SubText(q.value, "device-name")
                  && m.content == if Stream(q.client, ServingById(d.srv.servings, q.serving).device) in d.streams
                                  then "already-enabled" else "success")
  {
  }

  /** What a disable-stream request is told, in the same way. */
  lemma DisableAnswered(d: DaemonState, q: QueuedValue, io: DaemonIo)
    requires q.value.content == "disable-stream"
    ensures var m := AnswerTo(d, q, io);
            && m.key == "result"
            && (SubText(q.value, "device-name") == None ==> m == Tree("result", "device-name-missing", []))
            && (SubText(q.value, "device-name") != None ==>
                  && SubText(m, "device-name") == SubText(q.value, "device-name")
                  && m.content == if Stream(q.client, ServingById(d.srv.servings, q.serving).device) in d.streams
                                  then "success" else "already-disabled")
  {
  }

  /** A request that the daemon does not know, and one for the evidence of no address, get an empty answer. */
  lemma NothingAnswered(d: DaemonState, q: QueuedValue, io: DaemonIo)
    requires q.value.content !in
             ["devices-list", "known-mac-addresses", "mac-evidence", "enable-stream", "disable-stream"]
             || (q.value.content == "mac-evidence" && SubText(q.value, "mac-address") == None)
    ensures AnswerTo(d, q, io) == Tree("", "", []) && Handle(d, q, io).(srv := d.srv) == d
  {
  }

  // Messages of events

  /** The part of an event that its message carries: state and evidence messages do not name the device. */
  function Carried(e: Event): Event {
    match e
    case DeviceStateChanged(_, change) => DeviceStateChanged("", change)
    case DeviceEvidenceChanged(_, field, value, former) => DeviceEvidenceChanged("", field, value, former)
    case MacEvidenceChanged(_, mac, field, value, former) => MacEvidenceChanged("", mac, field, value, former)
    case _ => e
  }

  function Field(m: Tree, key: string): string {
    match SubText(m, key) case None => "" case Some(text) => text
  }

  /** How a client reads the message of an event, field by field. */
  function ReadEvent(m: Tree): Option<Event> {
    if m.key != "info" then None
    else if m.content == "device-added" then Some(DeviceAdded(Field(m, "device-name")))
    else if m.content == "device-removed" then Some(DeviceRemoved(Field(m, "device-name")))
    else if m.content == "device-state-changed" && Field(m, "changed-state") == "up" then
      Some(DeviceStateChanged("", Up(Field(m, "state") == "true")))
    else if m.content == "device-state-changed" && Field(m, "changed-state") == "running" then
      Some(DeviceStateChanged("", Running(Field(m, "state") == "true")))
    else if m.content == "device-evidence-changed" then
      Some(DeviceEvidenceChanged("", Field(m, "field"), Field(m, "value"), Field(m, "value-former")))
    else if m.content == "mac-address-discovered" then Some(MacDiscovered(Field(m, "device-name"), Field(m, "mac")))
    else if m.content == "mac-address-disappeared" then Some(MacDisappeared(Field(m, "device-name"), Field(m, "mac")))
    else if m.content == "mac-evidence-changed" then
      Some(MacEvidenceChanged("", Field(m, "mac-address"), Field(m, "field"), Field(m, "value"),
                              Field(m, "value-former")))
    else None
  }

  lemma DeviceMessageRead(e: Event, hardware: HardwareType, io: DaemonIo)
    requires e.DeviceAdded? || e.DeviceRemoved? || e.DeviceStateChanged?
    ensures var m := MessageText(e, hardware, io);
            && ReadEvent(m) == Some(Carried(e))
            && (e.DeviceAdded? ==> Field(m, "hardware-type") == KindText(hardware))
            && (e.DeviceStateChanged? ==> Field(m, "state") in ["true", "false"])
  {
    var subs := MessageText(e, hardware, io).subs;
    match e
    case DeviceAdded(_) =>
      SubAt(subs, 0, "device-name");
      SubAt(subs, 1, "hardware-type");
    case DeviceRemoved(_) =>
      SubAt(subs, 0, "device-name");
    case DeviceStateChanged(_, _) =>
      SubAt(subs, 0, "changed-state");
      SubAt(subs, 1, "state");
  }

  lemma EvidenceMessageRead(e: Event, hardware: HardwareType, io: DaemonIo)
    requires e.DeviceEvidenceChanged? || e.MacEvidenceChanged?
    ensures ReadEvent(MessageText(e, hardware, io)) == Some(Carried(e))
  {
    var subs := MessageText(e, hardware, io).subs;
    var first := if e.MacEvidenceChanged? then 1 else 0;
    SubAt(subs, first, "field");
    SubAt(subs, first + 1, "value");
    SubAt(subs, first + 2, "value-former");
    if e.MacEvidenceChanged? { SubAt(subs, 0, "mac-address"); }
  }

  lemma AddressMessageRead(e: Event, hardware: HardwareType, io: DaemonIo)
    requires e.MacDiscovered? || e.MacDisappeared?
    ensures var m := MessageText(e, hardware, io);
            ReadEvent(m) == Some(Carried(e)) && (e.MacDiscovered? ==> Field(m, "vendor") == io.vendor(e.mac))
  {
    var subs := MessageText(e, hardware, io).subs;
    SubAt(subs, 0, "mac");
    SubAt(subs, if e.MacDiscovered? then 2 else 1, "device-name");
    if e.MacDiscovered? { SubAt(subs, 1, "vendor"); }
  }

  /** From the message of an event a client reads back exactly the carried part; that of an added device names its kind,
      and that of a discovered address its vendor. */
  lemma MessageRead(net: NetState, e: Event, io: DaemonIo)
    ensures var m := Message(net, e, io);
            && ReadEvent(m) == Some(Carried(e))
            && (e.DeviceAdded? ==>
                  Field(m, "hardware-type") == match Find(net.devices, e.device)
                                               case Some(d) => KindText(d.hardware)
                                               case None => KindText(io.os.hardware(e.device)))
            && (e.DeviceStateChanged? ==> Field(m, "state") in ["true", "false"])
            && (e.MacDiscovered? ==> Field(m, "vendor") == io.vendor(e.mac))
  {
    hide MessageText, ReadEvent, Carried, Field, KindText;
    var hardware := HardwareOf(net, e.device, io.os);
    match e
    case DeviceEvidenceChanged(_, _, _, _) => EvidenceMessageRead(e, hardware, io);
    case MacEvidenceChanged(_, _, _, _, _) => EvidenceMessageRead(e, hardware, io);
    case MacDiscovered(_, _) => AddressMessageRead(e, hardware, io);
    case MacDisappeared(_, _) => AddressMessageRead(e, hardware, io);
    case _ => DeviceMessageRead(e, hardware, io);
  }

  /** Two events have the same message exactly when their carried parts are the same: clients cannot tell which
      device a state or evidence message is about, and nothing else is lost. */
  lemma SameMessage(net: NetState, e: Event, f: Event, io: DaemonIo)
    ensures Message(net, e, io) == Message(net, f, io) <==> Carried(e) == Carried(f)
  {
    MessageRead(net, e, io);
    MessageRead(net, f, io);
  }
}
