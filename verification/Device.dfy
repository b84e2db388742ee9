/** A network device of the monitor: cached texts, status fields, and the ping that it broadcasts. */
module Devices {
  import opened Basics
  import opened Addresses
  import opened Checksums
  import opened NetworkModel
  import opened Frames

  // The ping

  const IP_CHECKSUM := 10
  const ICMP_CHECKSUM := 2

  /** The IP header of a ping with its checksum field zero: version 4, five words, total length field 84, don't
      fragment, time to live 64, protocol ICMP. */
  function PingHeader(source: Ip, destination: Ip): (r: seq<byte>)
    ensures |r| == 20 && r[IP_CHECKSUM] == 0 && r[IP_CHECKSUM + 1] == 0
  {
    [0x45, 0, 0, 84, 0, 0, 0x40, 0, 64, 1, 0, 0] + source + destination
  }

  /** The first 20 bytes of the echo request with its checksum field zero: type 8, process number, sequence
      number 12345 in host order, time of day in network order, zeros. */
  function PingMessage(process: Word, time: Stamp): (r: seq<byte>)
    ensures |r| == 20 && r[ICMP_CHECKSUM] == 0 && r[ICMP_CHECKSUM + 1] == 0
  {
    [8, 0, 0, 0, process % 256, process / 256, 0x39, 0x30] + time + [0, 0, 0, 0, 0, 0, 0, 0]
  }

  /** What stands in the header beside its checksum. */
  ghost predicate HeaderFields(header: seq<byte>, source: Ip, destination: Ip) {
    && |header| == 20 && header[0] == 0x45 && header[1] == 0 && header[2..4] == [0, 84] && header[4..6] == [0, 0]
    && header[6..8] == [0x40, 0] && header[8] == 64 && header[9] == 1
    && header[12..16] == source && header[16..] == destination
  }

  /** What stands in the echo request beside its checksum. */
  ghost predicate MessageFields(message: seq<byte>, process: Word, time: Stamp) {
    && |message| == 20 && message[0] == 8 && message[1] == 0
    && message[4] as int + 256 * message[5] as int == process && message[6] as int + 256 * message[7] as int == 12345
    && message[8..12] == time && forall i :: 12 <= i < 20 ==> message[i] == 0
  }

  /** The header with its checksum stored. */
  method SealHeader(own: Ip, destination: Ip) returns (header: seq<byte>)
    ensures header == Store(PingHeader(own, destination), IP_CHECKSUM, Immediate(PingHeader(own, destination)))
    ensures |header| == 20 && HeaderFields(header, own, destination) && Immediate(header) == 0
  {
    header := PingHeader(own, destination);
    StoredChecksumVerifies(header, IP_CHECKSUM);
    var check := IpHeaderChecksum(header);
    header := Store(header, IP_CHECKSUM, check);
  }

  /** The echo request with its checksum stored. */
  method SealMessage(process: Word, time: Stamp) returns (message: seq<byte>)
    ensures message == Store(PingMessage(process, time), ICMP_CHECKSUM, Deferred(PingMessage(process, time)))
    ensures |message| == 20 && MessageFields(message, process, time) && Deferred(message) == 0
  {
    message := PingMessage(process, time);
    StoredChecksumVerifies(message, ICMP_CHECKSUM);
    var check := IcmpHeaderChecksum(message);
    message := Store(message, ICMP_CHECKSUM, check);
  }

  // Devices

  /** Texts that a device caches: empty until known, then as the formatters make them. */
  type CachedMac = s: string | s == "" || EtherAton(s).Some? witness ""
  type CachedIp = s: string | s == "" || InetAton(s).Some? witness ""

  class Device {
    const name: string
    const hardware: HardwareType
    var up: bool
    var running: bool
    var mac: CachedMac
    var ip: CachedIp
    var broadcastIp: CachedIp
    var pingLastSent: real

    ghost function Info(): DeviceInfo
      reads this
    {
      DeviceInfo(name, hardware, up, running, mac, ip, broadcastIp, pingLastSent)
    }

    constructor (name: string, hardware: HardwareType)
      ensures Info() == FreshDevice(name, hardware)
    {
      this.name, this.hardware := name, hardware;
      up, running, mac, ip, broadcastIp, pingLastSent := false, false, "", "", "", 0.0;
    }

    /** The address text; the interface is asked once, afterwards the cached text is the answer. */
    method Mac(address: Address) returns (text: CachedMac)
      modifies this
      ensures text != ""
      ensures text == if old(mac) == "" then MacText(address) else old(mac)
      ensures Info() == old(Info()).(mac := text)
    {
      if mac == "" {
        EtherAtonOfMacText(address);
        mac := BufferFormat(address);
      }
      text := mac;
    }

    /** Builds and writes a ping from the device's own addresses, if both its IP addresses are known. */
    method SendPing(destinationIp: string, destinationMac: string, address: Address, io: PingIo)
      returns (ok: bool, sent: Option<seq<byte>>)
      requires InetAton(destinationIp).Some? && EtherAton(destinationMac).Some?
      modifies this
      ensures sent.Some? <==> old(ip) != "" && old(broadcastIp) != ""
      ensures ok <==> sent.Some? && io.written
      ensures Info() == old(Info()).(mac := if sent.Some? && old(mac) == "" then MacText(address) else old(mac))
      ensures sent.Some? ==> mac != "" && IsPing(sent.value, EtherAton(mac).value, InetAton(ip).value,
                                                 EtherAton(destinationMac).value, InetAton(destinationIp).value, io)
    {
      hide EtherAton, InetAton, MacText, Immediate, Deferred;
      ok, sent := false, None;
      if ip != "" && broadcastIp != "" {
        var header := SealHeader(InetAton(ip).value, InetAton(destinationIp).value);
        var message := SealMessage(io.process, io.time);
        var buffer := new byte[HEADER_LENGTH + 40](_ => 0);
        var own := Mac(address);
        var n := WrapInEthernetFrame(own, destinationMac, 0x0800, header + message, buffer);
        var frame := buffer[..n];
        assert frame[HEADER_LENGTH..HEADER_LENGTH + 20] == header && frame[HEADER_LENGTH + 20..] == message;
        sent := Some(frame);
        ok := io.written;
      }
    }

    /** Broadcasts at most one ping per interval, from the device's own addresses to everyone. The timer restarts even
        when no ping can be built because an address is still missing. */
    method SendPingBroadcast(time: real, interval: real, address: Address, io: PingIo)
      returns (ok: bool, sent: Option<seq<byte>>)
      modifies this
      ensures sent.Some? <==> Broadcasts(old(Info()), time, interval)
      ensures ok <==> sent.Some? && io.written
      ensures Info() == Pinged(old(Info()), time, interval, address)
      ensures sent.Some? ==> mac != "" && IsPing(sent.value, EtherAton(mac).value, InetAton(ip).value,
                                                 EVERYONE, [255, 255, 255, 255], io)
    {
      hide EtherAton, InetAton, MacText, IsPing;
      EveryoneParses();
      ok, sent := false, None;
      if time >= pingLastSent + interval {
        pingLastSent := time;
        ok, sent := SendPing("255.255.255.255", BROADCAST_MAC, address, io);
      }
    }
  }

  /** The frame carries, between the given addresses, an IP header and an echo request whose checksums verify. */
  ghost predicate IsPing(frame: seq<byte>, source: Address, own: Ip, destination: Address, target: Ip, io: PingIo) {
    && |frame| == HEADER_LENGTH + 40
    && frame[..6] == destination && frame[6..12] == source && frame[12..14] == [8, 0]
    && var header, message := frame[HEADER_LENGTH..HEADER_LENGTH + 20], frame[HEADER_LENGTH + 20..];
       && HeaderFields(header, own, target) && Immediate(header) == 0
       && MessageFields(message, io.process, io.time) && Deferred(message) == 0
  }

  const EVERYONE: Address := [255, 255, 255, 255, 255, 255]

  lemma EveryoneText()
    ensures MacText(EVERYONE) == BROADCAST_MAC
  {
    forall k | 0 <= k < 17 ensures MacText(EVERYONE)[k] == BROADCAST_MAC[k] {
      assert MacText(EVERYONE)[k] == MacChar(EVERYONE, k);
    }
  }

  lemma EveryoneParses()
    ensures InetAton("255.255.255.255") == Some([255, 255, 255, 255])
    ensures EtherAton(BROADCAST_MAC) == Some(EVERYONE)
  {
    hide InetAton, EtherAton, MacText;
    assert Decimal(255) == "255";
    assert IpText([255, 255, 255, 255]) == "255.255.255.255";
    InetAtonOfIpText([255, 255, 255, 255]);
    EveryoneText();
    EtherAtonOfMacText(EVERYONE);
  }

  ghost function Infos(devices: seq<Device>): (r: seq<DeviceInfo>)
    reads devices
    ensures |r| == |devices|
    ensures forall i :: 0 <= i < |r| ==> r[i] == devices[i].Info()
  {
    seq(|devices|, i requires 0 <= i < |devices| reads devices => devices[i].Info())
  }

  lemma InfosAppend(devices: seq<Device>, d: Device)
    ensures Infos(devices + [d]) == Infos(devices) + [d.Info()]
  {
    hide Infos;
  }

  /** What cutting out one device leaves. */
  lemma CutDevice(devices: seq<Device>, i: nat)
    requires i < |devices|
    ensures var left := devices[..i] + devices[i + 1..];
            && Infos(left) == Infos(devices)[..i] + Infos(devices)[i + 1..]
            && (forall d :: d in left ==> d in devices)
            && (Distinct(devices) ==> Distinct(left))
  {
    hide Infos;
    var left := devices[..i] + devices[i + 1..];
    forall k | 0 <= k < |left| ensures left[k] == devices[if k < i then k else k + 1] { }
    assert Infos(left) == Infos(devices)[..i] + Infos(devices)[i + 1..];
  }

  ghost predicate Distinct(devices: seq<Device>) {
    forall i, j :: 0 <= i < j < |devices| ==> devices[i] != devices[j]
  }
}
