/** Ethernet frames: building them from address texts and reading them as the monitor does. */
module Frames {
  import opened Basics
  import opened Addresses
  import opened NetworkModel

  function BigEndian(n: int): (r: seq<byte>)
    requires 0 <= n < 0x10000
    ensures |r| == 2
  {
    [n / 256, n % 256]
  }

  /** Destination, source and type in front of the payload. */
  function Frame(destination: Address, source: Address, etherType: int, payload: seq<byte>): seq<byte>
    requires 0 <= etherType < 0x10000
  {
    destination + source + BigEndian(etherType) + payload
  }

  method Copy(buffer: array<byte>, at: nat, data: seq<byte>)
    requires at + |data| <= buffer.Length
    modifies buffer
    ensures buffer[at..at + |data|] == data
    ensures forall i :: 0 <= i < buffer.Length && !(at <= i < at + |data|) ==> buffer[i] == old(buffer[i])
  {
    forall i | 0 <= i < |data| {
      buffer[at + i] := data[i];
    }
  }

  /** Zeroes the frame, then fills in the header, whose addresses are read from their texts, and the payload. */
  method WrapInEthernetFrame(sourceMac: string, destinationMac: string, etherType: int, payload: seq<byte>,
                             buffer: array<byte>) returns (n: nat)
    requires EtherAton(sourceMac).Some? && EtherAton(destinationMac).Some?
    requires 0 <= etherType < 0x10000 && HEADER_LENGTH + |payload| <= buffer.Length
    modifies buffer
    ensures n == HEADER_LENGTH + |payload|
    ensures buffer[..n] == Frame(EtherAton(destinationMac).value, EtherAton(sourceMac).value, etherType, payload)
    ensures buffer[n..] == old(buffer[n..])
  {
    hide EtherAton;
    n := HEADER_LENGTH + |payload|;
    Copy(buffer, 0, seq(n, _ => 0));
    var source := EtherAton(sourceMac).value;
    var destination := EtherAton(destinationMac).value;
    Copy(buffer, 0, Frame(destination, source, etherType, []));
    Copy(buffer, HEADER_LENGTH, payload);
    assert buffer[..n] == buffer[..HEADER_LENGTH] + buffer[HEADER_LENGTH..n];
  }

  /** What a device's read buffer holds after a frame arrived. */
  function Arrived(frame: seq<byte>): FrameBuffer
    requires |frame| <= FRAME_LENGTH
  {
    frame + seq(FRAME_LENGTH - |frame|, _ => 0)
  }

  /** Frame round trip: a frame built from address texts and read as the monitor does gives back the source text,
      the type and the payload. */
  lemma FrameRoundTrip(destination: Address, source: Address, etherType: int, payload: seq<byte>, at: real)
    requires 0 <= etherType < 0x10000 && HEADER_LENGTH + |payload| <= FRAME_LENGTH
    ensures EtherAton(MacText(source)) == Some(source) && EtherAton(MacText(destination)) == Some(destination)
    ensures var frame := Frame(destination, source, etherType, payload);
            var r := Reading(|frame|, Arrived(frame), at);
            && HasHeader(r) && SourceMac(r.buffer) == MacText(source) && EtherType(r.buffer) == etherType
            && r.buffer[HEADER_LENGTH..r.length] == payload
  {
    hide EtherAton, MacText;
    EtherAtonOfMacText(source);
    EtherAtonOfMacText(destination);
    var frame := Frame(destination, source, etherType, payload);
    var buffer := Arrived(frame);
    assert buffer[6..12] == source;
    assert buffer[12] as int * 256 + buffer[13] as int == etherType;
    assert buffer[HEADER_LENGTH..|frame|] == payload;
  }

  /** A frame that a known device sent itself leaves no trace in the monitor while device addresses are ignored. */
  lemma OwnFrameIgnored(s: NetState, i: nat, name: string, destination: Address, source: Address, etherType: int,
                        payload: seq<byte>, at: real)
    requires i < |s.devices| && s.devices[i].mac == MacText(source) && s.settings.ignoreDeviceMacs
    requires 0 <= etherType < 0x10000 && HEADER_LENGTH + |payload| <= FRAME_LENGTH
    ensures var frame := Frame(destination, source, etherType, payload);
            Hear(s, name, Reading(|frame|, Arrived(frame), at)) == s
  {
    FrameRoundTrip(destination, source, etherType, payload, at);
    assert !MacAllowed(s, MacText(source));
  }
}
