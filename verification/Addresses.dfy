/** Text forms of hardware and IP addresses. */
module Addresses {
  import opened Basics

  function HexDigit(n: int): (c: char)
    requires 0 <= n < 16
  {
    "0123456789abcdef"[n]
  }

  /** The value of a hexadecimal digit in either case, as the address parser of the C library reads it. */
  function HexValue(c: char): Option<int> {
    if '0' <= c <= '9' then Some(c as int - '0' as int)
    else if 'a' <= c <= 'f' then Some(c as int - 'a' as int + 10)
    else if 'A' <= c <= 'F' then Some(c as int - 'A' as int + 10)
    else None
  }

  /** Character k of the text of an address: two digits per byte, a colon after each byte but the last. */
  function MacChar(a: Address, k: nat): char
    requires k < 17
  {
    if k % 3 == 0 then HexDigit(a[k / 3] / 16)
    else if k % 3 == 1 then HexDigit(a[k / 3] % 16)
    else ':'
  }

  function MacText(a: Address): (text: string)
    ensures |text| == 17
  {
    seq(17, k requires 0 <= k < 17 => MacChar(a, k))
  }

  const ZERO_MAC := "00:00:00:00:00:00"
  const BROADCAST_MAC := "ff:ff:ff:ff:ff:ff"

  lemma HexValueOfDigit(n: int)
    requires 0 <= n < 16
    ensures HexValue(HexDigit(n)) == Some(n)
  {
  }

  lemma MacCharsOfGroup(a: Address, i: nat)
    requires i < 6
    ensures MacChar(a, 3 * i) == HexDigit(a[i] / 16)
    ensures MacChar(a, 3 * i + 1) == HexDigit(a[i] % 16)
    ensures i < 5 ==> MacChar(a, 3 * i + 2) == ':'
  {
  }

  /** The stream formatter of the monitor: two hexadecimal digits at a time, colons in between. */
  method StreamFormat(a: Address) returns (text: string)
    ensures text == MacText(a)
  {
    text := "";
    for i := 0 to 6
      invariant text == MacText(a)[..if i < 6 then 3 * i else 17]
    {
      text := text + [HexDigit(a[i] / 16), HexDigit(a[i] % 16)];
      assert text == MacText(a)[..3 * i + 2] by {
        assert MacText(a)[3 * i] == MacChar(a, 3 * i) && MacText(a)[3 * i + 1] == MacChar(a, 3 * i + 1);
      }
      if i < 5 {
        text := text + ":";
        assert MacText(a)[3 * i + 2] == MacChar(a, 3 * i + 2);
      }
    }
  }

  /** The fixed-offset formatter of a device: digits and colons are written into a 17-character buffer. */
  method BufferFormat(a: Address) returns (text: string)
    ensures text == MacText(a)
  {
    var buffer := new char[17](_ => '\0');
    var offset := 0;
    for i := 0 to 6
      invariant offset == if i < 6 then 2 * i else 11
      invariant forall k :: 0 <= k < 3 * i && k < 17 ==> buffer[k] == MacChar(a, k)
    {
      buffer[i + offset] := HexDigit(a[i] / 16);
      buffer[i + offset + 1] := HexDigit(a[i] % 16);
      offset := offset + 1;
      if i < 5 {
        offset := offset + 1;
        buffer[i + offset] := ':';
      }
      MacCharsOfGroup(a, i);
    }
    text := buffer[..];
  }

  /** Lower-case digits, the high one first, and no leading zeros left out. */
  lemma MacTextSample()
    ensures MacText([0x02, 0x00, 0x5e, 0xa0, 0xbc, 0x0f]) == "02:00:5e:a0:bc:0f"
  {
    var a: Address := [0x02, 0x00, 0x5e, 0xa0, 0xbc, 0x0f];
    var text := "02:00:5e:a0:bc:0f";
    forall k | 0 <= k < 17 ensures MacChar(a, k) == text[k] { }
    assert MacText(a) == text;
  }

  // ether_aton of the C library

  /** Reads the group that starts at position i: one or two digits and, before the sixth group, a colon.
      Gives the byte and the position after the group. */
  function ParseGroup(text: string, i: nat, group: nat): Option<(byte, nat)>
    requires i <= |text|
    ensures ParseGroup(text, i, group).Some? ==> i < ParseGroup(text, i, group).value.1 <= |text| + 1
  {
    if i >= |text| || HexValue(text[i]).None? then None else
    var high := HexValue(text[i]).value;
    var next := if i + 1 < |text| then text[i + 1] else '\0';
    if (group < 5 && next != ':') || (group == 5 && next != '\0' && next !in " \t\n\r") then
      if HexValue(next).None? then None else
      var value := high * 16 + HexValue(next).value;
      var after := if i + 2 < |text| then text[i + 2] else '\0';
      if group < 5 && after != ':' then None else Some((value, i + 3))
    else Some((high, i + 2))
  }

  function ParseFrom(text: string, i: nat, group: nat): (r: Option<seq<byte>>)
    requires group <= 6
    ensures r.Some? ==> |r.value| == 6 - group
    decreases 6 - group
  {
    if group == 6 then Some([])
    else if i > |text| then None
    else
      match ParseGroup(text, i, group)
      case None => None
      case Some((value, next)) =>
        match ParseFrom(text, next, group + 1)
        case None => None
        case Some(rest) => Some([value] + rest)
  }

  function EtherAton(text: string): Option<Address> {
    match ParseFrom(text, 0, 0)
    case None => None
    case Some(bytes) => Some(bytes)
  }

  lemma ParseGroupOfDigits(text: string, i: nat, group: nat, high: int, low: int)
    requires i + 1 < |text| && 0 <= high < 16 && 0 <= low < 16 && group < 6
    requires text[i] == HexDigit(high) && text[i + 1] == HexDigit(low)
    requires group < 5 ==> i + 2 < |text| && text[i + 2] == ':'
    ensures ParseGroup(text, i, group) == Some((high * 16 + low, i + 3))
  {
    HexValueOfDigit(high);
    HexValueOfDigit(low);
  }

  lemma ParseGroupOfMacText(a: Address, group: nat)
    requires group < 6
    ensures ParseGroup(MacText(a), 3 * group, group) == Some((a[group], 3 * (group + 1)))
  {
    hide ParseGroup;
    var text := MacText(a);
    MacCharsOfGroup(a, group);
    assert text[3 * group] == MacChar(a, 3 * group);
    assert text[3 * group + 1] == MacChar(a, 3 * group + 1);
    assert group < 5 ==> text[3 * group + 2] == MacChar(a, 3 * group + 2);
    ParseGroupOfDigits(text, 3 * group, group, a[group] / 16, a[group] % 16);
  }

  lemma {:induction false} ParseFromMacText(a: Address, group: nat)
    requires group <= 6
    ensures ParseFrom(MacText(a), 3 * group, group) == Some(a[group..])
    decreases 6 - group
  {
    hide MacText, ParseGroup;
    if group == 6 {
      assert a[group..] == [];
    } else {
      ParseGroupOfMacText(a, group);
      ParseFromMacText(a, group + 1);
      assert [a[group]] + a[group + 1..] == a[group..];
    }
  }

  /** The parser undoes the formatter. */
  lemma EtherAtonOfMacText(a: Address)
    ensures EtherAton(MacText(a)) == Some(a)
  {
    ParseFromMacText(a, 0);
  }

  /** Different addresses have different texts. */
  lemma MacTextInjective(a: Address, b: Address)
    requires MacText(a) == MacText(b)
    ensures a == b
  {
    EtherAtonOfMacText(a);
    EtherAtonOfMacText(b);
  }

  // inet_ntoa and inet_aton of the C library

  function Digit(n: int): char
    requires 0 <= n < 10
  {
    "0123456789"[n]
  }

  function Decimal(b: byte): string {
    if b < 10 then [Digit(b)]
    else if b < 100 then [Digit(b / 10), Digit(b % 10)]
    else [Digit(b / 100), Digit(b / 10 % 10), Digit(b % 10)]
  }

  function IpText(bytes: Ip): string {
    Decimal(bytes[0]) + "." + (Decimal(bytes[1]) + "." + (Decimal(bytes[2]) + "." + Decimal(bytes[3])))
  }

  predicate IsDigit(c: char) {
    '0' <= c <= '9'
  }

  function DigitValue(c: char): int {
    c as int - '0' as int
  }

  lemma IpTextSample()
    ensures IpText([192, 168, 1, 20]) == "192.168.1.20"
  {
    assert Decimal(192) == "192" && Decimal(168) == "168" && Decimal(1) == "1" && Decimal(20) == "20";
  }

  /** A byte in decimal without leading zeros. */
  function Octet(s: string): Option<byte> {
    if !(1 <= |s| <= 3) || (exists i :: 0 <= i < |s| && !IsDigit(s[i])) || (|s| > 1 && s[0] == '0') then None
    else
      var value := if |s| == 1 then DigitValue(s[0])
                   else if |s| == 2 then DigitValue(s[0]) * 10 + DigitValue(s[1])
                   else DigitValue(s[0]) * 100 + DigitValue(s[1]) * 10 + DigitValue(s[2]);
      if value < 256 then Some(value) else None
  }

  /** Index of the first dot, or the length. */
  function DotAt(s: string): (i: nat)
    ensures i <= |s| && (i < |s| ==> s[i] == '.') && forall j :: 0 <= j < i ==> s[j] != '.'
  {
    if s == [] || s[0] == '.' then 0 else 1 + DotAt(s[1..])
  }

  /** n bytes in decimal with dots between them. */
  function Octets(s: string, n: nat): (r: Option<seq<byte>>)
    requires 0 < n
    ensures r.Some? ==> |r.value| == n
  {
    var i := DotAt(s);
    if n == 1 then
      match Octet(s) case None => None case Some(b) => Some([b])
    else if i == |s| then None
    else
      match (Octet(s[..i]), Octets(s[i + 1..], n - 1))
      case (Some(b), Some(rest)) => Some([b] + rest)
      case _ => None
  }

  /** The address that a text in dotted decimal form names. */
  function InetAton(text: string): Option<Ip> {
    match Octets(text, 4) case None => None case Some(bytes) => Some(bytes)
  }

  lemma OctetOfDecimal(b: byte)
    ensures Octet(Decimal(b)) == Some(b)
    ensures forall i :: 0 <= i < |Decimal(b)| ==> Decimal(b)[i] != '.'
  {
    DigitIs(b % 10);
    DigitIs(b / 10 % 10);
    DigitIs(b / 100);
    assert b / 10 < 10 ==> b / 10 % 10 == b / 10;
    hide Digit, IsDigit, DigitValue;
  }

  lemma DigitIs(n: int)
    requires 0 <= n < 10
    ensures IsDigit(Digit(n)) && DigitValue(Digit(n)) == n && Digit(n) != '.' && (Digit(n) == '0' <==> n == 0)
  {
  }

  lemma OctetsOfDecimal(b: byte, text: string, n: nat)
    requires 1 < n && Octets(text, n - 1).Some?
    ensures Octets(Decimal(b) + "." + text, n) == Some([b] + Octets(text, n - 1).value)
  {
    var s := Decimal(b) + "." + text;
    OctetOfDecimal(b);
    assert forall i :: 0 <= i < |Decimal(b)| ==> s[i] == Decimal(b)[i];
    assert s[|Decimal(b)|] == '.';
    assert DotAt(s) == |Decimal(b)|;
    assert s[..DotAt(s)] == Decimal(b) && s[DotAt(s) + 1..] == text;
  }

  /** The parser undoes the formatter of IP addresses. */
  lemma InetAtonOfIpText(bytes: Ip)
    ensures InetAton(IpText(bytes)) == Some(bytes)
  {
    hide Octets, Octet, Decimal;
    var three := Decimal(bytes[3]);
    assert Octets(three, 1) == Some([bytes[3]]) by {
      LastOctet(bytes[3]);
    }
    var two := Decimal(bytes[2]) + "." + three;
    var one := Decimal(bytes[1]) + "." + two;
    OctetsOfDecimal(bytes[2], three, 2);
    OctetsOfDecimal(bytes[1], two, 3);
    OctetsOfDecimal(bytes[0], one, 4);
    assert IpText(bytes) == Decimal(bytes[0]) + "." + one;
    assert [bytes[0]] + ([bytes[1]] + ([bytes[2]] + [bytes[3]])) == bytes;
  }

  lemma LastOctet(b: byte)
    ensures Octets(Decimal(b), 1) == Some([b])
  {
    OctetOfDecimal(b);
  }
}
