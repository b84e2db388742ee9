/** The wire format of message trees: encoding, decoding, and why a stream of encodings can be cut apart. */
module Codec {
  import opened Basics
  import opened Trees

  const WORD := 4

  /** The k low bytes of a number, lowest first. */
  function Bytes(n: nat, k: nat): (r: string)
    ensures |r| == k
    decreases k
  {
    if k == 0 then [] else [(n % 256) as char] + Bytes(n / 256, k - 1)
  }

  function FromBytes(s: string): nat {
    if s == [] then 0 else s[0] as int + 256 * FromBytes(s[1..])
  }

  function Capacity(k: nat): nat {
    if k == 0 then 1 else 256 * Capacity(k - 1)
  }

  lemma {:induction false} FromBytesOfBytes(n: nat, k: nat)
    requires n < Capacity(k)
    ensures FromBytes(Bytes(n, k)) == n
  {
    if k > 0 {
      FromBytesOfBytes(n / 256, k - 1);
      assert Bytes(n, k)[1..] == Bytes(n / 256, k - 1);
    }
  }

  lemma {:induction false} BytesOfFromBytes(s: string)
    requires Octets(s)
    ensures Bytes(FromBytes(s), |s|) == s
  {
    if s != [] {
      BytesOfFromBytes(s[1..]);
      var low, rest := s[0] as int, FromBytes(s[1..]);
      assert (low + 256 * rest) % 256 == low && (low + 256 * rest) / 256 == rest;
      assert s == [s[0]] + s[1..];
    }
  }

  ghost predicate Octets(s: string) {
    forall i :: 0 <= i < |s| ==> s[i] as int < 256
  }

  /** The four bytes of an unsigned int in memory order of a little-endian machine; larger numbers are truncated. */
  function Le32(n: nat): (r: string)
    ensures |r| == WORD
  {
    Bytes(n, WORD)
  }

  function FromLe32(s: string): nat
    requires |s| >= WORD
  {
    FromBytes(s[..WORD])
  }

  lemma FromLe32OfLe32(n: nat, rest: string)
    requires n < 0x1_0000_0000
    ensures FromLe32(Le32(n) + rest) == n
  {
    assert Capacity(0) == 1 && Capacity(1) == 256 && Capacity(2) == 0x1_0000 && Capacity(3) == 0x100_0000;
    assert Capacity(WORD) == 0x1_0000_0000;
    FromBytesOfBytes(n, WORD);
    assert (Le32(n) + rest)[..WORD] == Le32(n);
  }

  // Encoding

  function Size(t: Tree): nat
    decreases t, 1
  {
    3 * WORD + |t.key| + |t.content| + SizeAll(t.subs)
  }

  function SizeAll(ts: seq<Tree>): nat
    decreases ts, 0
  {
    if ts == [] then 0 else SizeAll(ts[..|ts| - 1]) + Size(ts[|ts| - 1])
  }

  function Encode(t: Tree): (r: string)
    ensures |r| == Size(t)
    decreases t, 1
  {
    Header(t) + EncodeAll(t.subs)
  }

  function Header(t: Tree): (r: string)
    ensures |r| == 3 * WORD + |t.key| + |t.content|
  {
    Text(t.key) + Text(t.content) + Le32(|t.subs|)
  }

  /** A length word and the characters. */
  function Text(s: string): (r: string)
    ensures |r| == WORD + |s|
  {
    Le32(|s|) + s
  }

  function EncodeAll(ts: seq<Tree>): (r: string)
    ensures |r| == SizeAll(ts)
    decreases ts, 0
  {
    if ts == [] then [] else EncodeAll(ts[..|ts| - 1]) + Encode(ts[|ts| - 1])
  }

  const LIMIT := 0x8000_0000

  // Decoding

  /** A tree and the number of characters it took; None when the text ends too early. */
  type Parse<T> = Option<(T, nat)>

  /** A length word followed by that many characters. */
  function DecodeText(s: string): (r: Parse<string>)
    ensures r.Some? ==> WORD <= r.value.1 <= |s|
  {
    if |s| < WORD || |s| < WORD + FromLe32(s) then None
    else Some((s[WORD..WORD + FromLe32(s)], WORD + FromLe32(s)))
  }

  datatype Fields = Fields(key: string, content: string, count: nat)

  /** Key, content and number of children. */
  function DecodeHeader(s: string): (r: Parse<Fields>)
    ensures r.Some? ==> 3 * WORD <= r.value.1 <= |s|
  {
    match DecodeText(s)
    case None => None
    case Some((key, n)) =>
      match DecodeText(s[n..])
      case None => None
      case Some((content, m)) =>
        if |s| < n + m + WORD then None
        else Some((Fields(key, content, FromLe32(s[n + m..])), n + m + WORD))
  }

  function Decode(s: string): (r: Parse<Tree>)
    ensures r.Some? ==> 3 * WORD <= r.value.1 <= |s|
    decreases |s|, 0
  {
    match DecodeHeader(s)
    case None => None
    case Some((f, n)) =>
      match DecodeMany(s[n..], f.count)
      case None => None
      case Some((subs, k)) => Some((Tree(f.key, f.content, subs), n + k))
  }

  function DecodeMany(s: string, count: nat): (r: Parse<seq<Tree>>)
    ensures r.Some? ==> r.value.1 <= |s|
    decreases |s|, 1, count
  {
    if count == 0 then Some(([], 0))
    else
      match Decode(s)
      case None => None
      case Some((t, n)) =>
        match DecodeMany(s[n..], count - 1)
        case None => None
        case Some((ts, m)) => Some(([t] + ts, n + m))
  }

  // Round trip

  lemma DecodeTextOf(text: string, rest: string)
    requires |text| < LIMIT
    ensures DecodeText(Text(text) + rest) == Some((text, WORD + |text|))
  {
    assert Text(text) + rest == Le32(|text|) + (text + rest);
    FromLe32OfLe32(|text|, text + rest);
  }

  lemma {:induction false} SizeAllCons(ts: seq<Tree>)
    requires ts != []
    ensures SizeAll(ts) == Size(ts[0]) + SizeAll(ts[1..])
    ensures EncodeAll(ts) == Encode(ts[0]) + EncodeAll(ts[1..])
  {
    hide Encode, Size;
    if |ts| > 1 {
      SizeAllCons(ts[..|ts| - 1]);
      assert ts[..|ts| - 1][1..] == ts[1..][..|ts[1..]| - 1];
    }
  }

  lemma DecodeHeaderOf(t: Tree, rest: string)
    requires |t.key| < LIMIT && |t.content| < LIMIT && |t.subs| < LIMIT
    ensures DecodeHeader(Header(t) + rest) == Some((Fields(t.key, t.content, |t.subs|), |Header(t)|))
  {
    hide Text, Le32, FromLe32, DecodeText, Bytes, FromBytes;
    var s := Header(t) + rest;
    var count := Le32(|t.subs|);
    assert s == Text(t.key) + (Text(t.content) + (count + rest));
    DecodeTextOf(t.key, Text(t.content) + (count + rest));
    var n := WORD + |t.key|;
    assert s[n..] == Text(t.content) + (count + rest);
    DecodeTextOf(t.content, count + rest);
    assert s[n + WORD + |t.content|..] == count + rest;
    FromLe32OfLe32(|t.subs|, rest);
  }

  /** Every encoding decodes to its tree and its length, whatever follows it. */
  lemma {:induction false} DecodeOfEncode(t: Tree, rest: string)
    requires Size(t) < LIMIT
    ensures Decode(Encode(t) + rest) == Some((t, Size(t)))
    decreases t, 1
  {
    hide Le32, FromLe32, DecodeHeader, Header;
    SubCountBound(t.subs);
    var s := Encode(t) + rest;
    assert s == Header(t) + (EncodeAll(t.subs) + rest);
    DecodeHeaderOf(t, EncodeAll(t.subs) + rest);
    assert s[|Header(t)|..] == EncodeAll(t.subs) + rest;
    DecodeManyOfEncode(t.subs, rest);
  }

  lemma {:induction false} SubCountBound(ts: seq<Tree>)
    ensures |ts| <= SizeAll(ts)
    ensures forall i :: 0 <= i < |ts| ==> Size(ts[i]) <= SizeAll(ts)
  {
    if ts != [] {
      SubCountBound(ts[..|ts| - 1]);
    }
  }

  lemma {:induction false} DecodeManyOfEncode(ts: seq<Tree>, rest: string)
    requires SizeAll(ts) < LIMIT
    ensures DecodeMany(EncodeAll(ts) + rest, |ts|) == Some((ts, SizeAll(ts)))
    decreases ts, 0
  {
    hide Encode, Decode, Size;
    if ts == [] {
      assert EncodeAll(ts) + rest == rest;
    } else {
      SizeAllCons(ts);
      var s := EncodeAll(ts) + rest;
      assert s == Encode(ts[0]) + (EncodeAll(ts[1..]) + rest);
      DecodeOfEncode(ts[0], EncodeAll(ts[1..]) + rest);
      assert s[Size(ts[0])..] == EncodeAll(ts[1..]) + rest;
      DecodeManyOfEncode(ts[1..], rest);
      assert ts == [ts[0]] + ts[1..];
    }
  }

  /** No encoding is a prefix of another one. */
  lemma PrefixFree(a: Tree, b: Tree)
    requires Size(a) < LIMIT && Size(b) < LIMIT && Encode(a) <= Encode(b)
    ensures a == b
  {
    hide Encode, Decode, Size;
    DecodeOfEncode(a, Encode(b)[|Encode(a)|..]);
    DecodeOfEncode(b, []);
    assert Encode(a) + Encode(b)[|Encode(a)|..] == Encode(b) == Encode(b) + [];
  }

  /** A concatenation of encodings comes from one sequence of trees only. */
  lemma {:induction false} UniqueFraming(x: seq<Tree>, y: seq<Tree>)
    requires (forall i :: 0 <= i < |x| ==> Size(x[i]) < LIMIT) && (forall i :: 0 <= i < |y| ==> Size(y[i]) < LIMIT)
    requires EncodeAll(x) == EncodeAll(y)
    ensures x == y
  {
    hide Encode, Decode, Size;
    if x == [] || y == [] {
      SubCountBound(x);
      SubCountBound(y);
    } else {
      SizeAllCons(x);
      SizeAllCons(y);
      DecodeOfEncode(x[0], EncodeAll(x[1..]));
      DecodeOfEncode(y[0], EncodeAll(y[1..]));
      assert EncodeAll(x)[Size(x[0])..] == EncodeAll(x[1..]);
      assert EncodeAll(y)[Size(y[0])..] == EncodeAll(y[1..]);
      UniqueFraming(x[1..], y[1..]);
      assert x == [x[0]] + x[1..] && y == [y[0]] + y[1..];
    }
  }

  lemma DecodeTextExtends(s: string, rest: string)
    requires DecodeText(s).Some?
    ensures DecodeText(s + rest) == DecodeText(s)
  {
    hide FromBytes;
    assert (s + rest)[..WORD] == s[..WORD];
    assert FromLe32(s + rest) == FromLe32(s);
    assert (s + rest)[WORD..WORD + FromLe32(s)] == s[WORD..WORD + FromLe32(s)];
  }

  lemma DecodeHeaderExtends(s: string, rest: string)
    requires DecodeHeader(s).Some?
    ensures DecodeHeader(s + rest) == DecodeHeader(s)
  {
    hide DecodeText, FromBytes;
    var n := DecodeText(s).value.1;
    DecodeTextExtends(s, rest);
    assert (s + rest)[n..] == s[n..] + rest;
    var m := DecodeText(s[n..]).value.1;
    DecodeTextExtends(s[n..], rest);
    assert (s + rest)[n + m..] == s[n + m..] + rest;
    assert (s[n + m..] + rest)[..WORD] == s[n + m..][..WORD];
  }

  /** What follows a whole message does not change how it is read. */
  lemma {:induction false} DecodeExtends(s: string, rest: string)
    requires Decode(s).Some?
    ensures Decode(s + rest) == Decode(s)
    decreases |s|, 0
  {
    hide DecodeHeader;
    var (f, n) := DecodeHeader(s).value;
    DecodeHeaderExtends(s, rest);
    assert (s + rest)[n..] == s[n..] + rest;
    DecodeManyExtends(s[n..], f.count, rest);
  }

  lemma {:induction false} DecodeManyExtends(s: string, count: nat, rest: string)
    requires DecodeMany(s, count).Some?
    ensures DecodeMany(s + rest, count) == DecodeMany(s, count)
    decreases |s|, 1, count
  {
    hide Decode;
    if count > 0 {
      DecodeExtends(s, rest);
      var n := Decode(s).value.1;
      assert (s + rest)[n..] == s[n..] + rest;
      DecodeManyExtends(s[n..], count - 1, rest);
    }
  }

  // Canonical form

  /** A message that is cut short never reads as a message. */
  lemma PartNeverDecodes(t: Tree, k: nat)
    requires Size(t) < LIMIT && k < Size(t)
    ensures Decode(Encode(t)[..k]).None?
  {
    hide Encode, Decode, Size;
    var part, rest := Encode(t)[..k], Encode(t)[k..];
    assert part + rest == Encode(t) == Encode(t) + [];
    DecodeOfEncode(t, []);
    if Decode(part).Some? {
      DecodeExtends(part, rest);
    }
  }

  lemma Le32OfFromLe32(s: string)
    requires |s| >= WORD && Octets(s)
    ensures Le32(FromLe32(s)) == s[..WORD]
  {
    BytesOfFromBytes(s[..WORD]);
  }

  lemma TextOfDecode(s: string)
    requires Octets(s) && DecodeText(s).Some?
    ensures var (text, n) := DecodeText(s).value;
            Text(text) == s[..n]
  {
    hide FromBytes, Bytes;
    Le32OfFromLe32(s);
    var (text, n) := DecodeText(s).value;
    assert s[..n] == s[..WORD] + s[WORD..n];
  }

  lemma HeaderOfDecode(s: string, subs: seq<Tree>)
    requires Octets(s) && DecodeHeader(s).Some?
    requires |subs| == DecodeHeader(s).value.0.count
    ensures var (f, n) := DecodeHeader(s).value;
            Header(Tree(f.key, f.content, subs)) == s[..n]
  {
    hide Text, DecodeText, Le32, FromLe32;
    var (key, n) := DecodeText(s).value;
    var (content, m) := DecodeText(s[n..]).value;
    TextOfDecode(s);
    TextOfDecode(s[n..]);
    Le32OfFromLe32(s[n + m..]);
    assert s[..n + m + WORD] == s[..n] + s[n..][..m] + s[n + m..][..WORD];
  }

  /** Only the encoding of a tree decodes to it: the bytes used are the encoding of the result. */
  lemma {:induction false} EncodeOfDecode(s: string)
    requires Octets(s) && Decode(s).Some?
    ensures Encode(Decode(s).value.0) == s[..Decode(s).value.1]
    decreases |s|, 0
  {
    hide DecodeHeader, Header;
    var (f, n) := DecodeHeader(s).value;
    var (subs, k) := DecodeMany(s[n..], f.count).value;
    EncodeOfDecodeMany(s[n..], f.count);
    HeaderOfDecode(s, subs);
    assert s[..n + k] == s[..n] + s[n..][..k];
  }

  lemma {:induction false} EncodeOfDecodeMany(s: string, count: nat)
    requires Octets(s) && DecodeMany(s, count).Some?
    ensures var (ts, n) := DecodeMany(s, count).value;
            |ts| == count && EncodeAll(ts) == s[..n]
    decreases |s|, 1, count
  {
    hide Encode, Decode;
    if count > 0 {
      var (t, n) := Decode(s).value;
      EncodeOfDecode(s);
      EncodeOfDecodeMany(s[n..], count - 1);
      var (ts, m) := DecodeMany(s[n..], count - 1).value;
      SizeAllCons([t] + ts);
      assert ([t] + ts)[1..] == ts;
      assert s[..n + m] == s[..n] + s[n..][..m];
    }
  }
}
