/** Where everything stands in an encoded message, byte by byte. */
module Layouts {
  import opened Basics
  import opened Trees
  import opened Codec

  /** The number that four bytes hold, the lowest byte first. */
  function Number(s: string, at: nat): int
    requires at + 4 <= |s|
  {
    s[at] as int + 256 * s[at + 1] as int + 0x1_0000 * s[at + 2] as int + 0x100_0000 * s[at + 3] as int
  }

  /** The bytes are those of the tree: the length of the key and the key, the length of the content and the content, the
      number of children, and the children back to back. */
  ghost predicate Laid(s: string, t: Tree)
    decreases t, 1
  {
    var p, c := |t.key|, |t.content|;
    && |s| == Size(t)
    && Number(s, 0) == p
    && s[4..4 + p] == t.key
    && Number(s, 4 + p) == c
    && s[8 + p..8 + p + c] == t.content
    && Number(s, 8 + p + c) == |t.subs|
    && LaidAll(s[12 + p + c..], t.subs)
  }

  ghost predicate LaidAll(s: string, ts: seq<Tree>)
    decreases ts, 0
  {
    if ts == [] then s == []
    else
      var n := SizeAll(ts[..|ts| - 1]);
      n <= |s| && LaidAll(s[..n], ts[..|ts| - 1]) && Laid(s[n..], ts[|ts| - 1])
  }

  lemma NumberOfLe32(n: nat, s: string, at: nat)
    requires n < 0x1_0000_0000 && at + 4 <= |s| && s[at..at + 4] == Le32(n)
    ensures Number(s, at) == n
  {
    var word := Le32(n);
    assert s[at] == word[0] && s[at + 1] == word[1] && s[at + 2] == word[2] && s[at + 3] == word[3];
    ByteOf(n, 4);
    ByteOf(n / 256, 3);
    ByteOf(n / 256 / 256, 2);
    ByteOf(n / 256 / 256 / 256, 1);
    hide Bytes;
    Digits(n);
  }

  lemma ByteOf(n: nat, k: nat)
    requires k > 0
    ensures Bytes(n, k)[0] as int == n % 256 && Bytes(n, k)[1..] == Bytes(n / 256, k - 1)
  {
  }

  lemma Digits(n: nat)
    requires n < 0x1_0000_0000
    ensures n == n % 256 + 256 * (n / 256 % 256) + 0x1_0000 * (n / 256 / 256 % 256)
                 + 0x100_0000 * (n / 256 / 256 / 256 % 256)
  {
    var a := n / 256;
    var b := a / 256;
    var c := b / 256;
    assert n == 256 * a + n % 256 && a == 256 * b + a % 256 && b == 256 * c + b % 256 && c < 256;
  }

  /** An encoding is laid out like this... */
  lemma {:induction false} Layout(t: Tree)
    requires Size(t) < LIMIT
    ensures Laid(Encode(t), t)
    decreases t, 1
  {
    hide Le32, Number, LaidAll;
    var s, p, c := Encode(t), |t.key|, |t.content|;
    SubCountBound(t.subs);
    EncodePieces(t);
    assert s[0..4] == Le32(p) && s[4..4 + p] == t.key && s[4 + p..8 + p] == Le32(c);
    assert s[8 + p..8 + p + c] == t.content && s[8 + p + c..12 + p + c] == Le32(|t.subs|);
    assert s[12 + p + c..] == EncodeAll(t.subs);
    NumberOfLe32(p, s, 0);
    NumberOfLe32(c, s, 4 + p);
    NumberOfLe32(|t.subs|, s, 8 + p + c);
    LayoutAll(t.subs);
  }

  lemma {:induction false} LayoutAll(ts: seq<Tree>)
    requires SizeAll(ts) < LIMIT
    ensures LaidAll(EncodeAll(ts), ts)
    decreases ts, 0
  {
    hide Laid, Encode, Size;
    if ts != [] {
      var front, last := ts[..|ts| - 1], ts[|ts| - 1];
      LayoutAll(front);
      Layout(last);
      assert EncodeAll(ts) == EncodeAll(front) + Encode(last);
      assert EncodeAll(ts)[..SizeAll(front)] == EncodeAll(front) && EncodeAll(ts)[SizeAll(front)..] == Encode(last);
    }
  }

  lemma Le32OfNumber(s: string, at: nat)
    requires at + 4 <= |s| && Octets(s)
    ensures s[at..at + 4] == Le32(Number(s, at))
  {
    var a, b, c, d := s[at], s[at + 1], s[at + 2], s[at + 3];
    var word := [a, b, c, d];
    assert s[at..at + 4] == word;
    assert Octets(word);
    BytesOfFromBytes(word);
    assert word[1..] == [b, c, d] && [b, c, d][1..] == [c, d] && [c, d][1..] == [d] && [d][1..] == [];
    assert FromBytes([d]) == d as int;
    assert FromBytes([c, d]) == c as int + 256 * d as int;
    assert FromBytes([b, c, d]) == b as int + 256 * FromBytes([c, d]);
  }

  lemma EncodePieces(t: Tree)
    ensures Encode(t) ==
            Le32(|t.key|) + (t.key + (Le32(|t.content|) + (t.content + (Le32(|t.subs|) + EncodeAll(t.subs)))))
  {
    hide Le32, EncodeAll;
  }

  lemma Pieces(s: string, p: nat, c: nat)
    requires 12 + p + c <= |s|
    ensures s == s[0..4] + (s[4..4 + p] + (s[4 + p..8 + p] + (s[8 + p..8 + p + c] +
                 (s[8 + p + c..12 + p + c] + s[12 + p + c..]))))
  {
  }

  /** ... and only an encoding is: the layout determines every byte. */
  lemma {:induction false} LayoutDetermines(s: string, t: Tree)
    requires Octets(s) && Laid(s, t)
    ensures s == Encode(t)
    decreases t, 1
  {
    hide Le32, LaidAll, Number, Encode, Header, Text;
    var p, c := |t.key|, |t.content|;
    Le32OfNumber(s, 0);
    Le32OfNumber(s, 4 + p);
    Le32OfNumber(s, 8 + p + c);
    LayoutDeterminesAll(s[12 + p + c..], t.subs);
    Pieces(s, p, c);
    EncodePieces(t);
  }

  lemma {:induction false} LayoutDeterminesAll(s: string, ts: seq<Tree>)
    requires Octets(s) && LaidAll(s, ts)
    ensures s == EncodeAll(ts)
    decreases ts, 0
  {
    hide Laid, Encode, Size;
    if ts != [] {
      var n := SizeAll(ts[..|ts| - 1]);
      LayoutDeterminesAll(s[..n], ts[..|ts| - 1]);
      LayoutDetermines(s[n..], ts[|ts| - 1]);
      assert s == s[..n] + s[n..];
    }
  }

  const DEVICES_LIST := Tree("request", "devices-list", [])

  const SEVEN := "\U{7}\U{0}\U{0}\U{0}"
  const TWELVE := "\U{c}\U{0}\U{0}\U{0}"
  const ZERO := "\U{0}\U{0}\U{0}\U{0}"

  /** The request as it stands on the wire. */
  const DEVICES_LIST_BYTES := SEVEN + ("request" + (TWELVE + ("devices-list" + ZERO)))

  lemma RequestBytes()
    ensures Encode(DEVICES_LIST) == DEVICES_LIST_BYTES
    ensures Decode(DEVICES_LIST_BYTES) == Some((DEVICES_LIST, 31))
  {
    hide Encode, Decode, Laid;
    RequestLaid();
    LayoutDetermines(DEVICES_LIST_BYTES, DEVICES_LIST);
    assert Encode(DEVICES_LIST) + [] == DEVICES_LIST_BYTES;
    DecodeOfEncode(DEVICES_LIST, []);
  }

  lemma RequestLaid()
    ensures Octets(DEVICES_LIST_BYTES) && Laid(DEVICES_LIST_BYTES, DEVICES_LIST) && Size(DEVICES_LIST) == 31
  {
    Glued(SEVEN, "request", TWELVE, "devices-list", ZERO);
    Letters();
    hide Octets;
    assert Number(SEVEN, 0) == 7 && Number(TWELVE, 0) == 12 && Number(ZERO, 0) == 0;
  }

  lemma Letters()
    ensures Octets("request") && Octets("devices-list") && Octets(SEVEN) && Octets(TWELVE) && Octets(ZERO)
  {
  }

  lemma Glued(a: string, key: string, b: string, content: string, z: string)
    requires |a| == |b| == |z| == 4
    ensures var s, p, c := a + (key + (b + (content + z))), |key|, |content|;
            && |s| == 12 + p + c
            && Number(s, 0) == Number(a, 0) && s[4..4 + p] == key && Number(s, 4 + p) == Number(b, 0)
            && s[8 + p..8 + p + c] == content && Number(s, 8 + p + c) == Number(z, 0) && s[12 + p + c..] == []
            && (Octets(a) && Octets(key) && Octets(b) && Octets(content) && Octets(z) ==> Octets(s))
  {
    var s, p, c := a + (key + (b + (content + z))), |key|, |content|;
    assert forall i :: 0 <= i < 4 ==> s[i] == a[i] && s[4 + p + i] == b[i] && s[8 + p + c + i] == z[i];
  }
}
