/** The message class: a tree of objects that is written into and read from byte buffers. */
module Values {
  import opened Basics
  import opened Trees
  import opened Codec
  import opened Layouts

  class Value {
    var key: string
    var content: string
    var subs: seq<Value>
    ghost var Repr: set<Value>

    /** The children form a tree without cycles; a child may be shared. */
    ghost predicate Valid()
      reads this, Repr
      decreases Repr
    {
      this in Repr &&
      forall i :: 0 <= i < |subs| ==>
        subs[i] in Repr && subs[i].Repr <= Repr && this !in subs[i].Repr && subs[i].Valid()
    }

    /** The trees of the first k children. */
    ghost function Models(k: nat): (r: seq<Tree>)
      requires Valid() && k <= |subs|
      reads this, Repr
      ensures |r| == k && forall i :: 0 <= i < k ==> r[i] == subs[i].Model()
      decreases Repr, k
    {
      if k == 0 then [] else Models(k - 1) + [subs[k - 1].Model()]
    }

    /** The tree that the object stands for. */
    ghost function Model(): Tree
      requires Valid()
      reads this, Repr
      decreases Repr, |subs| + 1
    {
      Tree(key, content, Models(|subs|))
    }

    constructor (key: string, content: string)
      ensures Valid() && fresh(Repr)
      ensures Model() == Leaf(key, content)
    {
      this.key, this.content := key, content;
      subs, Repr := [], {this};
    }

    method Set(key: string, content: string)
      requires Valid()
      modifies this
      ensures Valid() && Repr == old(Repr)
      ensures Model() == old(Model()).(key := key, content := content)
    {
      this.key, this.content := key, content;
      assert forall i :: 0 <= i < |subs| ==> subs[i].Valid() && subs[i].Model() == old(subs[i].Model());
    }

    method Add(sub: Value)
      requires Valid() && sub.Valid() && this !in sub.Repr
      modifies this
      ensures Valid() && Repr == old(Repr) + sub.Repr
      ensures Model() == Trees.Add(old(Model()), old(sub.Model()))
    {
      subs := subs + [sub];
      Repr := Repr + sub.Repr;
      assert forall i :: 0 <= i < |subs| - 1 ==> subs[i].Valid() && subs[i].Model() == old(subs[i].Model());
      assert sub.Valid() && sub.Model() == old(sub.Model());
    }

    /** The first child with the key. */
    method Sub(key: string) returns (sub: Value?)
      requires Valid()
      ensures match Trees.Sub(Model(), key)
              case None => sub == null
              case Some(t) => sub != null && sub in Repr && sub.Valid() && sub.Model() == t
    {
      var i := 0;
      ghost var trees := Model().subs;
      while i < |subs|
        invariant i <= |subs|
        invariant SubIn(trees, key) == SubIn(trees[i..], key)
      {
        if subs[i].key == key {
          assert trees[i].key == key;
          return subs[i];
        }
        assert trees[i..][1..] == trees[i + 1..];
        i := i + 1;
      }
      sub := null;
    }

    /** Writes the encoding at the start of the given part of the buffer. Gives its length, or -1 exactly when it
        does not fit; nothing outside that part is written. */
    method Serialize(buffer: array<char>, start: nat, length: nat) returns (n: int)
      requires Valid() && Size(Model()) < LIMIT
      requires start + length <= buffer.Length && length < 0x1_0000_0000
      modifies buffer
      ensures n == if Size(Model()) <= length then Size(Model()) else -1
      ensures OutsideSame(old(buffer[..]), buffer[..], start, start + length)
      ensures n != -1 ==> buffer[..][start..start + n] == Encode(Model())
      ensures n != -1 ==> Laid(buffer[..][start..start + n], Model())
      decreases Repr, 1
    {
      hide Encode, Size, Header, EncodeAll, SizeAll, Laid, OutsideSame, Models;
      EncodeLaid(Model());
      ghost var before := buffer[..];
      EncodeSplit(Model());
      n := WriteHeader(buffer, start, start + length, Model(), key, content, |subs|);
      if n != -1 {
        ghost var headed := buffer[..];
        n := SerializeSubs(buffer, start, start + n, start + length);
        OutsideSameCompose(before, headed, buffer[..], start, start + length);
      }
    }

    /** The loop over the children: header is where the first child goes. */
    method SerializeSubs(buffer: array<char>, start: nat, header: nat, limit: nat) returns (n: int)
      requires Valid() && Size(Model()) < LIMIT
      requires start <= header <= limit <= buffer.Length && limit - start < 0x1_0000_0000
      requires buffer[..][start..header] == Header(Model())
      modifies buffer
      ensures n == if Size(Model()) <= limit - start then Size(Model()) else -1
      ensures OutsideSame(old(buffer[..]), buffer[..], start, limit)
      ensures n != -1 ==> buffer[..][start..start + n] == Encode(Model())
      decreases Repr, 0
    {
      hide Encode, Size, Header;
      ghost var before := buffer[..];
      WrittenStart(before, start, header, Model());
      OutsideSameCompose(before, before, before, start, limit);
      ChildModels();
      var position := header;
      for i := 0 to |subs|
        invariant start <= position <= limit && Written(buffer[..], start, position, Model(), i)
        invariant OutsideSame(before, buffer[..], start, limit)
      {
        ghost var now := buffer[..];
        var bytes := SerializeSub(buffer, start, position, limit, i);
        OutsideSameCompose(before, now, buffer[..], start, limit);
        if bytes == -1 {
          return -1;
        }
        position := position + bytes;
      }
      WrittenEnd(buffer[..], start, position, Model());
      n := position - start;
    }

    lemma ChildModels()
      requires Valid()
      ensures |Model().subs| == |subs|
    {
    }

    method SerializeSub(buffer: array<char>, start: nat, position: nat, limit: nat, i: nat) returns (bytes: int)
      requires Valid() && i < |subs| && Size(Model()) < LIMIT
      requires start <= position <= limit <= buffer.Length && limit - start < 0x1_0000_0000
      requires Written(buffer[..], start, position, Model(), i)
      modifies buffer
      ensures bytes == -1 || 0 <= bytes <= limit - position
      ensures bytes == -1 ==> Size(Model()) > limit - start
      ensures bytes != -1 ==> Written(buffer[..], start, position + bytes, Model(), i + 1)
      ensures OutsideSame(old(buffer[..]), buffer[..], start, limit)
      decreases Repr, 0, 0, 1
    {
      ghost var t := Model();
      EncodeSplit(t);
      ChildModels();
      ghost var before := buffer[..];
      WrittenTooMuch(before, start, position, t, i);
      bytes := SerializeChild(buffer, position, limit, i);
      SerializeSubLemma(before, buffer[..], start, position, limit, t, i, bytes);
    }

    method SerializeChild(buffer: array<char>, position: nat, limit: nat, i: nat) returns (bytes: int)
      requires Valid() && i < |subs| && i < |Model().subs| && Size(Model().subs[i]) < LIMIT
      requires position <= limit <= buffer.Length && limit - position < 0x1_0000_0000
      modifies buffer
      ensures bytes == if Size(Model().subs[i]) <= limit - position then Size(Model().subs[i]) else -1
      ensures OutsideSame(old(buffer[..]), buffer[..], position, limit)
      ensures bytes != -1 ==> buffer[..][position..position + bytes] == Encode(Model().subs[i])
      decreases Repr, 0, 0, 0
    {
      bytes := subs[i].Serialize(buffer, position, limit - position);
    }

    /** Reads one message from the buffer into this object: key and content are replaced, the children read are
        appended to those already there. The number of bytes used is the length of the message; the length
        argument of the source is not looked at, so a whole message must be there. */
    method Deserialize(buffer: array<char>, start: nat) returns (used: nat)
      requires Valid() && start <= buffer.Length && Decode(buffer[..][start..]).Some?
      modifies this
      ensures Valid() && fresh(Repr - old(Repr))
      ensures var (t, n) := Decode(buffer[..][start..]).value;
              used == n && Model() == t.(subs := old(Model()).subs + t.subs)
      decreases buffer.Length - start, 0, 0
    {
      hide DecodeHeader, DecodeMany;
      var fields, n := ReadHeader(buffer, start);
      Set(fields.key, fields.content);
      assert buffer[..][start..][n..] == buffer[..][start + n..];
      var end := DeserializeSubs(buffer, start + n, fields.count);
      used := end - start;
    }

    /** The loop over the children; gives the position after the last one. */
    method DeserializeSubs(buffer: array<char>, start: nat, count: nat) returns (end: nat)
      requires Valid() && start <= buffer.Length && DecodeMany(buffer[..][start..], count).Some?
      modifies this
      ensures Valid() && fresh(Repr - old(Repr)) && key == old(key) && content == old(content)
      ensures var (ts, n) := DecodeMany(buffer[..][start..], count).value;
              end == start + n && Model().subs == old(Model()).subs + ts
      decreases buffer.Length - start, 1, 0
    {
      hide Decode, DecodeMany, Model, Valid, Models;
      ghost var s := buffer[..];
      ghost var before := Model().subs;
      ghost var read: seq<Tree> := [];
      end := start;
      DecodedStart(s, start, count);
      assert before + read == before;
      for i := 0 to count
        invariant Valid() && fresh(Repr - old(Repr)) && key == old(key) && content == old(content)
        invariant Decoded(s, start, count, end, read, i)
        invariant Model().subs == before + read
      {
        DecodedStep(s, start, count, end, read, i);
        ghost var (t, m) := Decode(s[end..]).value;
        var n := DeserializeSub(buffer, end);
        assert before + read + [t] == before + (read + [t]);
        read := read + [t];
        end := end + n;
      }
      DecodedEnd(s, start, count, end, read);
    }

    /** Reads one child and appends it. */
    method DeserializeSub(buffer: array<char>, at: nat) returns (n: nat)
      requires Valid() && at <= buffer.Length && Decode(buffer[..][at..]).Some?
      modifies this
      ensures Valid() && fresh(Repr - old(Repr)) && key == old(key) && content == old(content)
      ensures var (t, m) := Decode(buffer[..][at..]).value;
              n == m && Model().subs == old(Model()).subs + [t]
      decreases buffer.Length - at, 0, 1
    {
      hide Decode, Models;
      var sub := new Value("", "");
      n := sub.Deserialize(buffer, at);
      assert sub.Model().subs == Decode(buffer[..][at..]).value.0.subs;
      Add(sub);
    }
  }

  // Buffers

  /** Two states of a buffer agree outside one part of it. */
  ghost predicate OutsideSame(x: string, y: string, start: nat, limit: nat) {
    |x| == |y| && forall i :: 0 <= i < |x| && (i < start || limit <= i) ==> x[i] == y[i]
  }

  lemma OutsideSameCompose(x: string, y: string, z: string, start: nat, limit: nat)
    ensures OutsideSame(x, x, start, limit)
    ensures OutsideSame(x, y, start, limit) && OutsideSame(y, z, start, limit) ==> OutsideSame(x, z, start, limit)
  {
  }

  lemma EncodeLaid(t: Tree)
    requires Size(t) < LIMIT
    ensures forall s :: s == Encode(t) ==> Laid(s, t)
  {
    hide Laid, Encode, Size;
    Layout(t);
  }

  lemma EncodeSplit(t: Tree)
    ensures Encode(t) == Header(t) + EncodeAll(t.subs)
    ensures Size(t) == |Header(t)| + SizeAll(t.subs)
    ensures forall i :: 0 <= i < |t.subs| ==> Size(t.subs[i]) <= SizeAll(t.subs)
  {
    hide Header;
    SubCountBound(t.subs);
  }

  lemma EncodeAllStep(ts: seq<Tree>, i: nat)
    requires i < |ts|
    ensures EncodeAll(ts[..i + 1]) == EncodeAll(ts[..i]) + Encode(ts[i])
    ensures SizeAll(ts[..i + 1]) == SizeAll(ts[..i]) + Size(ts[i])
    ensures SizeAll(ts[..i + 1]) <= SizeAll(ts)
  {
    hide Encode, Size;
    SizeAllPrefix(ts, i + 1);
    var front := ts[..i + 1];
    assert front[..i] == ts[..i] && front[i] == ts[i] && |front| == i + 1;
  }

  lemma {:induction false} SizeAllPrefix(ts: seq<Tree>, i: nat)
    requires i <= |ts|
    ensures SizeAll(ts[..i]) <= SizeAll(ts)
    decreases |ts| - i
  {
    hide Size;
    if i == |ts| {
      assert ts[..i] == ts;
    } else {
      SizeAllPrefix(ts, i + 1);
      assert ts[..i + 1][..i] == ts[..i];
    }
  }

  /** From start to position the header and the first i children are written. */
  ghost predicate Written(x: string, start: nat, position: nat, t: Tree, i: nat) {
    && i <= |t.subs| && start <= position <= |x|
    && x[start..position] == Header(t) + EncodeAll(t.subs[..i])
  }

  lemma WrittenStart(x: string, start: nat, header: nat, t: Tree)
    requires start <= header <= |x| && x[start..header] == Header(t)
    ensures Written(x, start, header, t, 0)
  {
    hide Header, Size, Encode;
    assert t.subs[..0] == [] && Header(t) + EncodeAll([]) == Header(t);
  }

  lemma SliceAppend(x: string, y: string, a: nat, b: nat, c: nat, limit: nat)
    requires a <= b <= c <= |x| && OutsideSame(x, y, b, limit)
    ensures y[a..c] == x[a..b] + y[b..c]
  {
    assert y[a..b] == x[a..b];
  }

  lemma WrittenStep(x: string, y: string, start: nat, position: nat, end: nat, limit: nat, t: Tree, i: nat)
    requires Written(x, start, position, t, i) && i < |t.subs|
    requires OutsideSame(x, y, position, limit) && position <= end <= |y| && y[position..end] == Encode(t.subs[i])
    ensures Written(y, start, end, t, i + 1)
  {
    hide Header, Size, Encode, EncodeAll, SizeAll;
    EncodeAllStep(t.subs, i);
    Glue(x, y, start, position, end, limit, Header(t), EncodeAll(t.subs[..i]), Encode(t.subs[i]));
  }

  lemma Glue(x: string, y: string, a: nat, b: nat, c: nat, limit: nat, h: string, e: string, f: string)
    requires a <= b <= c <= |x| && OutsideSame(x, y, b, limit)
    requires x[a..b] == h + e && y[b..c] == f
    ensures y[a..c] == h + (e + f)
  {
    SliceAppend(x, y, a, b, c, limit);
    assert h + e + f == h + (e + f);
  }

  lemma WrittenTooMuch(x: string, start: nat, position: nat, t: Tree, i: nat)
    requires Written(x, start, position, t, i) && i < |t.subs|
    ensures Size(t) >= position - start + Size(t.subs[i])
  {
    hide Header, Size, Encode, SizeAll, EncodeAll;
    EncodeSplit(t);
    EncodeAllStep(t.subs, i);
    assert |x[start..position]| == position - start;
  }

  lemma SerializeSubLemma(x: string, y: string, start: nat, position: nat, limit: nat, t: Tree, i: nat, bytes: int)
    requires Written(x, start, position, t, i) && i < |t.subs| && start <= position <= limit <= |x|
    requires OutsideSame(x, y, position, limit)
    requires bytes == if Size(t.subs[i]) <= limit - position then Size(t.subs[i]) else -1
    requires bytes != -1 ==> y[position..position + bytes] == Encode(t.subs[i])
    ensures OutsideSame(x, y, start, limit)
    ensures bytes == -1 ==> Size(t) > limit - start
    ensures bytes != -1 ==> Written(y, start, position + bytes, t, i + 1)
  {
    hide Header, Size, Encode, SizeAll, EncodeAll, Written;
    WrittenTooMuch(x, start, position, t, i);
    if bytes != -1 {
      WrittenStep(x, y, start, position, position + bytes, limit, t, i);
    }
  }

  lemma WrittenEnd(x: string, start: nat, position: nat, t: Tree)
    requires Written(x, start, position, t, |t.subs|)
    ensures start + Size(t) == position <= |x| && x[start..position] == Encode(t)
  {
    hide Header, Size, Encode, SizeAll, EncodeAll;
    EncodeSplit(t);
    assert t.subs[..|t.subs|] == t.subs;
    assert |x[start..position]| == position - start;
  }

  /** From start to position the first i of count trees are read. */
  ghost predicate Decoded(s: string, start: nat, count: nat, position: nat, read: seq<Tree>, i: nat) {
    && start <= position <= |s| && i <= count
    && DecodeMany(s[start..], count).Some? && DecodeMany(s[position..], count - i).Some?
    && DecodeMany(s[start..], count).value.0 == read + DecodeMany(s[position..], count - i).value.0
    && DecodeMany(s[start..], count).value.1 == position - start + DecodeMany(s[position..], count - i).value.1
  }

  lemma DecodedStart(s: string, start: nat, count: nat)
    requires start <= |s| && DecodeMany(s[start..], count).Some?
    ensures Decoded(s, start, count, start, [], 0)
  {
    hide DecodeMany;
    var rest := DecodeMany(s[start..], count).value.0;
    assert [] + rest == rest;
  }

  lemma DecodedStep(s: string, start: nat, count: nat, position: nat, read: seq<Tree>, i: nat)
    requires Decoded(s, start, count, position, read, i) && i < count
    ensures position <= |s| && Decode(s[position..]).Some?
    ensures var (t, n) := Decode(s[position..]).value;
            Decoded(s, start, count, position + n, read + [t], i + 1)
  {
    hide Decode;
    var (t, n) := Decode(s[position..]).value;
    assert s[position..][n..] == s[position + n..];
    var rest := DecodeMany(s[position + n..], count - i - 1).value.0;
    assert read + ([t] + rest) == read + [t] + rest;
  }

  lemma DecodedEnd(s: string, start: nat, count: nat, position: nat, read: seq<Tree>)
    requires Decoded(s, start, count, position, read, count)
    ensures DecodeMany(s[start..], count) == Some((read, position - start))
  {
    hide Decode;
    assert read + [] == read;
  }

  // Reading and writing pieces

  /** memcpy of a string into the buffer. */
  method Write(buffer: array<char>, at: nat, s: string)
    requires at + |s| <= buffer.Length
    modifies buffer
    ensures buffer[..][at..at + |s|] == s
    ensures OutsideSame(old(buffer[..]), buffer[..], at, at + |s|)
  {
    forall i | 0 <= i < |s| {
      buffer[at + i] := s[i];
    }
  }

  /** Appends a length word and a string to what is written, if they fit. */
  method WriteText(buffer: array<char>, start: nat, position: nat, limit: nat, s: string) returns (ok: bool)
    requires start <= position <= limit <= buffer.Length
    modifies buffer
    ensures ok <==> position + |Text(s)| <= limit
    ensures ok ==> buffer[..][start..position + |Text(s)|] == old(buffer[..])[start..position] + Text(s)
    ensures OutsideSame(old(buffer[..]), buffer[..], start, limit)
  {
    hide Bytes, Le32;
    ok := !(position + |s| + WORD > limit);
    ghost var before := buffer[..];
    if ok {
      Write(buffer, position, Le32(|s|));
      ghost var between := buffer[..];
      Write(buffer, position + WORD, s);
      SliceAppend(before, between, start, position, position + WORD, position + WORD);
      SliceAppend(between, buffer[..], start, position + WORD, position + WORD + |s|, position + WORD + |s|);
    }
  }

  /** Appends a number, if it fits. */
  method WriteWord(buffer: array<char>, start: nat, position: nat, limit: nat, n: nat) returns (ok: bool)
    requires start <= position <= limit <= buffer.Length
    modifies buffer
    ensures ok <==> position + WORD <= limit
    ensures ok ==> buffer[..][start..position + WORD] == old(buffer[..])[start..position] + Le32(n)
    ensures OutsideSame(old(buffer[..]), buffer[..], start, limit)
  {
    ok := !(position + WORD > limit);
    ghost var before := buffer[..];
    if ok {
      Write(buffer, position, Le32(n));
      SliceAppend(before, buffer[..], start, position, position + WORD, position + WORD);
    }
  }

  /** Writes key, content and the number of children; -1 when they do not fit. */
  method WriteHeader(buffer: array<char>, start: nat, limit: nat, ghost t: Tree, key: string, content: string,
                     count: nat)
    returns (n: int)
    requires start <= limit <= buffer.Length
    requires key == t.key && content == t.content && count == |t.subs|
    modifies buffer
    ensures n == if |Header(t)| <= limit - start then |Header(t)| else -1
    ensures n != -1 ==> buffer[..][start..start + n] == Header(t)
    ensures OutsideSame(old(buffer[..]), buffer[..], start, limit)
  {
    hide Bytes, Le32;
    n := -1;
    ghost var b0 := buffer[..];
    var ok := WriteText(buffer, start, start, limit, key);
    if ok {
      ghost var b1 := buffer[..];
      var position := start + |Text(key)|;
      assert b1[start..position] == Text(key);
      ok := WriteText(buffer, start, position, limit, content);
      OutsideSameCompose(b0, b1, buffer[..], start, limit);
      if ok {
        ghost var b2 := buffer[..];
        position := position + |Text(content)|;
        assert b2[start..position] == Text(key) + Text(content);
        ok := WriteWord(buffer, start, position, limit, count);
        OutsideSameCompose(b0, b2, buffer[..], start, limit);
        if ok {
          n := position + WORD - start;
        }
      }
    }
  }

  /** Reads a length word and that many characters. */
  method ReadText(buffer: array<char>, at: nat) returns (text: string, n: nat)
    requires at <= buffer.Length && DecodeText(buffer[..][at..]).Some?
    ensures (text, n) == DecodeText(buffer[..][at..]).value
  {
    assert buffer[at..] == buffer[..][at..];
    var length := FromLe32(buffer[at..]);
    text := buffer[at + WORD..at + WORD + length];
    assert buffer[..][at..][WORD..WORD + length] == text;
    n := WORD + length;
  }

  method ReadHeader(buffer: array<char>, at: nat) returns (fields: Fields, n: nat)
    requires at <= buffer.Length && DecodeHeader(buffer[..][at..]).Some?
    ensures (fields, n) == DecodeHeader(buffer[..][at..]).value
  {
    ghost var s := buffer[..];
    var key, k := ReadText(buffer, at);
    assert s[at..][k..] == s[at + k..];
    var content, m := ReadText(buffer, at + k);
    assert s[at..][k + m..] == s[at + k + m..] == buffer[at + k + m..];
    fields := Fields(key, content, FromLe32(buffer[at + k + m..]));
    n := k + m + WORD;
  }
}
