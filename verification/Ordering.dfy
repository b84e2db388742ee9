/** Key order of std::map<std::string, ...>: iteration visits the keys in lexicographic order. */
module Ordering {

  predicate Leq(a: string, b: string) {
    a == [] || (b != [] && (a[0] < b[0] || (a[0] == b[0] && Leq(a[1..], b[1..]))))
  }

  lemma {:induction false} LeqTotal(a: string, b: string)
    ensures Leq(a, b) || Leq(b, a)
  {
    if a != [] && b != [] && a[0] == b[0] {
      LeqTotal(a[1..], b[1..]);
    }
  }

  lemma {:induction false} LeqTransitive(a: string, b: string, c: string)
    requires Leq(a, b) && Leq(b, c)
    ensures Leq(a, c)
  {
    if a != [] && a[0] == b[0] == c[0] {
      LeqTransitive(a[1..], b[1..], c[1..]);
    }
  }

  lemma {:induction false} LeqAntisymmetric(a: string, b: string)
    requires Leq(a, b) && Leq(b, a)
    ensures a == b
  {
    if a != [] {
      LeqAntisymmetric(a[1..], b[1..]);
      assert a == [a[0]] + a[1..] && b == [b[0]] + b[1..];
    }
  }

  predicate IsLeast(k: string, keys: set<string>) {
    k in keys && forall other :: other in keys ==> Leq(k, other)
  }

  lemma {:induction false} LeastExists(keys: set<string>)
    requires keys != {}
    ensures exists k :: IsLeast(k, keys)
  {
    var k :| k in keys;
    LeqTotal(k, k);
    if keys == {k} {
      assert IsLeast(k, keys);
    } else {
      assert keys - {k} != {};
      LeastExists(keys - {k});
      var m :| IsLeast(m, keys - {k});
      LeqTotal(k, m);
      if Leq(m, k) {
        assert IsLeast(m, keys);
      } else {
        forall other | other in keys ensures Leq(k, other) {
          if other != k { LeqTransitive(k, m, other); }
        }
        assert IsLeast(k, keys);
      }
    }
  }

  function Least(keys: set<string>): (k: string)
    requires keys != {}
    ensures IsLeast(k, keys)
  {
    LeastExists(keys);
    assert forall a, b :: IsLeast(a, keys) && IsLeast(b, keys) ==> a == b by {
      forall a, b | IsLeast(a, keys) && IsLeast(b, keys) ensures a == b { LeqAntisymmetric(a, b); }
    }
    var k :| IsLeast(k, keys);
    k
  }

  /** The keys of a std::map in the order in which a range-for visits them. */
  function SortedKeys(keys: set<string>): (order: seq<string>)
    ensures forall k :: k in order <==> k in keys
    ensures |order| == |keys|
    decreases |keys|
  {
    if keys == {} then [] else
      var k := Least(keys);
      [k] + SortedKeys(keys - {k})
  }

  /** Each string comes before the later ones, and is none of them. */
  predicate Increasing(order: seq<string>) {
    forall i, j :: 0 <= i < j < |order| ==> Leq(order[i], order[j]) && order[i] != order[j]
  }

  lemma {:induction false} KeysIncrease(keys: set<string>)
    ensures Increasing(SortedKeys(keys))
    decreases |keys|
  {
    hide Increasing, Leq;
    if keys == {} {
      NothingIncreases();
    } else {
      var k := Least(keys);
      KeysIncrease(keys - {k});
      LeastFirst(k, SortedKeys(keys - {k}), keys);
    }
  }

  lemma NothingIncreases()
    ensures Increasing([])
  {
  }

  lemma LeastFirst(k: string, rest: seq<string>, keys: set<string>)
    requires IsLeast(k, keys) && Increasing(rest) && forall r :: r in rest ==> r in keys && r != k
    ensures Increasing([k] + rest)
  {
    hide Leq;
    forall j | 0 <= j < |rest| ensures Leq(k, rest[j]) && rest[j] != k { }
  }
}
