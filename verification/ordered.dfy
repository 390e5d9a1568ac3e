/** Optional values, and `BTreeMap` iteration: the keys of a finite map in strictly
    ascending order. */
module Ordered {
  import opened Text

  datatype Option<+T> = None | Some(value: T)

  /** `Option::unwrap_or`. */
  function OrElse<T>(o: Option<T>, default: T): T {
    if o.Some? then o.value else default
  }

  function Get<V>(m: map<string, V>, k: string): Option<V> {
    if k in m then Some(m[k]) else None
  }

  lemma SameLookupsSameMap<V>(a: map<string, V>, b: map<string, V>)
    requires forall k :: Get(a, k) == Get(b, k)
    ensures a == b
  {
    forall k ensures k in a <==> k in b { assert Get(a, k) == Get(b, k); }
    forall k | k in a ensures a[k] == b[k] { assert Get(a, k) == Get(b, k); }
  }

  predicate Ascending(ks: seq<string>) {
    forall i, j :: 0 <= i < j < |ks| ==> Less(ks[i], ks[j])
  }

  predicate IsLeast(s: set<string>, m: string) {
    m in s && forall k :: k in s ==> k == m || Less(m, k)
  }

  lemma {:induction false} LeastExists(s: set<string>)
    requires s != {}
    ensures exists m :: IsLeast(s, m)
    decreases |s|
  {
    var x :| x in s;
    if s == {x} {
      assert IsLeast(s, x);
    } else {
      assert s == {x} + (s - {x});
      LeastExists(s - {x});
      var y :| IsLeast(s - {x}, y);
      LessTotal(x, y);
      var m := if Less(x, y) then x else y;
      forall k | k in s ensures k == m || Less(m, k) {
        if Less(x, y) && k != x && k != y { LessTransitive(x, y, k); }
      }
      assert IsLeast(s, m);
    }
  }

  lemma LeastUnique(s: set<string>, a: string, b: string)
    requires IsLeast(s, a) && IsLeast(s, b)
    ensures a == b
  {
    if a != b { LessAsymmetric(a, b); }
  }

  function Least(s: set<string>): (m: string)
    requires s != {}
    ensures IsLeast(s, m)
  {
    LeastExists(s);
    assert forall a, b :: IsLeast(s, a) && IsLeast(s, b) ==> a == b by {
      forall a, b | IsLeast(s, a) && IsLeast(s, b) ensures a == b { LeastUnique(s, a, b); }
    }
    var m :| IsLeast(s, m); m
  }

  /** The elements of `s` in strictly ascending order. */
  function Sorted(s: set<string>): (ks: seq<string>)
    ensures Ascending(ks)
    ensures forall k :: k in ks <==> k in s
    decreases |s|
  {
    if s == {} then [] else
      var m := Least(s);
      var rest := Sorted(s - {m});
      assert forall i :: 0 <= i < |rest| ==> rest[i] in s - {m};
      [m] + rest
  }

  /** An ascending sequence is determined by its elements. */
  lemma {:induction false} AscendingUnique(a: seq<string>, b: seq<string>)
    requires Ascending(a) && Ascending(b)
    requires forall k :: k in a <==> k in b
    ensures a == b
    decreases |a|
  {
    assert |b| > 0 ==> b[0] in a;
    if |a| > 0 {
      assert a[0] in b;
      assert b[0] in a;
      HeadIsLeast(a, b[0]);
      HeadIsLeast(b, a[0]);
      if a[0] != b[0] { LessAsymmetric(a[0], b[0]); }
      forall k ensures k in a[1..] <==> k in b[1..] {
        TailElements(a, k);
        TailElements(b, k);
      }
      AscendingUnique(a[1..], b[1..]);
      assert a == [a[0]] + a[1..] && b == [b[0]] + b[1..];
    }
  }

  lemma HeadIsLeast(a: seq<string>, k: string)
    requires Ascending(a) && k in a
    ensures k == a[0] || Less(a[0], k)
  {
  }

  lemma TailElements(a: seq<string>, k: string)
    requires Ascending(a) && |a| > 0
    ensures k in a[1..] <==> k in a && k != a[0]
  {
    if k in a && k != a[0] {
      var i :| 0 <= i < |a| && a[i] == k;
      assert a[1..][i - 1] == k;
    }
    if k in a[1..] {
      LessIrreflexive(k);
    }
  }

  /** Ascending sequences have no repetitions. */
  lemma AscendingDistinct(a: seq<string>, i: nat, j: nat)
    requires Ascending(a) && i < |a| && j < |a| && a[i] == a[j]
    ensures i == j
  {
    LessIrreflexive(a[i]);
  }
}
