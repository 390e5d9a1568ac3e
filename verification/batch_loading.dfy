/** Batched key loads, and the rejection of unknown input fields. */
module BatchLoading {
  import opened Ordered

  /** The first occurrence of every element, in order. */
  function Firsts<K(==)>(keys: seq<K>): seq<K> {
    if keys == [] then []
    else
      var init := Firsts(keys[..|keys| - 1]);
      if keys[|keys| - 1] in keys[..|keys| - 1] then init else init + [keys[|keys| - 1]]
  }

  function Filter<K(==)>(keys: seq<K>, keep: K -> bool): seq<K> {
    if keys == [] then []
    else Filter(keys[..|keys| - 1], keep) + (if keep(keys[|keys| - 1]) then [keys[|keys| - 1]] else [])
  }

  predicate Distinct<K(==)>(keys: seq<K>) { forall i, j :: 0 <= i < j < |keys| ==> keys[i] != keys[j] }

  /** `k` first occurs in `keys` at `i`. */
  predicate FirstAt<K(==)>(keys: seq<K>, k: K, i: nat) { i < |keys| && keys[i] == k && k !in keys[..i] }

  /** Deduplication keeps every key once, and in the order of first occurrence. */
  lemma {:induction false} FirstsAreFirst<K>(keys: seq<K>)
    ensures forall k :: k in Firsts(keys) <==> k in keys
    ensures Distinct(Firsts(keys))
    decreases |keys|
  {
    if keys != [] {
      FirstsAreFirst(keys[..|keys| - 1]);
      assert keys == keys[..|keys| - 1] + [keys[|keys| - 1]];
    }
  }

  lemma {:induction false} FirstsInOrder<K>(keys: seq<K>, a: nat, b: nat, i: nat, j: nat)
    requires a < b < |Firsts(keys)|
    requires FirstAt(keys, Firsts(keys)[a], i) && FirstAt(keys, Firsts(keys)[b], j)
    ensures i < j
    decreases |keys|
  {
    var init, last := keys[..|keys| - 1], keys[|keys| - 1];
    FirstsAreFirst(init);
    if b < |Firsts(init)| {
      assert Firsts(init)[a] in init && Firsts(init)[b] in init;
      EarlyFirst(keys, Firsts(init)[a], i);
      EarlyFirst(keys, Firsts(init)[b], j);
      FirstsInOrder(init, a, b, i, j);
    } else {
      assert Firsts(init)[a] in init;
      EarlyFirst(keys, Firsts(init)[a], i);
      assert j < |init| ==> init[j] in init;
    }
  }

  lemma EarlyFirst<K>(keys: seq<K>, k: K, i: nat)
    requires keys != [] && k in keys[..|keys| - 1] && FirstAt(keys, k, i)
    ensures i < |keys| - 1 && FirstAt(keys[..|keys| - 1], k, i)
  {
    var init := keys[..|keys| - 1];
    assert init[..i] == keys[..i];
  }

  method DeduplicateKeys<K(==)>(keys: seq<K>) returns (unique: seq<K>)
    ensures unique == Firsts(keys)
  {
    var seen: set<K> := {};
    unique := [];
    for i := 0 to |keys|
      invariant unique == Firsts(keys[..i])
      invariant forall k :: k in seen <==> k in keys[..i]
    {
      assert keys[..i + 1][..i] == keys[..i];
      assert keys[..i + 1] == keys[..i] + [keys[i]];
      if keys[i] !in seen {
        seen := seen + {keys[i]};
        unique := unique + [keys[i]];
      }
    }
    assert keys[..|keys|] == keys;
  }

  function Find<K(==), V>(m: map<K, V>, k: K): Option<V> { if k in m then Some(m[k]) else None }

  /** A backing fetch that answers each key on its own. */
  ghost predicate Pointwise<K(!new), V(!new)>(fetch: seq<K> -> map<K, V>, one: K -> Option<V>) {
    forall ks, k :: k in ks ==> Find(fetch(ks), k) == one(k)
  }

  /** Batched loading with its misses.  The fetch is called once, on the
      deduplicated keys, and every load gets its answer in place. */
  method BatchWithMissing<K(==), V>(loads: seq<K>, fetch: seq<K> -> map<K, V>)
    returns (values: seq<Option<V>>, missing: seq<K>)
    ensures |values| == |loads|
    ensures forall i :: 0 <= i < |loads| ==> values[i] == Find(fetch(Firsts(loads)), loads[i])
    ensures missing == Filter(Firsts(loads), k => k !in fetch(Firsts(loads)))
  {
    var unique := DeduplicateKeys(loads);
    var fetched := fetch(unique);
    values := seq(|loads|, i requires 0 <= i < |loads| => Find(fetched, loads[i]));
    missing := Filter(unique, k => k !in fetched);
  }

  lemma {:induction false} FilterMember<K>(keys: seq<K>, keep: K -> bool, k: K)
    ensures k in Filter(keys, keep) <==> k in keys && keep(k)
    decreases |keys|
  {
    if keys != [] {
      FilterMember(keys[..|keys| - 1], keep, k);
      assert keys == keys[..|keys| - 1] + [keys[|keys| - 1]];
    }
  }

  /** Batching refines loading one by one: same answers in the same places, and
      the misses are exactly the distinct keys without an answer. */
  lemma BatchRefinesSingle<K(!new), V(!new)>(
    loads: seq<K>, fetch: seq<K> -> map<K, V>, one: K -> Option<V>, values: seq<Option<V>>, missing: seq<K>)
    requires Pointwise(fetch, one)
    requires |values| == |loads|
    requires forall i :: 0 <= i < |loads| ==> values[i] == Find(fetch(Firsts(loads)), loads[i])
    requires missing == Filter(Firsts(loads), k => k !in fetch(Firsts(loads)))
    ensures forall i :: 0 <= i < |loads| ==> values[i] == one(loads[i])
    ensures forall k :: k in missing <==> k in loads && one(k).None?
  {
    var unique := Firsts(loads);
    FirstsAreFirst(loads);
    forall i | 0 <= i < |loads| ensures values[i] == one(loads[i]) {
      assert loads[i] in unique;
    }
    forall k ensures k in missing <==> k in loads && one(k).None? {
      FilterMember(unique, (q: K) => q !in fetch(unique), k);
      if k in loads { assert Find(fetch(unique), k) == one(k); }
    }
  }

  // --------------------------------------------------------- unknown fields

  /** Deduplicating and filtering commute. */
  lemma {:induction false} FirstsOfFilter<K>(keys: seq<K>, keep: K -> bool)
    ensures Firsts(Filter(keys, keep)) == Filter(Firsts(keys), keep)
    decreases |keys|
  {
    if keys != [] {
      var init, last := keys[..|keys| - 1], keys[|keys| - 1];
      FirstsOfFilter(init, keep);
      FilterMember(init, keep, last);
      FirstsAppend(Filter(init, keep), last);
      FilterAppend(Firsts(init), last, keep);
      if !keep(last) { assert Filter(keys, keep) == Filter(init, keep); }
    }
  }

  lemma FirstsAppend<K>(keys: seq<K>, last: K)
    ensures Firsts(keys + [last]) == if last in keys then Firsts(keys) else Firsts(keys) + [last]
  {
    assert (keys + [last])[..|keys|] == keys;
  }

  lemma FilterAppend<K>(keys: seq<K>, last: K, keep: K -> bool)
    ensures Filter(keys + [last], keep) == Filter(keys, keep) + (if keep(last) then [last] else [])
  {
    assert (keys + [last])[..|keys|] == keys;
  }

  /** The unknown keys, once each, in the order they first appear: the same
      whether they are deduplicated before or after being selected. */
  method RejectUnknownFields(inputKeys: seq<string>, knownKeys: seq<string>) returns (unknown: seq<string>)
    ensures unknown == Firsts(Filter(inputKeys, k => k !in knownKeys))
    ensures unknown == Filter(Firsts(inputKeys), k => k !in knownKeys)
    ensures forall k :: k in unknown <==> k in inputKeys && k !in knownKeys
  {
    ghost var strange := (k: string) => k !in knownKeys;
    var seen: set<string> := {};
    unknown := [];
    for i := 0 to |inputKeys|
      invariant unknown == Firsts(Filter(inputKeys[..i], strange))
      invariant forall k :: k in seen <==> k in Filter(inputKeys[..i], strange)
    {
      assert inputKeys[..i + 1] == inputKeys[..i] + [inputKeys[i]];
      FilterAppend(inputKeys[..i], inputKeys[i], strange);
      FirstsAppend(Filter(inputKeys[..i], strange), inputKeys[i]);
      if inputKeys[i] !in knownKeys {
        if inputKeys[i] !in seen {
          seen := seen + {inputKeys[i]};
          unknown := unknown + [inputKeys[i]];
        }
      } else {
        assert Filter(inputKeys[..i + 1], strange) == Filter(inputKeys[..i], strange);
      }
    }
    assert inputKeys[..|inputKeys|] == inputKeys;
    UnknownAre(inputKeys, strange);
  }

  lemma UnknownAre(keys: seq<string>, keep: string -> bool)
    ensures Firsts(Filter(keys, keep)) == Filter(Firsts(keys), keep)
    ensures forall k :: k in Firsts(Filter(keys, keep)) <==> k in keys && keep(k)
  {
    FirstsOfFilter(keys, keep);
    FirstsAreFirst(Filter(keys, keep));
    forall k ensures k in Filter(keys, keep) <==> k in keys && keep(k) { FilterMember(keys, keep, k); }
  }
}
