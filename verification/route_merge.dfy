/** Comparing a channel's aliases with its public-model routes, and merging the
    reviewed comparison back into the aliases. */
module RouteMerge {
  import opened Ordered
  import opened ModelAliases

  datatype Action = Create | Skip | Conflict

  datatype PreviewEntry = PreviewEntry(action: Action, from: string, to: string, previousTo: Option<string>)

  datatype Preview = Preview(
    channelId: string, expectedVersion: string,
    createCount: int, skipCount: int, conflictCount: int,
    entries: seq<PreviewEntry>)

  // ------------------------------------------------------- reading aliases

  /** The first alias named `from`, or `|ms|`: the one a merge rewrites. */
  function FirstAlias(ms: seq<ModelMapping>, from: string): (r: nat)
    ensures r <= |ms|
    ensures r < |ms| ==> ms[r].from == from
    ensures forall i :: 0 <= i < r ==> ms[i].from != from
  {
    if ms == [] || ms[0].from == from then 0
    else 1 + FirstAlias(ms[1..], from)
  }

  /** The target of the last alias named `from`: the one a preview reads. */
  function LastTo(ms: seq<ModelMapping>, from: string): Option<string> {
    if ms == [] then None
    else if ms[|ms| - 1].from == from then Some(ms[|ms| - 1].to)
    else LastTo(ms[..|ms| - 1], from)
  }

  lemma {:induction false} LastToIs(ms: seq<ModelMapping>, i: nat)
    requires i < |ms| && forall j :: i < j < |ms| ==> ms[j].from != ms[i].from
    ensures LastTo(ms, ms[i].from) == Some(ms[i].to)
    decreases |ms|
  {
    if i < |ms| - 1 { LastToIs(ms[..|ms| - 1], i); }
  }

  lemma {:induction false} LastToNone(ms: seq<ModelMapping>, from: string)
    ensures LastTo(ms, from).None? <==> forall j :: 0 <= j < |ms| ==> ms[j].from != from
    decreases |ms|
  {
    if ms != [] { LastToNone(ms[..|ms| - 1], from); }
  }

  lemma {:induction false} LastIndex(ms: seq<ModelMapping>, from: string) returns (i: nat)
    requires LastTo(ms, from).Some?
    ensures i < |ms| && ms[i].from == from && forall j :: i < j < |ms| ==> ms[j].from != from
    ensures LastTo(ms, from) == Some(ms[i].to)
    decreases |ms|
  {
    if ms[|ms| - 1].from == from {
      i := |ms| - 1;
    } else {
      i := LastIndex(ms[..|ms| - 1], from);
    }
  }

  // ------------------------------------------------------------ the preview

  function Compare(current: Option<string>, from: string, to: string): PreviewEntry {
    match current
    case None => PreviewEntry(Create, from, to, None)
    case Some(previous) =>
      PreviewEntry(if previous == to then Skip else Conflict, from, to, Some(previous))
  }

  function Froms(entries: seq<PreviewEntry>): (ks: seq<string>)
    ensures |ks| == |entries| && forall i :: 0 <= i < |entries| ==> ks[i] == entries[i].from
  {
    seq(|entries|, i requires 0 <= i < |entries| => entries[i].from)
  }

  /** One row per routed alias, in ascending order, comparing the last route of
      that alias with the last existing alias of that name. */
  ghost predicate Compares(existing: seq<ModelMapping>, routed: seq<ModelMapping>, entries: seq<PreviewEntry>) {
    && Ascending(Froms(entries))
    && (forall f :: f in Froms(entries) <==> LastTo(routed, f).Some?)
    && (forall i :: 0 <= i < |entries| ==> Reads(existing, routed, entries[i]))
  }

  predicate Reads(existing: seq<ModelMapping>, routed: seq<ModelMapping>, e: PreviewEntry) {
    LastTo(routed, e.from) == Some(e.to) && e == Compare(LastTo(existing, e.from), e.from, e.to)
  }

  function Count(entries: seq<PreviewEntry>, action: Action): nat {
    if entries == [] then 0
    else Count(entries[..|entries| - 1], action) + (if entries[|entries| - 1].action == action then 1 else 0)
  }

  /** `usize as i32`. */
  function AsI32(n: nat): int {
    var r := n % 0x1_0000_0000;
    if r < 0x8000_0000 then r else r - 0x1_0000_0000
  }

  /** Collecting pairs into an ordered map keeps the last value of each key. */
  method Collect(pairs: seq<ModelMapping>) returns (m: map<string, string>)
    ensures forall k :: Get(m, k) == LastTo(pairs, k)
  {
    m := map[];
    for i := 0 to |pairs|
      invariant forall k :: Get(m, k) == LastTo(pairs[..i], k)
    {
      assert pairs[..i + 1][..i] == pairs[..i];
      m := m[pairs[i].from := pairs[i].to];
    }
    assert pairs[..|pairs|] == pairs;
  }

  method BuildPreview(channelId: string, expectedVersion: string,
                      existing: seq<ModelMapping>, routed: seq<ModelMapping>)
    returns (preview: Preview)
    ensures preview.channelId == channelId && preview.expectedVersion == expectedVersion
    ensures Compares(existing, routed, preview.entries)
    ensures preview.createCount == AsI32(Count(preview.entries, Create))
    ensures preview.skipCount == AsI32(Count(preview.entries, Skip))
    ensures preview.conflictCount == AsI32(Count(preview.entries, Conflict))
  {
    var current := Collect(existing);
    var candidates := Collect(routed);
    var keys := Sorted(candidates.Keys);
    var entries := seq(|keys|, i requires 0 <= i < |keys| =>
      Compare(Get(current, keys[i]), keys[i], candidates[keys[i]]));
    assert Froms(entries) == keys;
    forall f ensures f in keys <==> LastTo(routed, f).Some? {
      assert Get(candidates, f) == LastTo(routed, f);
    }
    forall i | 0 <= i < |entries| ensures Reads(existing, routed, entries[i]) {
      assert Get(candidates, keys[i]) == LastTo(routed, keys[i]);
    }
    preview := Preview(channelId, expectedVersion, AsI32(Count(entries, Create)),
                       AsI32(Count(entries, Skip)), AsI32(Count(entries, Conflict)), entries);
  }

  /** The comparison is determined by the aliases and the routes. */
  lemma ComparisonUnique(existing: seq<ModelMapping>, routed: seq<ModelMapping>,
                         a: seq<PreviewEntry>, b: seq<PreviewEntry>)
    requires Compares(existing, routed, a) && Compares(existing, routed, b)
    ensures a == b
  {
    AscendingUnique(Froms(a), Froms(b));
    forall i | 0 <= i < |a| ensures a[i] == b[i] {
      assert Froms(a)[i] == Froms(b)[i];
      assert Reads(existing, routed, a[i]) && Reads(existing, routed, b[i]);
    }
  }

  lemma {:induction false} CountsCover(entries: seq<PreviewEntry>)
    ensures Count(entries, Create) + Count(entries, Skip) + Count(entries, Conflict) == |entries|
    decreases |entries|
  {
    if entries != [] { CountsCover(entries[..|entries| - 1]); }
  }

  lemma AsI32Exact(n: nat)
    ensures AsI32(n) <= n && (AsI32(n) == n <==> n < 0x8000_0000)
  {
  }

  /** The reported counts add up to the number of rows exactly when none of them
      overflows 32 bits. */
  lemma ReportedCounts(entries: seq<PreviewEntry>)
    ensures
      var c, s, x := Count(entries, Create), Count(entries, Skip), Count(entries, Conflict);
      AsI32(c) + AsI32(s) + AsI32(x) == |entries| <==> c < 0x8000_0000 && s < 0x8000_0000 && x < 0x8000_0000
  {
    CountsCover(entries);
    AsI32Exact(Count(entries, Create));
    AsI32Exact(Count(entries, Skip));
    AsI32Exact(Count(entries, Conflict));
  }

  // -------------------------------------------------------------- the merge

  function MergeEntry(ms: seq<ModelMapping>, e: PreviewEntry, replace: bool): seq<ModelMapping> {
    match e.action
    case Skip => ms
    case Create => ms + [ModelMapping(e.from, e.to)]
    case Conflict =>
      var i := FirstAlias(ms, e.from);
      if replace && i < |ms| then ms[i := ModelMapping(ms[i].from, e.to)] else ms
  }

  function Merge(ms: seq<ModelMapping>, entries: seq<PreviewEntry>, replace: bool): seq<ModelMapping> {
    if entries == [] then ms
    else MergeEntry(Merge(ms, entries[..|entries| - 1], replace), entries[|entries| - 1], replace)
  }

  method MergeMappings(existing: seq<ModelMapping>, preview: Preview, replaceConflicts: bool)
    returns (merged: seq<ModelMapping>)
    ensures merged == Merge(existing, preview.entries, replaceConflicts)
  {
    var entries := preview.entries;
    merged := existing;
    for n := 0 to |entries|
      invariant merged == Merge(existing, entries[..n], replaceConflicts)
    {
      assert entries[..n + 1][..n] == entries[..n];
      match entries[n].action {
        case Skip =>
        case Create => merged := merged + [ModelMapping(entries[n].from, entries[n].to)];
        case Conflict =>
          if replaceConflicts {
            var i := FirstAlias(merged, entries[n].from);
            if i < |merged| {
              merged := merged[i := merged[i].(to := entries[n].to)];
            }
          }
      }
    }
    assert entries[..|entries|] == entries;
  }

  // ------------------------------------------------- the shape of the merge

  /** The aliases a merge appends, in order. */
  function Created(entries: seq<PreviewEntry>): (ms: seq<ModelMapping>)
    ensures |ms| == Count(entries, Create)
  {
    if entries == [] then []
    else
      var e := entries[|entries| - 1];
      Created(entries[..|entries| - 1]) + (if e.action.Create? then [ModelMapping(e.from, e.to)] else [])
  }

  /** The target that the rows give to a conflicting alias. */
  function ConflictTo(entries: seq<PreviewEntry>, from: string): Option<string> {
    if entries == [] then None
    else
      var e := entries[|entries| - 1];
      if e.action.Conflict? && e.from == from then Some(e.to)
      else ConflictTo(entries[..|entries| - 1], from)
  }

  /** What a merge leaves at position `i` of the existing aliases. */
  function Rewritten(existing: seq<ModelMapping>, entries: seq<PreviewEntry>, replace: bool, i: nat): ModelMapping
    requires i < |existing|
  {
    var m := existing[i];
    var c := ConflictTo(entries, m.from);
    if replace && c.Some? && FirstAlias(existing, m.from) == i then ModelMapping(m.from, c.value) else m
  }

  /** Conflicting rows name aliases that exist. */
  predicate Grounded(existing: seq<ModelMapping>, entries: seq<PreviewEntry>) {
    forall n :: 0 <= n < |entries| && entries[n].action.Conflict? ==>
      FirstAlias(existing, entries[n].from) < |existing|
  }

  /** A merge rewrites the first alias of each conflicting row in place, when
      asked to, appends the created ones, and touches nothing else. */
  lemma {:induction false} MergeShape(existing: seq<ModelMapping>, entries: seq<PreviewEntry>, replace: bool)
    requires Grounded(existing, entries)
    ensures
      var merged := Merge(existing, entries, replace);
      && |merged| == |existing| + |Created(entries)|
      && merged[|existing|..] == Created(entries)
      && forall i :: 0 <= i < |existing| ==> merged[i] == Rewritten(existing, entries, replace, i)
    decreases |entries|
  {
    if entries != [] {
      var init, e := entries[..|entries| - 1], entries[|entries| - 1];
      MergeShape(existing, init, replace);
      var before := Merge(existing, init, replace);
      if e.action.Conflict? && replace {
        SameFirst(existing, before, e.from);
      }
    }
  }

  lemma SameFirst(existing: seq<ModelMapping>, merged: seq<ModelMapping>, from: string)
    requires FirstAlias(existing, from) < |existing| <= |merged|
    requires forall i :: 0 <= i < |existing| ==> merged[i].from == existing[i].from
    ensures FirstAlias(merged, from) == FirstAlias(existing, from)
  {
    var i, j := FirstAlias(existing, from), FirstAlias(merged, from);
    assert merged[i].from == from;
    assert j <= i;
    assert existing[j].from == from;
  }
}
