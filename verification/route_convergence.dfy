/** Previewing, merging and previewing again. */
module RouteConvergence {
  import opened Text
  import opened Ordered
  import opened ModelAliases
  import opened RouteMerge

  predicate DistinctFroms(ms: seq<ModelMapping>) {
    forall i, j :: 0 <= i < j < |ms| ==> ms[i].from != ms[j].from
  }

  /** `from` names exactly one alias. */
  predicate Single(ms: seq<ModelMapping>, from: string) {
    var i := FirstAlias(ms, from);
    i < |ms| && forall j :: i < j < |ms| ==> ms[j].from != from
  }

  // ------------------------------------------------ rows of one comparison

  lemma ComparesGrounded(existing: seq<ModelMapping>, routed: seq<ModelMapping>, entries: seq<PreviewEntry>)
    requires Compares(existing, routed, entries)
    ensures Grounded(existing, entries)
  {
    forall n | 0 <= n < |entries| && entries[n].action.Conflict?
      ensures FirstAlias(existing, entries[n].from) < |existing|
    {
      assert Reads(existing, routed, entries[n]);
      LastToNone(existing, entries[n].from);
    }
  }

  lemma {:induction false} ConflictToIs(entries: seq<PreviewEntry>, n: nat)
    requires Ascending(Froms(entries)) && n < |entries|
    ensures ConflictTo(entries, entries[n].from) == if entries[n].action.Conflict? then Some(entries[n].to) else None
    decreases |entries|
  {
    var init := entries[..|entries| - 1];
    assert Froms(init) == Froms(entries)[..|init|];
    if n < |init| {
      assert Less(Froms(entries)[n], Froms(entries)[|init|]);
      LessIrreflexive(entries[n].from);
      ConflictToIs(init, n);
    } else {
      forall k | 0 <= k < |init| ensures init[k].from != entries[n].from {
        assert Less(Froms(entries)[k], Froms(entries)[n]);
        LessIrreflexive(init[k].from);
      }
      ConflictToNone(init, entries[n].from);
    }
  }

  lemma {:induction false} ConflictToNone(entries: seq<PreviewEntry>, from: string)
    requires forall k :: 0 <= k < |entries| ==> entries[k].from != from
    ensures ConflictTo(entries, from).None?
    decreases |entries|
  {
    if entries != [] { ConflictToNone(entries[..|entries| - 1], from); }
  }

  /** Alias `m` is what row `n` creates. */
  predicate Creates(entries: seq<PreviewEntry>, n: nat, m: ModelMapping) {
    n < |entries| && entries[n].action.Create? && m == ModelMapping(entries[n].from, entries[n].to)
  }

  lemma {:induction false} CreatedFrom(entries: seq<PreviewEntry>, c: nat) returns (n: nat)
    requires c < |Created(entries)|
    ensures Creates(entries, n, Created(entries)[c])
    decreases |entries|
  {
    var init := entries[..|entries| - 1];
    if c < |Created(init)| { n := CreatedFrom(init, c); } else { n := |init|; }
  }

  lemma {:induction false} CreatedBy(entries: seq<PreviewEntry>, n: nat) returns (c: nat)
    requires n < |entries| && entries[n].action.Create?
    ensures c < |Created(entries)| && Creates(entries, n, Created(entries)[c])
    decreases |entries|
  {
    var init := entries[..|entries| - 1];
    if n < |init| { c := CreatedBy(init, n); } else { c := |Created(init)|; }
  }

  /** The created aliases come in ascending order. */
  lemma {:induction false} CreatedAscending(entries: seq<PreviewEntry>, i: nat, j: nat)
    requires Ascending(Froms(entries)) && i < j < |Created(entries)|
    ensures Less(Created(entries)[i].from, Created(entries)[j].from)
    decreases |entries|
  {
    var init := entries[..|entries| - 1];
    assert Froms(init) == Froms(entries)[..|init|];
    if j < |Created(init)| {
      CreatedAscending(init, i, j);
    } else {
      var n := CreatedFrom(init, i);
      assert Less(Froms(entries)[n], Froms(entries)[|init|]);
    }
  }

  // --------------------------------------------------- reading a merged list

  /** How the preview reads an alias after a merge: created rows are found,
      matching rows are kept, and a replaced conflict is seen only if its alias
      was the only one of that name. */
  lemma ReadAfterMerge(existing: seq<ModelMapping>, routed: seq<ModelMapping>, entries: seq<PreviewEntry>,
                       replace: bool, n: nat)
    requires Compares(existing, routed, entries) && n < |entries|
    ensures
      var e := entries[n];
      LastTo(Merge(existing, entries, replace), e.from) ==
        if e.action.Conflict? && !(replace && Single(existing, e.from)) then e.previousTo else Some(e.to)
  {
    var e, merged := entries[n], Merge(existing, entries, replace);
    ComparesGrounded(existing, routed, entries);
    MergeShape(existing, entries, replace);
    ConflictToIs(entries, n);
    assert Reads(existing, routed, e);
    LastToNone(existing, e.from);
    if e.action.Create? {
      var c := CreatedBy(entries, n);
      LastCreated(merged, existing, entries, c);
    } else {
      var i := LastIndex(existing, e.from);
      NotCreated(entries, n);
      LastUntouched(merged, existing, entries, e.from, i);
    }
  }

  lemma LastCreated(merged: seq<ModelMapping>, existing: seq<ModelMapping>, entries: seq<PreviewEntry>, c: nat)
    requires Ascending(Froms(entries)) && c < |Created(entries)|
    requires |merged| == |existing| + |Created(entries)| && merged[|existing|..] == Created(entries)
    ensures LastTo(merged, Created(entries)[c].from) == Some(Created(entries)[c].to)
  {
    var i := |existing| + c;
    assert merged[i] == Created(entries)[c];
    forall j | i < j < |merged| ensures merged[j].from != merged[i].from {
      assert merged[j] == Created(entries)[j - |existing|];
      CreatedAscending(entries, c, j - |existing|);
      LessIrreflexive(merged[i].from);
    }
    LastToIs(merged, i);
  }

  lemma NotCreated(entries: seq<PreviewEntry>, n: nat)
    requires Ascending(Froms(entries)) && n < |entries| && !entries[n].action.Create?
    ensures forall c :: 0 <= c < |Created(entries)| ==> Created(entries)[c].from != entries[n].from
  {
    forall c | 0 <= c < |Created(entries)| ensures Created(entries)[c].from != entries[n].from {
      var k := CreatedFrom(entries, c);
      if entries[k].from == entries[n].from { AscendingDistinct(Froms(entries), k, n); }
    }
  }

  lemma LastUntouched(merged: seq<ModelMapping>, existing: seq<ModelMapping>, entries: seq<PreviewEntry>,
                      from: string, i: nat)
    requires |merged| == |existing| + |Created(entries)| && merged[|existing|..] == Created(entries)
    requires forall k :: 0 <= k < |existing| ==> merged[k].from == existing[k].from
    requires forall c :: 0 <= c < |Created(entries)| ==> Created(entries)[c].from != from
    requires i < |existing| && existing[i].from == from && forall j :: i < j < |existing| ==> existing[j].from != from
    ensures LastTo(merged, from) == Some(merged[i].to)
  {
    forall j | i < j < |merged| ensures merged[j].from != merged[i].from {
      if j >= |existing| { assert merged[j] == Created(entries)[j - |existing|]; }
    }
    LastToIs(merged, i);
  }

  // ----------------------------------------------------------- convergence

  /** The row that a rebuilt preview shows for row `e` of the reviewed one. */
  function Rebuilt(existing: seq<ModelMapping>, e: PreviewEntry, replace: bool): PreviewEntry {
    if e.action.Conflict? && !(replace && Single(existing, e.from)) then e
    else PreviewEntry(Skip, e.from, e.to, Some(e.to))
  }

  /** Rebuilding the preview after a merge, row by row, for any aliases. */
  lemma RebuiltRows(existing: seq<ModelMapping>, routed: seq<ModelMapping>, entries: seq<PreviewEntry>,
                    replace: bool, again: seq<PreviewEntry>)
    requires Compares(existing, routed, entries)
    requires Compares(Merge(existing, entries, replace), routed, again)
    ensures |again| == |entries|
    ensures forall n :: 0 <= n < |entries| ==> again[n] == Rebuilt(existing, entries[n], replace)
  {
    AscendingUnique(Froms(entries), Froms(again));
    assert |again| == |Froms(again)| == |entries|;
    forall n | 0 <= n < |entries| ensures again[n] == Rebuilt(existing, entries[n], replace) {
      assert Froms(again)[n] == Froms(entries)[n];
      assert Reads(existing, routed, entries[n]);
      assert Reads(Merge(existing, entries, replace), routed, again[n]);
      ReadAfterMerge(existing, routed, entries, replace, n);
    }
  }

  ghost predicate AllSkip(entries: seq<PreviewEntry>) {
    forall n :: 0 <= n < |entries| ==> entries[n].action.Skip?
  }

  /** A merge that replaces conflicts converges exactly when no conflicting
      alias is stored twice. */
  lemma ConvergesIff(existing: seq<ModelMapping>, routed: seq<ModelMapping>, entries: seq<PreviewEntry>,
                     again: seq<PreviewEntry>)
    requires Compares(existing, routed, entries)
    requires Compares(Merge(existing, entries, true), routed, again)
    ensures AllSkip(again) <==>
      forall n :: 0 <= n < |entries| && entries[n].action.Conflict? ==> Single(existing, entries[n].from)
  {
    RebuiltRows(existing, routed, entries, true, again);
    if AllSkip(again) {
      forall n | 0 <= n < |entries| && entries[n].action.Conflict? ensures Single(existing, entries[n].from) {
        assert again[n].action.Skip?;
      }
    }
  }

  /** With distinct aliases the replacing merge converges: one row per routed
      alias, all of them matching. */
  lemma DistinctConverges(existing: seq<ModelMapping>, routed: seq<ModelMapping>, entries: seq<PreviewEntry>,
                          again: seq<PreviewEntry>)
    requires DistinctFroms(existing)
    requires Compares(existing, routed, entries)
    requires Compares(Merge(existing, entries, true), routed, again)
    ensures AllSkip(again) && Froms(again) == Froms(entries)
  {
    ComparesGrounded(existing, routed, entries);
    RebuiltRows(existing, routed, entries, true, again);
    ConvergesIff(existing, routed, entries, again);
  }

  /** Duplicates defeat it: the merge rewrites the first copy, the preview reads
      the last. */
  lemma DuplicatesDiverge(a: string, stale: string, target: string)
    requires stale != target
    ensures
      var existing := [ModelMapping(a, target), ModelMapping(a, stale)];
      var row := PreviewEntry(Conflict, a, target, Some(stale));
      && Compares(existing, [ModelMapping(a, target)], [row])
      && Merge(existing, [row], true) == existing
  {
    var existing := [ModelMapping(a, target), ModelMapping(a, stale)];
    var row := PreviewEntry(Conflict, a, target, Some(stale));
    var routed := [ModelMapping(a, target)];
    assert [row][..0] == [];
    assert Merge(existing, [row][..0], true) == existing;
    forall f ensures f in Froms([row]) <==> LastTo(routed, f).Some? {
      assert Froms([row])[0] == a;
      LastToNone(routed, f);
    }
    LastToIs(existing, 1);
    LastToIs(routed, 0);
    assert Reads(existing, routed, row);
  }

  /** Merging keeps aliases distinct, whatever is replaced. */
  lemma MergeKeepsDistinct(existing: seq<ModelMapping>, routed: seq<ModelMapping>, entries: seq<PreviewEntry>,
                           replace: bool)
    requires DistinctFroms(existing) && Compares(existing, routed, entries)
    ensures DistinctFroms(Merge(existing, entries, replace))
  {
    var merged := Merge(existing, entries, replace);
    ComparesGrounded(existing, routed, entries);
    MergeShape(existing, entries, replace);
    forall i, j | 0 <= i < j < |merged| ensures merged[i].from != merged[j].from {
      if j >= |existing| {
        var c := j - |existing|;
        assert merged[j] == Created(entries)[c];
        if i >= |existing| {
          assert merged[i] == Created(entries)[i - |existing|];
          CreatedAscending(entries, i - |existing|, c);
          LessIrreflexive(merged[i].from);
        } else {
          var n := CreatedFrom(entries, c);
          assert Reads(existing, routed, entries[n]);
          LastToNone(existing, entries[n].from);
        }
      }
    }
  }

  // ------------------------------------------------------------ idempotence

  lemma {:induction false} SettledMergesToItself(merged: seq<ModelMapping>, rows: seq<PreviewEntry>, replace: bool)
    requires forall n :: 0 <= n < |rows| ==> Settled(merged, rows[n], replace)
    ensures Merge(merged, rows, replace) == merged
    decreases |rows|
  {
    if rows != [] {
      SettledMergesToItself(merged, rows[..|rows| - 1], replace);
      assert Settled(merged, rows[|rows| - 1], replace);
    }
  }

  /** Row `e` asks nothing of `merged` that it does not already have. */
  predicate Settled(merged: seq<ModelMapping>, e: PreviewEntry, replace: bool) {
    match e.action
    case Skip => true
    case Create => false
    case Conflict =>
      var i := FirstAlias(merged, e.from);
      !replace || (i < |merged| && merged[i].to == e.to)
  }

  lemma ConflictSettled(existing: seq<ModelMapping>, routed: seq<ModelMapping>, entries: seq<PreviewEntry>, n: nat)
    requires Compares(existing, routed, entries) && n < |entries| && entries[n].action.Conflict?
    ensures Settled(Merge(existing, entries, true), entries[n], true)
  {
    var e, merged := entries[n], Merge(existing, entries, true);
    ComparesGrounded(existing, routed, entries);
    MergeShape(existing, entries, true);
    ConflictToIs(entries, n);
    var i := FirstAlias(existing, e.from);
    assert merged[i] == Rewritten(existing, entries, true, i);
    SameFirst(existing, merged, e.from);
  }

  /** Previewing and merging a second time changes nothing, in either mode and
      even with duplicate aliases. */
  lemma MergeIdempotent(existing: seq<ModelMapping>, routed: seq<ModelMapping>, entries: seq<PreviewEntry>,
                        replace: bool, again: seq<PreviewEntry>)
    requires Compares(existing, routed, entries)
    requires Compares(Merge(existing, entries, replace), routed, again)
    ensures Merge(Merge(existing, entries, replace), again, replace) == Merge(existing, entries, replace)
  {
    var merged := Merge(existing, entries, replace);
    RebuiltRows(existing, routed, entries, replace, again);
    forall n | 0 <= n < |again| ensures Settled(merged, again[n], replace) {
      if replace && again[n].action.Conflict? {
        ConflictSettled(existing, routed, entries, n);
      }
    }
    SettledMergesToItself(merged, again, replace);
  }

  // ------------------------------------------------------------- safe merge

  lemma {:induction false} SafeCounts(existing: seq<ModelMapping>, entries: seq<PreviewEntry>, again: seq<PreviewEntry>)
    requires |again| == |entries|
    requires forall n :: 0 <= n < |entries| ==> again[n] == Rebuilt(existing, entries[n], false)
    ensures Count(again, Create) == 0
    ensures Count(again, Conflict) == Count(entries, Conflict)
    ensures Count(again, Skip) == Count(entries, Skip) + Count(entries, Create)
    decreases |entries|
  {
    if entries != [] { SafeCounts(existing, entries[..|entries| - 1], again[..|again| - 1]); }
  }

  lemma SafeShape(existing: seq<ModelMapping>, routed: seq<ModelMapping>, entries: seq<PreviewEntry>)
    requires Compares(existing, routed, entries)
    ensures Merge(existing, entries, false) == existing + Created(entries)
  {
    ComparesGrounded(existing, routed, entries);
    MergeShape(existing, entries, false);
    var merged := Merge(existing, entries, false);
    assert merged[..|existing|] == existing;
    assert merged == merged[..|existing|] + merged[|existing|..];
  }

  /** Without replacement every existing alias keeps its place and target, the
      created ones follow in ascending order, and the rebuilt preview turns
      exactly the creates into skips and repeats the conflicts. */
  lemma SafeMerge(existing: seq<ModelMapping>, routed: seq<ModelMapping>, entries: seq<PreviewEntry>,
                  again: seq<PreviewEntry>)
    requires Compares(existing, routed, entries)
    requires Compares(Merge(existing, entries, false), routed, again)
    ensures Merge(existing, entries, false) == existing + Created(entries)
    ensures forall i, j :: 0 <= i < j < |Created(entries)| ==> Less(Created(entries)[i].from, Created(entries)[j].from)
    ensures |Created(entries)| == Count(entries, Create)
    ensures Count(again, Create) == 0
    ensures Count(again, Skip) == Count(entries, Skip) + Count(entries, Create)
    ensures Count(again, Conflict) == Count(entries, Conflict)
    ensures forall n :: 0 <= n < |entries| && entries[n].action.Conflict? ==> n < |again| && again[n] == entries[n]
  {
    SafeShape(existing, routed, entries);
    RebuiltRows(existing, routed, entries, false, again);
    SafeCounts(existing, entries, again);
    forall i, j | 0 <= i < j < |Created(entries)| ensures Less(Created(entries)[i].from, Created(entries)[j].from) {
      CreatedAscending(entries, i, j);
    }
  }
}
