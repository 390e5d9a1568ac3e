/** From public-model routes to the listing that serves them. */
module Routing {
  import opened Text
  import opened Ordered
  import opened ModelAliases
  import opened RouteMerge
  import opened RouteConvergence
  import opened AliasTheorems

  /** The channel's configuration after a reviewed preview has been merged in,
      conflicts included. */
  function WithRoutes(cfg: Config, entries: seq<PreviewEntry>): Config {
    cfg.(mappings := Merge(cfg.mappings, entries, true))
  }

  /** Nothing of higher rank answers to `from`, or a mapping placed before the
      alias itself hides what does. */
  ghost predicate Unshadowed(cfg: Config, from: string) {
    var o := Original(cfg, from);
    Outranks(o) ==> FirstHide(cfg, o.value.actual, |cfg.mappings|) < FirstAlias(cfg.mappings, from)
  }

  lemma SoleAlias(cfg: Config, routed: seq<ModelMapping>, entries: seq<PreviewEntry>, n: nat)
    requires DistinctFroms(cfg.mappings) && Compares(cfg.mappings, routed, entries) && n < |entries|
    ensures
      var ms := WithRoutes(cfg, entries).mappings;
      var i := FirstAlias(ms, entries[n].from);
      i < |ms| && ms[i].to == entries[n].to && forall j :: 0 <= j < |ms| && j != i ==> ms[j].from != entries[n].from
  {
    var ms, f := WithRoutes(cfg, entries).mappings, entries[n].from;
    ComparesGrounded(cfg.mappings, routed, entries);
    ReadAfterMerge(cfg.mappings, routed, entries, true, n);
    MergeKeepsDistinct(cfg.mappings, routed, entries, true);
    var i := LastIndex(ms, f);
    assert FirstAlias(ms, f) == i;
  }

  /** The request name that stands for `k`. */
  function Folded(cfg: Config, k: string): string { if cfg.lowercase then Lower(k) else k }

  /** Alias `k` is what its request name means, and it means `to`. */
  ghost predicate Serves(cfg: Config, k: string, to: string) {
    Visible(cfg, k) == Some(Entry(to, Mapping, 2)) && (cfg.lowercase ==> Wins(cfg, k, Lower(k)))
  }

  /** Under case folding, no other name of the class outranks an alias named
      `from` or comes before it at the rank of an alias. */
  ghost predicate Unrivalled(cfg: Config, from: string) {
    cfg.lowercase ==>
      forall q :: q != from && Lower(q) == Lower(from) && Visible(cfg, q).Some? ==>
        var p := Visible(cfg, q).value.priority;
        p < 2 || (p == 2 && Less(from, q))
  }

  /** A request name resolves through a mapping to `to` exactly when some alias of
      that name serves it. */
  lemma ResolvesIffServed(cfg: Config, c: string, to: string)
    ensures Resolve(cfg, c) == Some(Entry(to, Mapping, 2)) <==>
      exists k :: Serves(cfg, k, to) && Folded(cfg, k) == c
  {
    if Resolve(cfg, c) == Some(Entry(to, Mapping, 2)) {
      var k := ResolveIsVisible(cfg, c);
      assert Serves(cfg, k, to) && Folded(cfg, k) == c;
    }
    if k :| Serves(cfg, k, to) && Folded(cfg, k) == c {
      if cfg.lowercase { WinnerResolves(cfg, k, c); }
    }
  }

  lemma WinsIffUnrivalled(cfg: Config, k: string, to: string)
    requires cfg.lowercase && Visible(cfg, k) == Some(Entry(to, Mapping, 2))
    ensures Wins(cfg, k, Lower(k)) <==> Unrivalled(cfg, k)
  {
    if Wins(cfg, k, Lower(k)) {
      forall q | q != k && Lower(q) == Lower(k) && Visible(cfg, q).Some?
        ensures var p := Visible(cfg, q).value.priority; p < 2 || (p == 2 && Less(k, q))
      {
        assert NoWorse(cfg, k, q);
      }
    }
    if Unrivalled(cfg, k) {
      forall q | Lower(q) == Lower(k) && Visible(cfg, q).Some? ensures NoWorse(cfg, k, q) {}
    }
  }

  lemma VisibleIffUnshadowed(cfg: Config, routed: seq<ModelMapping>, entries: seq<PreviewEntry>, n: nat)
    requires DistinctFroms(cfg.mappings) && Compares(cfg.mappings, routed, entries) && n < |entries|
    requires entries[n].to in cfg.models
    ensures
      var after := WithRoutes(cfg, entries);
      Visible(after, entries[n].from) == Some(Entry(entries[n].to, Mapping, 2)) <==> Unshadowed(after, entries[n].from)
  {
    var after, f := WithRoutes(cfg, entries), entries[n].from;
    SoleAlias(cfg, routed, entries, n);
    var i, size := FirstAlias(after.mappings, f), |after.mappings|;
    assert Active(after, i);
    var g := Gate(after, Original(after, f), size);
    assert FirstMapping(after, f, g, size) < size <==> g <= i;
  }

  /** After a replacing merge over distinct aliases, a routed alias whose target
      is supported serves exactly that target if and only if it is neither
      shadowed nor, under case folding, rivalled, whatever is hidden; and then
      its request name resolves to it.  Without folding, that is the only way
      the name resolves to it. */
  lemma RoutedAliasResolvesIff(cfg: Config, routed: seq<ModelMapping>, entries: seq<PreviewEntry>, n: nat)
    requires DistinctFroms(cfg.mappings) && Compares(cfg.mappings, routed, entries) && n < |entries|
    requires entries[n].to in cfg.models
    ensures
      var after, e := WithRoutes(cfg, entries), entries[n];
      var served := Unshadowed(after, e.from) && Unrivalled(after, e.from);
      && (Serves(after, e.from, e.to) <==> served)
      && (served ==> Resolve(after, Folded(after, e.from)) == Some(Entry(e.to, Mapping, 2)))
      && (!cfg.lowercase ==> (served <==> Resolve(after, e.from) == Some(Entry(e.to, Mapping, 2))))
  {
    var after, e := WithRoutes(cfg, entries), entries[n];
    VisibleIffUnshadowed(cfg, routed, entries, n);
    if cfg.lowercase && Visible(after, e.from) == Some(Entry(e.to, Mapping, 2)) {
      WinsIffUnrivalled(after, e.from, e.to);
    }
    ResolvesIffServed(after, Folded(after, e.from), e.to);
  }

  /** In particular it does when it is neither a supported model nor produced by
      auto-trimming one, nor rivalled; and the listing then says so. */
  lemma RoutedAliasListed(cfg: Config, routed: seq<ModelMapping>, entries: seq<PreviewEntry>, n: nat,
                          rows: seq<ModelEntry>)
    requires DistinctFroms(cfg.mappings) && Compares(cfg.mappings, routed, entries) && n < |entries|
    requires entries[n].to in cfg.models
    requires entries[n].from !in cfg.models
    requires forall t :: 0 <= t < |cfg.trims| ==> !TrimHit(cfg, t, entries[n].from)
    requires Unrivalled(WithRoutes(cfg, entries), entries[n].from)
    requires Lists(WithRoutes(cfg, entries), rows)
    ensures
      var after, e := WithRoutes(cfg, entries), entries[n];
      && Resolve(after, Folded(cfg, e.from)) == Some(Entry(e.to, Mapping, 2))
      && ModelEntry(Folded(cfg, e.from), e.to, Mapping) in rows
  {
    var after, f := WithRoutes(cfg, entries), entries[n].from;
    var t := FirstTrim(after, f, |after.trims|);
    assert t < |after.trims| ==> TrimHit(cfg, t, f);
    assert Unshadowed(after, f);
    RoutedAliasResolvesIff(cfg, routed, entries, n);
    var c := Folded(after, f);
    ListedIffResolves(after, rows, c);
    var i :| 0 <= i < |rows| && Requests(rows)[i] == c;
    assert rows[i] == ModelEntry(c, entries[n].to, Mapping);
  }
}
