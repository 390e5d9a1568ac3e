/** What holds of every channel's listing. */
module AliasTheorems {
  import opened Ordered
  import opened ModelAliases

  // -------------------------------------- the listing is a function of a set

  lemma ListsUnique(cfg: Config, a: seq<ModelEntry>, b: seq<ModelEntry>)
    requires Lists(cfg, a) && Lists(cfg, b)
    ensures a == b
  {
    forall c ensures c in Requests(a) <==> c in Requests(b) {
      ListedIffResolves(cfg, a, c);
      ListedIffResolves(cfg, b, c);
    }
    AscendingUnique(Requests(a), Requests(b));
    forall i | 0 <= i < |a| ensures a[i] == b[i] {
      assert Requests(a)[i] == Requests(b)[i];
    }
  }

  lemma ListedIffResolves(cfg: Config, rows: seq<ModelEntry>, c: string)
    requires Lists(cfg, rows)
    ensures c in Requests(rows) <==> Resolve(cfg, c).Some?
  {
    if c in Requests(rows) {
      var i :| 0 <= i < |rows| && Requests(rows)[i] == c;
      assert rows[i].request == c;
    }
  }

  /** Reordering or repeating supported models never changes the listing. */
  lemma SupportedModelsActAsSet(ch: Channel, supported: seq<string>, a: seq<ModelEntry>, b: seq<ModelEntry>)
    requires forall m :: m in ch.supported <==> m in supported
    requires Lists(View(ch), a) && Lists(View(ch.(supported := supported)), b)
    ensures a == b
  {
    assert View(ch) == View(ch.(supported := supported));
    ListsUnique(View(ch), a, b);
  }

  // ------------------------------------------------------ targets and hiding

  lemma ResolveIsVisible(cfg: Config, c: string) returns (k: string)
    requires Resolve(cfg, c).Some?
    ensures Visible(cfg, k) == Resolve(cfg, c)
    ensures cfg.lowercase ==> Wins(cfg, k, c)
    ensures !cfg.lowercase ==> k == c
  {
    if cfg.lowercase {
      k :| Wins(cfg, k, c);
      WinnerResolves(cfg, k, c);
    } else {
      k := c;
    }
  }

  /** Whatever the settings, a name only ever resolves to a supported model. */
  lemma TargetsSupported(cfg: Config, c: string)
    requires Resolve(cfg, c).Some?
    ensures Resolve(cfg, c).value.actual in cfg.models
  {
    var k := ResolveIsVisible(cfg, c);
    assert Mapped(cfg, k) == Visible(cfg, k);
  }

  /** With mapped models hidden, only mappings reach the target of an active
      mapping, although insertions go on after each deletion. */
  lemma HiddenTargetsStayHidden(cfg: Config, c: string, i: nat)
    requires cfg.hideMapped && Resolve(cfg, c).Some?
    requires i < |cfg.mappings| && Active(cfg, i)
    requires Resolve(cfg, c).value.actual == cfg.mappings[i].to
    ensures Resolve(cfg, c).value.source.Mapping?
  {
    var k := ResolveIsVisible(cfg, c);
    var e := Original(cfg, k);
    assert e.Some? && e.value.actual == cfg.mappings[i].to ==>
        FirstHide(cfg, e.value.actual, |cfg.mappings|) <= i;
  }

  /** Exactly when a supported model is listed under its own name as itself. */
  lemma DirectIff(cfg: Config, k: string)
    ensures Visible(cfg, k) == Some(Entry(k, Direct, 4)) <==>
      && k in cfg.models
      && !cfg.hideOriginal
      && !(cfg.hideMapped && exists i :: 0 <= i < |cfg.mappings| && cfg.mappings[i].to == k)
  {
    var n := |cfg.mappings|;
    if k in cfg.models {
      var h := FirstHide(cfg, k, n);
      if h < n {
        assert cfg.mappings[h].to == k;
      } else {
        assert Gate(cfg, Original(cfg, k), n) == n;
        forall i | 0 <= i < n && cfg.mappings[i].to == k ensures !cfg.hideMapped {
          assert Active(cfg, i);
        }
      }
    }
  }

  /** Mapping `h` is the first one to point at `k`. */
  predicate FirstTo(cfg: Config, k: string, h: nat) {
    h < |cfg.mappings| && cfg.mappings[h].to == k && forall i :: 0 <= i < h ==> cfg.mappings[i].to != k
  }

  /** No active mapping after position `h` gives `k` a meaning. */
  predicate NotRemapped(cfg: Config, k: string, h: nat) {
    forall j :: h < j < |cfg.mappings| && Active(cfg, j) ==> cfg.mappings[j].from != k
  }

  /** Exactly when the name of a supported model means nothing any more: its
      direct entry is deleted by the first mapping to it and no later mapping
      takes the name over, or, with no such mapping, originals are hidden. */
  lemma UnlistedIff(cfg: Config, k: string)
    requires k in cfg.models
    ensures Visible(cfg, k).None? <==>
      if cfg.hideMapped && exists i :: 0 <= i < |cfg.mappings| && cfg.mappings[i].to == k
      then exists h :: FirstTo(cfg, k, h) && NotRemapped(cfg, k, h)
      else cfg.hideOriginal
  {
    var n := |cfg.mappings|;
    var h := FirstHide(cfg, k, n);
    if h < n {
      assert FirstTo(cfg, k, h);
      forall g | FirstTo(cfg, k, g) ensures g == h { FirstHider(cfg, k, g); }
      assert FirstMapping(cfg, k, h + 1, n) == n <==> NotRemapped(cfg, k, h);
    } else {
      forall i | 0 <= i < n && cfg.mappings[i].to == k ensures !cfg.hideMapped { assert Active(cfg, i); }
    }
  }

  lemma FirstHider(cfg: Config, k: string, h: nat)
    requires k in cfg.models && cfg.hideMapped && FirstTo(cfg, k, h)
    ensures FirstHide(cfg, k, |cfg.mappings|) == h
  {
    assert Active(cfg, h);
  }

  /** In particular a model mapped to itself, first of all mappings to it, is
      lost exactly when no later mapping takes its name over: the mapping is
      rejected in favour of the direct entry that it then deletes. */
  lemma SelfMappingUnlists(cfg: Config, k: string, h: nat)
    requires k in cfg.models && cfg.hideMapped && FirstTo(cfg, k, h) && cfg.mappings[h].from == k
    ensures Visible(cfg, k).None? <==> NotRemapped(cfg, k, h)
  {
    UnlistedIff(cfg, k);
    forall g | FirstTo(cfg, k, g) ensures g == h {}
  }

  // ------------------------------------------------------ the best candidate

  /** Every way `k` can acquire a meaning, with its position in its list. */
  predicate Candidate(cfg: Config, k: string, e: Entry, pos: nat) {
    match e.source
    case Direct => pos == 0 && k in cfg.models && e == Entry(k, Direct, 4)
    case AutoTrim =>
      pos < |cfg.trims| && TrimHit(cfg, pos, k) && e == Entry(cfg.trims[pos] + "/" + k, AutoTrim, 3)
    case Mapping =>
      pos < |cfg.mappings| && Active(cfg, pos) && cfg.mappings[pos] == ModelMapping(k, e.actual)
      && e.priority == 2
    case Prefix => pos == 0 && PrefixHit(cfg, k) && e == Entry(k[|cfg.prefix| + 1..], Prefix, 1)
  }

  /** Highest priority first, earliest position among equals. */
  ghost predicate Best(cfg: Config, k: string, e: Entry, pos: nat) {
    && Candidate(cfg, k, e, pos)
    && forall e', pos' :: Candidate(cfg, k, e', pos') ==>
         e'.priority < e.priority || (e'.priority == e.priority && pos <= pos')
  }

  /** With nothing hidden and no case folding, a name means its best candidate,
      and nothing exactly when it has no candidate. */
  lemma BestCandidate(cfg: Config, k: string)
    requires !cfg.hideMapped && !cfg.hideOriginal && !cfg.lowercase
    ensures forall e :: Resolve(cfg, k) == Some(e) <==> exists pos :: Best(cfg, k, e, pos)
    ensures Resolve(cfg, k).None? <==> forall e, pos :: !Candidate(cfg, k, e, pos)
  {
    var r := Resolve(cfg, k);
    if r.Some? {
      var pos := BestPosition(cfg, k);
      forall e, p | Best(cfg, k, e, p) ensures r == Some(e) {
        assert Candidate(cfg, k, r.value, pos) && Candidate(cfg, k, e, p);
      }
    } else {
      forall e, pos ensures !Candidate(cfg, k, e, pos) { NoCandidate(cfg, k, e, pos); }
    }
  }

  lemma NoCandidate(cfg: Config, k: string, e: Entry, pos: nat)
    requires !cfg.hideMapped && !cfg.hideOriginal
    requires Visible(cfg, k).None?
    ensures !Candidate(cfg, k, e, pos)
  {
    assert Original(cfg, k).None?;
  }

  lemma BestPosition(cfg: Config, k: string) returns (pos: nat)
    requires !cfg.hideMapped && !cfg.hideOriginal
    requires Visible(cfg, k).Some?
    ensures Best(cfg, k, Visible(cfg, k).value, pos)
  {
    var e := Visible(cfg, k).value;
    var n := |cfg.mappings|;
    pos := match e.source
      case AutoTrim => FirstTrim(cfg, k, |cfg.trims|)
      case Mapping => FirstMapping(cfg, k, 0, n)
      case _ => 0;
    var o := Original(cfg, k);
    assert Outranks(o) ==> Gate(cfg, o, n) == n;
    forall e', pos' | Candidate(cfg, k, e', pos')
      ensures e'.priority < e.priority || (e'.priority == e.priority && pos <= pos')
    {
    }
  }
}
