/** Which request-model names a channel answers to, and what each one means.

    The program builds the answer by five rounds of arbitrated insertion and
    two kinds of deletion on one ordered map.  This module says what the answer
    *is*, one name at a time and without any map; `AliasPipeline` shows that
    the rounds compute it. */
module ModelAliases {
  import opened Text
  import opened Ordered

  datatype Source = Direct | Prefix | AutoTrim | Mapping

  datatype Entry = Entry(actual: string, source: Source, priority: nat)

  datatype ModelMapping = ModelMapping(from: string, to: string)

  datatype Settings = Settings(
    extraModelPrefix: Option<string>,
    autoTrimmedPrefixes: Option<seq<string>>,
    modelMappings: Option<seq<ModelMapping>>,
    hideOriginalModels: Option<bool>,
    hideMappedModels: Option<bool>,
    lowercaseModelId: Option<bool>)

  datatype Channel = Channel(supported: seq<string>, settings: Option<Settings>)

  /** A row of the rendered answer. */
  datatype ModelEntry = ModelEntry(request: string, actual: string, source: Source)

  /** What the answer may depend on: the supported models as a set, and the
      settings with absent ones replaced by their defaults. */
  datatype Config = Config(
    models: set<string>,
    prefix: string,
    trims: seq<string>,
    mappings: seq<ModelMapping>,
    hideMapped: bool,
    hideOriginal: bool,
    lowercase: bool)

  function View(ch: Channel): Config {
    var models := set m | m in ch.supported;
    match ch.settings
    case None => Config(models, "", [], [], false, false, false)
    case Some(s) =>
      Config(models, OrElse(s.extraModelPrefix, ""), OrElse(s.autoTrimmedPrefixes, []),
             OrElse(s.modelMappings, []), OrElse(s.hideMappedModels, false),
             OrElse(s.hideOriginalModels, false), OrElse(s.lowercaseModelId, false))
  }

  // ------------------------------------------------------ single candidates

  /** Prefix `i` of the auto-trim list turns a supported model into `k`. */
  predicate TrimHit(cfg: Config, i: nat, k: string)
    requires i < |cfg.trims|
  {
    cfg.trims[i] != "" && cfg.trims[i] + "/" + k in cfg.models
  }

  /** Mapping `i` points at a supported model; all others are ignored. */
  predicate Active(cfg: Config, i: nat)
    requires i < |cfg.mappings|
  {
    cfg.mappings[i].to in cfg.models
  }

  predicate PrefixHit(cfg: Config, k: string) {
    cfg.prefix != "" && cfg.prefix + "/" <= k && k[|cfg.prefix| + 1..] in cfg.models
  }

  /** The first auto-trim prefix below `n` that produces `k`, or `n`. */
  function FirstTrim(cfg: Config, k: string, n: nat): (r: nat)
    requires n <= |cfg.trims|
    ensures r <= n
    ensures r < n ==> TrimHit(cfg, r, k)
    ensures forall i :: 0 <= i < r ==> !TrimHit(cfg, i, k)
  {
    if n == 0 then 0 else
      var r := FirstTrim(cfg, k, n - 1);
      if r < n - 1 || TrimHit(cfg, n - 1, k) then r else n
  }

  /** The first active mapping in `lo..hi` whose alias is `k`, or `hi`. */
  function FirstMapping(cfg: Config, k: string, lo: nat, hi: nat): (r: nat)
    requires lo <= hi <= |cfg.mappings|
    ensures lo <= r <= hi
    ensures r < hi ==> Active(cfg, r) && cfg.mappings[r].from == k
    ensures forall i :: lo <= i < r ==> !(Active(cfg, i) && cfg.mappings[i].from == k)
    decreases hi - lo
  {
    if lo == hi then lo else
      var r := FirstMapping(cfg, k, lo, hi - 1);
      if r < hi - 1 || (Active(cfg, hi - 1) && cfg.mappings[hi - 1].from == k) then r else hi
  }

  /** The first mapping below `n` that hides originals of `target`, or `n`. */
  function FirstHide(cfg: Config, target: string, n: nat): (r: nat)
    requires n <= |cfg.mappings|
    ensures r <= n
    ensures r < n ==> Active(cfg, r) && cfg.hideMapped && cfg.mappings[r].to == target
    ensures forall i :: 0 <= i < r ==> !(Active(cfg, i) && cfg.hideMapped && cfg.mappings[i].to == target)
  {
    if n == 0 then 0 else
      var r := FirstHide(cfg, target, n - 1);
      if r < n - 1 || (Active(cfg, n - 1) && cfg.hideMapped && cfg.mappings[n - 1].to == target)
      then r else n
  }

  // ------------------------------------------------------------ the meaning

  /** The meaning of `k` before any mapping is considered. */
  function Original(cfg: Config, k: string): Option<Entry> {
    var t := FirstTrim(cfg, k, |cfg.trims|);
    if k in cfg.models then Some(Entry(k, Direct, 4))
    else if t < |cfg.trims| then Some(Entry(cfg.trims[t] + "/" + k, AutoTrim, 3))
    else if PrefixHit(cfg, k) then Some(Entry(k[|cfg.prefix| + 1..], Prefix, 1))
    else None
  }

  /** A direct or auto-trimmed meaning outranks every mapping. */
  predicate Outranks(e: Option<Entry>) { e.Some? && e.value.priority > 2 }

  /** The first mapping that could give `k` its meaning, among the first `n`: an
      outranking original `e` has to be hidden by an earlier mapping first. */
  function Gate(cfg: Config, e: Option<Entry>, n: nat): (r: nat)
    requires n <= |cfg.mappings|
    ensures r <= n
  {
    if !Outranks(e) then 0
    else
      var h := FirstHide(cfg, e.value.actual, n);
      if h < n then h + 1 else n
  }

  /** What becomes of `k`, originally meaning `e`, once the first `n` mappings
      are taken into account. */
  function MappedFrom(cfg: Config, e: Option<Entry>, k: string, n: nat): Option<Entry>
    requires n <= |cfg.mappings|
  {
    var j := FirstMapping(cfg, k, Gate(cfg, e, n), n);
    if j < n then Some(Entry(cfg.mappings[j].to, Mapping, 2))
    else if e.Some? && FirstHide(cfg, e.value.actual, n) < n then None
    else e
  }

  function Mapped(cfg: Config, k: string): Option<Entry> {
    MappedFrom(cfg, Original(cfg, k), k, |cfg.mappings|)
  }

  /** The meaning of `k` before case folding. */
  function Visible(cfg: Config, k: string): Option<Entry> {
    var e := Mapped(cfg, k);
    if cfg.hideOriginal && e.Some? && e.value.source.Direct? then None else e
  }

  /** Name `k` speaks for its case class `c`: nothing in the class outranks it,
      and among equals it is the smallest. */
  ghost predicate Wins(cfg: Config, k: string, c: string) {
    && Lower(k) == c
    && Visible(cfg, k).Some?
    && forall q {:trigger NoWorse(cfg, k, q)} :: Lower(q) == c && Visible(cfg, q).Some? ==> NoWorse(cfg, k, q)
  }

  ghost predicate NoWorse(cfg: Config, k: string, q: string)
    requires Visible(cfg, k).Some? && Visible(cfg, q).Some?
  {
    var p, p' := Visible(cfg, k).value.priority, Visible(cfg, q).value.priority;
    p' < p || (p' == p && (k == q || Less(k, q)))
  }

  /** What the channel makes of a request for `c`. */
  ghost function Resolve(cfg: Config, c: string): Option<Entry> {
    if !cfg.lowercase then Visible(cfg, c)
    else if exists k :: Wins(cfg, k, c) then
      var k :| Wins(cfg, k, c); Visible(cfg, k)
    else None
  }

  lemma WinnerUnique(cfg: Config, k: string, q: string, c: string)
    requires Wins(cfg, k, c) && Wins(cfg, q, c)
    ensures k == q
  {
    assert NoWorse(cfg, k, q) && NoWorse(cfg, q, k);
    if k != q { LessAsymmetric(k, q); }
  }

  /** Resolution under case folding is what the speaker of the class means. */
  lemma WinnerResolves(cfg: Config, k: string, c: string)
    requires cfg.lowercase && Wins(cfg, k, c)
    ensures Resolve(cfg, c) == Visible(cfg, k)
  {
    forall q | Wins(cfg, q, c) ensures q == k { WinnerUnique(cfg, k, q, c); }
  }

  function Requests(rows: seq<ModelEntry>): (ks: seq<string>)
    ensures |ks| == |rows| && forall i :: 0 <= i < |rows| ==> ks[i] == rows[i].request
  {
    seq(|rows|, i requires 0 <= i < |rows| => rows[i].request)
  }

  /** `rows` lists exactly the names that mean something, with their meanings,
      in ascending order. */
  ghost predicate Lists(cfg: Config, rows: seq<ModelEntry>) {
    && Ascending(Requests(rows))
    && (forall i :: 0 <= i < |rows| ==>
          var r := Resolve(cfg, rows[i].request);
          r.Some? && r.value.actual == rows[i].actual && r.value.source == rows[i].source)
    && (forall c :: Resolve(cfg, c).Some? ==> c in Requests(rows))
  }
}
