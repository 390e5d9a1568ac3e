/** The listing of a channel, row by row, in terms of the channel's own fields.

    Here the settings are read directly: an absent settings object, flag, prefix
    or list counts as off or empty. */
module ChannelRows {
  import opened Text
  import opened Ordered
  import opened ModelAliases
  import opened AliasTheorems

  predicate HidesOriginal(ch: Channel) { ch.settings.Some? && ch.settings.value.hideOriginalModels == Some(true) }
  predicate HidesMapped(ch: Channel) { ch.settings.Some? && ch.settings.value.hideMappedModels == Some(true) }
  predicate Folds(ch: Channel) { ch.settings.Some? && ch.settings.value.lowercaseModelId == Some(true) }

  function PrefixOf(ch: Channel): string {
    if ch.settings.Some? && ch.settings.value.extraModelPrefix.Some? then ch.settings.value.extraModelPrefix.value else ""
  }

  function TrimsOf(ch: Channel): seq<string> {
    if ch.settings.Some? && ch.settings.value.autoTrimmedPrefixes.Some?
    then ch.settings.value.autoTrimmedPrefixes.value else []
  }

  function MappingsOf(ch: Channel): seq<ModelMapping> {
    if ch.settings.Some? && ch.settings.value.modelMappings.Some? then ch.settings.value.modelMappings.value else []
  }

  function Rank(source: Source): nat {
    match source
    case Direct => 4
    case AutoTrim => 3
    case Mapping => 2
    case Prefix => 1
  }

  /** `rows` is the listing of `ch`. */
  ghost predicate ListingOf(ch: Channel, rows: seq<ModelEntry>) { Lists(View(ch), rows) }

  // --------------------------------------------------------- rows and meanings

  /** The row that says that `k` means `e`. */
  function RowFor(k: string, e: Entry): ModelEntry { ModelEntry(k, e.actual, e.source) }

  lemma RowIff(cfg: Config, rows: seq<ModelEntry>, row: ModelEntry)
    requires Lists(cfg, rows)
    ensures row in rows <==>
      Resolve(cfg, row.request).Some? && row == RowFor(row.request, Resolve(cfg, row.request).value)
  {
    if Resolve(cfg, row.request).Some? {
      var i :| 0 <= i < |rows| && Requests(rows)[i] == row.request;
      assert rows[i] == RowFor(row.request, Resolve(cfg, row.request).value);
    }
  }

  lemma SameOriginal(a: Config, b: Config, k: string)
    requires a.models == b.models && a.prefix == b.prefix && a.trims == b.trims
    ensures Original(a, k) == Original(b, k)
  {
    assert forall i :: 0 <= i < |a.trims| ==> TrimHit(a, i, k) == TrimHit(b, i, k);
    assert FirstTrim(a, k, |a.trims|) == FirstTrim(b, k, |b.trims|);
  }

  lemma SameMapped(a: Config, b: Config, k: string)
    requires a.models == b.models && a.prefix == b.prefix && a.trims == b.trims
    requires a.mappings == b.mappings && a.hideMapped == b.hideMapped
    ensures Mapped(a, k) == Mapped(b, k)
  {
    SameOriginal(a, b, k);
    var e, n := Original(a, k), |a.mappings|;
    assert forall i :: 0 <= i < n ==> Active(a, i) == Active(b, i);
    if e.Some? { assert FirstHide(a, e.value.actual, n) == FirstHide(b, e.value.actual, n); }
    var g := Gate(a, e, n);
    assert FirstMapping(a, k, g, n) == FirstMapping(b, k, g, n);
  }

  lemma VisibleRank(cfg: Config, k: string)
    requires Visible(cfg, k).Some?
    ensures Visible(cfg, k).value.priority == Rank(Visible(cfg, k).value.source)
  {
  }

  // -------------------------------------------------------- hiding originals

  /** Hiding originals removes exactly the direct rows: auto-trimmed, prefixed and
      mapped ones stay. */
  lemma HideOriginalDropsDirect(ch: Channel, s: Settings, flag: Option<bool>, on: seq<ModelEntry>, off: seq<ModelEntry>,
                                row: ModelEntry)
    requires ch.settings == Some(s) && s.lowercaseModelId != Some(true)
    requires s.hideOriginalModels == Some(true) && flag != Some(true)
    requires ListingOf(ch, on)
    requires ListingOf(ch.(settings := Some(s.(hideOriginalModels := flag))), off)
    ensures row in on <==> row in off && !row.source.Direct?
  {
    var a, b := View(ch), View(ch.(settings := Some(s.(hideOriginalModels := flag))));
    RowIff(a, on, row);
    RowIff(b, off, row);
    SameMapped(a, b, row.request);
  }

  // ---------------------------------------------------------- hiding targets

  /** Row `row` points at the target of some mapping. */
  predicate AtTarget(ch: Channel, row: ModelEntry) {
    exists i :: 0 <= i < |MappingsOf(ch)| && MappingsOf(ch)[i].to == row.actual
  }

  lemma PlainMapped(a: Config, b: Config, k: string)
    requires b == a.(hideMapped := false) && a.hideMapped && Mapped(b, k).Some?
    ensures
      var e := Mapped(b, k).value;
      if e.source.Mapping? || FirstHide(a, e.actual, |a.mappings|) == |a.mappings| then Mapped(a, k) == Some(e)
      else Mapped(a, k).None? || Mapped(a, k).value.source.Mapping?
  {
    SameOriginal(a, b, k);
    var o, n := Original(a, k), |a.mappings|;
    assert forall i :: 0 <= i < n ==> Active(a, i) == Active(b, i);
    if o.Some? { assert FirstHide(b, o.value.actual, n) == n; }
    assert FirstMapping(a, k, 0, n) == FirstMapping(b, k, 0, n);
    assert FirstMapping(a, k, n, n) == n;
  }

  lemma NewlyMapped(a: Config, b: Config, k: string)
    requires b == a.(hideMapped := false) && a.hideMapped && Mapped(a, k).Some? && !Mapped(a, k).value.source.Mapping?
    ensures Mapped(b, k) == Mapped(a, k)
    ensures FirstHide(a, Mapped(a, k).value.actual, |a.mappings|) == |a.mappings|
  {
    SameOriginal(a, b, k);
    var o, n := Original(a, k), |a.mappings|;
    assert forall i :: 0 <= i < n ==> Active(a, i) == Active(b, i);
    assert FirstHide(b, o.value.actual, n) == n;
    assert FirstMapping(a, k, Gate(a, o, n), n) == FirstMapping(b, k, Gate(b, o, n), n);
  }

  lemma HiddenIffTarget(cfg: Config, actual: string)
    requires cfg.hideMapped && actual in cfg.models
    ensures FirstHide(cfg, actual, |cfg.mappings|) < |cfg.mappings| <==>
      exists i :: 0 <= i < |cfg.mappings| && cfg.mappings[i].to == actual
  {
    if i :| 0 <= i < |cfg.mappings| && cfg.mappings[i].to == actual { assert Active(cfg, i); }
  }

  /** Hiding mapped models removes, of the rows that are not mappings, exactly those
      that point at the target of some mapping; mapping rows stay. */
  lemma HideMappedDropsTargets(ch: Channel, s: Settings, flag: Option<bool>, on: seq<ModelEntry>, off: seq<ModelEntry>,
                               row: ModelEntry)
    requires ch.settings == Some(s) && s.lowercaseModelId != Some(true)
    requires s.hideMappedModels == Some(true) && flag != Some(true)
    requires ListingOf(ch, on)
    requires ListingOf(ch.(settings := Some(s.(hideMappedModels := flag))), off)
    ensures !row.source.Mapping? ==> (row in on <==> row in off && !AtTarget(ch, row))
    ensures row.source.Mapping? && row in off ==> row in on
  {
    var a, b := View(ch), View(ch.(settings := Some(s.(hideMappedModels := flag))));
    var k := row.request;
    RowIff(a, on, row);
    RowIff(b, off, row);
    assert b == a.(hideMapped := false) && a.mappings == MappingsOf(ch);
    if row in off {
      TargetsSupported(b, k);
      HiddenIffTarget(a, row.actual);
      PlainMapped(a, b, k);
    }
    if row in on && !row.source.Mapping? {
      TargetsSupported(a, k);
      HiddenIffTarget(a, row.actual);
      NewlyMapped(a, b, k);
    }
  }

  /** Exactly which supported models are listed as themselves. */
  lemma DirectRowIff(ch: Channel, rows: seq<ModelEntry>, k: string)
    requires !Folds(ch) && ListingOf(ch, rows)
    ensures ModelEntry(k, k, Direct) in rows <==>
      && k in ch.supported
      && !HidesOriginal(ch)
      && !(HidesMapped(ch) && exists i :: 0 <= i < |MappingsOf(ch)| && MappingsOf(ch)[i].to == k)
  {
    var cfg := View(ch);
    assert cfg.mappings == MappingsOf(ch);
    RowIff(cfg, rows, ModelEntry(k, k, Direct));
    DirectIff(cfg, k);
    if Visible(cfg, k).Some? { VisibleRank(cfg, k); }
  }

  // ------------------------------------------------------- the best candidate

  /** The ways in which a channel's fields offer a meaning for `k`, each with its
      position in its list. */
  predicate Offers(ch: Channel, k: string, actual: string, source: Source, pos: nat) {
    actual in ch.supported &&
    match source
    case Direct => pos == 0 && actual == k
    case AutoTrim => pos < |TrimsOf(ch)| && TrimsOf(ch)[pos] != "" && actual == TrimsOf(ch)[pos] + "/" + k
    case Mapping => pos < |MappingsOf(ch)| && MappingsOf(ch)[pos] == ModelMapping(k, actual)
    case Prefix => pos == 0 && PrefixOf(ch) != "" && k == PrefixOf(ch) + "/" + actual
  }

  /** Direct before auto-trim before mapping before prefix, and the first of a list. */
  ghost predicate BestOffer(ch: Channel, row: ModelEntry, pos: nat) {
    && Offers(ch, row.request, row.actual, row.source, pos)
    && forall actual, source, pos' :: Offers(ch, row.request, actual, source, pos') ==>
         Rank(source) < Rank(row.source) || (source == row.source && pos <= pos')
  }

  lemma OfferIffCandidate(ch: Channel, k: string, actual: string, source: Source, pos: nat)
    ensures Offers(ch, k, actual, source, pos) <==> Candidate(View(ch), k, Entry(actual, source, Rank(source)), pos)
  {
    if source.Prefix? {
      var p := PrefixOf(ch) + "/";
      assert p + actual == k ==> k[|p|..] == actual;
      assert p <= k ==> k == p + k[|p|..];
    }
  }

  lemma CandidateRank(cfg: Config, k: string, e: Entry, pos: nat)
    requires Candidate(cfg, k, e, pos)
    ensures e.priority == Rank(e.source)
  {
  }

  lemma BestOfferIff(ch: Channel, row: ModelEntry, pos: nat)
    ensures BestOffer(ch, row, pos) <==>
      Best(View(ch), row.request, Entry(row.actual, row.source, Rank(row.source)), pos)
  {
    var cfg, k, e := View(ch), row.request, Entry(row.actual, row.source, Rank(row.source));
    OfferIffCandidate(ch, k, row.actual, row.source, pos);
    if BestOffer(ch, row, pos) {
      forall e', pos' | Candidate(cfg, k, e', pos')
        ensures e'.priority < e.priority || (e'.priority == e.priority && pos <= pos')
      {
        CandidateRank(cfg, k, e', pos');
        OfferIffCandidate(ch, k, e'.actual, e'.source, pos');
      }
    }
    if Best(cfg, k, e, pos) {
      forall actual, source, pos' | Offers(ch, k, actual, source, pos')
        ensures Rank(source) < Rank(row.source) || (source == row.source && pos <= pos')
      {
        OfferIffCandidate(ch, k, actual, source, pos');
      }
    }
  }

  /** With nothing hidden and no case folding, the rows are exactly the best offers. */
  lemma PlainRowsAreBest(ch: Channel, rows: seq<ModelEntry>, row: ModelEntry)
    requires !HidesOriginal(ch) && !HidesMapped(ch) && !Folds(ch) && ListingOf(ch, rows)
    ensures row in rows <==> exists pos :: BestOffer(ch, row, pos)
  {
    var cfg, k, e := View(ch), row.request, Entry(row.actual, row.source, Rank(row.source));
    RowIff(cfg, rows, row);
    BestCandidate(cfg, k);
    if Resolve(cfg, k).Some? { VisibleRank(cfg, k); }
    if row in rows {
      assert Resolve(cfg, k) == Some(e);
      var pos :| Best(cfg, k, e, pos);
      BestOfferIff(ch, row, pos);
    }
    if pos: nat :| BestOffer(ch, row, pos) {
      BestOfferIff(ch, row, pos);
    }
  }

  /** A channel without settings lists its supported models and nothing else. */
  lemma BareChannelRows(supported: seq<string>, rows: seq<ModelEntry>, row: ModelEntry)
    requires ListingOf(Channel(supported, None), rows)
    ensures row in rows <==> row.request in supported && row == ModelEntry(row.request, row.request, Direct)
  {
    var ch := Channel(supported, None);
    PlainRowsAreBest(ch, rows, row);
    if row.request in supported && row == ModelEntry(row.request, row.request, Direct) {
      assert BestOffer(ch, row, 0);
    }
  }

  // ------------------------------------------------------------ case folding

  /** Row `r` speaks for its case class among `rows`. */
  ghost predicate SpeaksAmong(rows: seq<ModelEntry>, r: ModelEntry) {
    r in rows &&
    forall q :: q in rows && Lower(q.request) == Lower(r.request) ==> Yields(q, r)
  }

  predicate Yields(q: ModelEntry, r: ModelEntry) {
    Rank(q.source) < Rank(r.source)
    || (Rank(q.source) == Rank(r.source) && (q.request == r.request || Less(r.request, q.request)))
  }

  lemma SpeakerIffWinner(a: Config, b: Config, plain: seq<ModelEntry>, r: ModelEntry)
    requires a.lowercase && b == a.(lowercase := false) && Lists(b, plain) && r in plain
    ensures Visible(a, r.request).Some? && r == RowFor(r.request, Visible(a, r.request).value)
    ensures SpeaksAmong(plain, r) <==> Wins(a, r.request, Lower(r.request))
  {
    RowIff(b, plain, r);
    SameMapped(a, b, r.request);
    VisibleRank(a, r.request);
    if SpeaksAmong(plain, r) {
      forall k | Lower(k) == Lower(r.request) && Visible(a, k).Some? ensures NoWorse(a, r.request, k) {
        var q := RowFor(k, Visible(a, k).value);
        SameMapped(a, b, k);
        RowIff(b, plain, q);
        VisibleRank(a, k);
        assert Yields(q, r);
      }
    }
    if Wins(a, r.request, Lower(r.request)) {
      forall q | q in plain && Lower(q.request) == Lower(r.request) ensures Yields(q, r) {
        RowIff(b, plain, q);
        SameMapped(a, b, q.request);
        VisibleRank(a, q.request);
        assert NoWorse(a, r.request, q.request);
      }
    }
  }

  /** With case folding the rows are exactly the speakers of the unfolded listing,
      under their lower-case names. */
  lemma FoldedRowsAreSpeakers(ch: Channel, s: Settings, flag: Option<bool>, folded: seq<ModelEntry>,
                              plain: seq<ModelEntry>, row: ModelEntry)
    requires ch.settings == Some(s) && s.lowercaseModelId == Some(true) && flag != Some(true)
    requires ListingOf(ch, folded)
    requires ListingOf(ch.(settings := Some(s.(lowercaseModelId := flag))), plain)
    ensures row in folded <==>
      exists r :: SpeaksAmong(plain, r) && row == r.(request := Lower(r.request))
  {
    var a, b := View(ch), View(ch.(settings := Some(s.(lowercaseModelId := flag))));
    assert b == a.(lowercase := false);
    RowIff(a, folded, row);
    if row in folded {
      var k := ResolveIsVisible(a, row.request);
      var r := RowFor(k, Visible(a, k).value);
      SameMapped(a, b, k);
      RowIff(b, plain, r);
      SpeakerIffWinner(a, b, plain, r);
      assert SpeaksAmong(plain, r) && row == r.(request := Lower(r.request));
    }
    if r :| SpeaksAmong(plain, r) && row == r.(request := Lower(r.request)) {
      SpeakerIffWinner(a, b, plain, r);
      WinnerResolves(a, r.request, row.request);
    }
  }
}
