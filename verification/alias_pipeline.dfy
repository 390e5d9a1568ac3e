/** The rounds of insertion and deletion that build a channel's model entries. */
module AliasPipeline {
  import opened Text
  import opened Ordered
  import opened ModelAliases

  type Entries = map<string, Entry>

  /** Arbitration: a candidate replaces what is there only by outranking it. */
  function Arbitrate(current: Option<Entry>, candidate: Option<Entry>): Option<Entry> {
    if candidate.None? then current
    else if current.None? || candidate.value.priority > current.value.priority then candidate
    else current
  }

  /** Inserting under one key arbitrates there and leaves every other key alone. */
  function Insert(entries: Entries, k: string, e: Entry): (r: Entries)
    ensures forall q :: Get(r, q) == if q == k then Arbitrate(Get(entries, k), Some(e)) else Get(entries, q)
  {
    if k in entries && e.priority <= entries[k].priority then entries else entries[k := e]
  }

  function Retain(entries: Entries, keep: Entry -> bool): (r: Entries)
    ensures forall q :: Get(r, q) == if q in entries && keep(entries[q]) then Get(entries, q) else None
  {
    map q | q in entries && keep(entries[q]) :: entries[q]
  }

  // ------------------------------------------------------ insertion rounds

  method InsertDirect(models: seq<string>) returns (entries: Entries)
    ensures forall k :: Get(entries, k) == if k in models then Some(Entry(k, Direct, 4)) else None
  {
    entries := map[];
    for i := 0 to |models|
      invariant forall k :: Get(entries, k) == if k in models[..i] then Some(Entry(k, Direct, 4)) else None
    {
      assert models[..i + 1] == models[..i] + [models[i]];
      entries := Insert(entries, models[i], Entry(models[i], Direct, 4));
    }
    assert models[..|models|] == models;
  }

  function Prefixed(prefix: string, models: seq<string>, k: string): Option<Entry> {
    if prefix + "/" <= k && k[|prefix| + 1..] in models
    then Some(Entry(k[|prefix| + 1..], Prefix, 1)) else None
  }

  method InsertPrefixed(before: Entries, models: seq<string>, prefix: string) returns (entries: Entries)
    ensures forall k :: Get(entries, k) == Arbitrate(Get(before, k), Prefixed(prefix, models, k))
  {
    entries := before;
    for i := 0 to |models|
      invariant forall k :: Get(entries, k) == Arbitrate(Get(before, k), Prefixed(prefix, models[..i], k))
    {
      assert models[..i + 1] == models[..i] + [models[i]];
      var key := prefix + "/" + models[i];
      forall k | k != key
        ensures Prefixed(prefix, models[..i + 1], k) == Prefixed(prefix, models[..i], k)
      {
        if prefix + "/" <= k { assert k == prefix + "/" + k[|prefix| + 1..]; }
      }
      entries := Insert(entries, key, Entry(models[i], Prefix, 1));
    }
    assert models[..|models|] == models;
  }

  function TrimmedBy(prefix: string, models: seq<string>, k: string): Option<Entry> {
    if prefix != "" && prefix + "/" + k in models then Some(Entry(prefix + "/" + k, AutoTrim, 3)) else None
  }

  method InsertTrimmed(before: Entries, models: seq<string>, prefix: string) returns (entries: Entries)
    requires prefix != ""
    ensures forall k :: Get(entries, k) == Arbitrate(Get(before, k), TrimmedBy(prefix, models, k))
  {
    entries := before;
    var needle := prefix + "/";
    for i := 0 to |models|
      invariant forall k :: Get(entries, k) == Arbitrate(Get(before, k), TrimmedBy(prefix, models[..i], k))
    {
      assert models[..i + 1] == models[..i] + [models[i]];
      if needle <= models[i] {
        var key := models[i][|needle|..];
        assert models[i] == needle + key;
        forall k | k != key
          ensures TrimmedBy(prefix, models[..i + 1], k) == TrimmedBy(prefix, models[..i], k)
        {
          assert (needle + k)[|needle|..] == k;
        }
        entries := Insert(entries, key, Entry(models[i], AutoTrim, 3));
      }
    }
    assert models[..|models|] == models;
  }

  /** The first auto-trim prefix, among the first `n`, that produces `k`. */
  function TrimmedBelow(cfg: Config, k: string, n: nat): Option<Entry>
    requires n <= |cfg.trims|
  {
    var t := FirstTrim(cfg, k, n);
    if t < n then Some(Entry(cfg.trims[t] + "/" + k, AutoTrim, 3)) else None
  }

  method InsertAllTrimmed(before: Entries, ch: Channel) returns (entries: Entries)
    ensures forall k ::
        Get(entries, k) == Arbitrate(Get(before, k), TrimmedBelow(View(ch), k, |View(ch).trims|))
  {
    ghost var cfg := View(ch);
    var trims := View(ch).trims;
    entries := before;
    for i := 0 to |trims|
      invariant forall k :: Get(entries, k) == Arbitrate(Get(before, k), TrimmedBelow(cfg, k, i))
    {
      if trims[i] != "" {
        entries := InsertTrimmed(entries, ch.supported, trims[i]);
      }
    }
  }

  // ---------------------------------------------------------- the mappings

  predicate Keeps(e: Entry, target: string) { e.source.Mapping? || e.actual != target }

  /** What applying mapping `m` does to the meaning of `k`: insertion, then
      deletion when mapped models are hidden. */
  function Applied(m: ModelMapping, hiding: bool, k: string, now: Option<Entry>): Option<Entry> {
    var inserted := if k == m.from then Arbitrate(now, Some(Entry(m.to, Mapping, 2))) else now;
    if hiding && inserted.Some? && !Keeps(inserted.value, m.to) then None else inserted
  }

  function ApplyMapping(entries: Entries, m: ModelMapping, hiding: bool): (r: Entries)
    ensures forall k :: Get(r, k) == Applied(m, hiding, k, Get(entries, k))
  {
    var inserted := Insert(entries, m.from, Entry(m.to, Mapping, 2));
    if hiding then Retain(inserted, e => Keeps(e, m.to)) else inserted
  }

  lemma MappedStep(cfg: Config, e: Option<Entry>, k: string, i: nat)
    requires i < |cfg.mappings|
    requires e.Some? ==> !e.value.source.Mapping? && e.value.priority != 2
    ensures
      var now := MappedFrom(cfg, e, k, i);
      MappedFrom(cfg, e, k, i + 1) ==
        if Active(cfg, i) then Applied(cfg.mappings[i], cfg.hideMapped, k, now) else now
  {
    if Outranks(e) && FirstHide(cfg, e.value.actual, i) == i {
      // still standing, so no mapping has had effect yet
      assert MappedFrom(cfg, e, k, i) == e;
    } else {
      assert Gate(cfg, e, i) == Gate(cfg, e, i + 1);
    }
  }

  method ApplyMappings(before: Entries, ch: Channel) returns (entries: Entries)
    requires forall k :: Get(before, k) == Original(View(ch), k)
    ensures forall k :: Get(entries, k) == Mapped(View(ch), k)
  {
    ghost var cfg := View(ch);
    var mappings, hiding := View(ch).mappings, View(ch).hideMapped;
    entries := before;
    for i := 0 to |mappings|
      invariant forall k :: Get(entries, k) == MappedFrom(cfg, Original(cfg, k), k, i)
    {
      ghost var start := entries;
      if mappings[i].to in ch.supported {
        entries := ApplyMapping(entries, mappings[i], hiding);
      }
      forall k ensures Get(entries, k) == MappedFrom(cfg, Original(cfg, k), k, i + 1) {
        MappedStep(cfg, Original(cfg, k), k, i);
        assert Get(start, k) == MappedFrom(cfg, Original(cfg, k), k, i);
      }
    }
  }

  // -------------------------------------------------------- case collapse

  /** Key `k` carries the entry of case class `c`: highest priority, and the
      smallest key among equals. */
  ghost predicate Speaks(entries: Entries, k: string, c: string) {
    && k in entries && Lower(k) == c
    && forall q {:trigger Beats(entries, k, q)} :: q in entries && Lower(q) == c ==> Beats(entries, k, q)
  }

  predicate Beats(entries: Entries, k: string, q: string)
    requires k in entries && q in entries
  {
    entries[q].priority < entries[k].priority
    || (entries[q].priority == entries[k].priority && (k == q || Less(k, q)))
  }

  /** `lower` is `entries` collapsed to one entry per case class. */
  ghost predicate Collapsed(entries: Entries, lower: Entries) {
    && (forall k {:trigger k in entries} :: k in entries ==> Lower(k) in lower)
    && (forall c :: c in lower ==> exists k :: Speaks(entries, k, c) && lower[c] == entries[k])
  }

  /** Key `j` has a speaker, and does not beat it. */
  ghost predicate Represented(entries: Entries, keys: seq<string>, speaker: map<string, nat>, j: nat)
    requires j < |keys| && forall k :: k in keys ==> k in entries
  {
    var c := Lower(keys[j]);
    c in speaker && speaker[c] < |keys| && Beats(entries, keys[speaker[c]], keys[j])
  }

  /** `speaker` names the position that carries each class among the first `n` keys. */
  ghost predicate Carries(entries: Entries, keys: seq<string>, n: nat, lower: Entries, speaker: map<string, nat>)
    requires n <= |keys| && forall k :: k in keys ==> k in entries
  {
    && speaker.Keys == lower.Keys
    && (forall c :: c in speaker ==>
          speaker[c] < n && Lower(keys[speaker[c]]) == c && lower[c] == entries[keys[speaker[c]]])
    && (forall j :: 0 <= j < n ==> Represented(entries, keys, speaker, j))
  }

  lemma CarriesStep(entries: Entries, keys: seq<string>, n: nat, lower: Entries, speaker: map<string, nat>)
    returns (next: map<string, nat>)
    requires Ascending(keys) && n < |keys| && forall k :: k in keys ==> k in entries
    requires Carries(entries, keys, n, lower, speaker)
    ensures Carries(entries, keys, n + 1, Insert(lower, Lower(keys[n]), entries[keys[n]]), next)
  {
    var c := Lower(keys[n]);
    var replaced := c !in lower || lower[c].priority < entries[keys[n]].priority;
    next := if replaced then speaker[c := n] else speaker;
    forall j | 0 <= j < n ensures Represented(entries, keys, next, j) {
      assert Represented(entries, keys, speaker, j);
    }
    assert Represented(entries, keys, next, n) by {
      assert !replaced ==> Less(keys[speaker[c]], keys[n]);
    }
  }

  method CollapseCase(entries: Entries) returns (lower: Entries)
    ensures Collapsed(entries, lower)
  {
    var keys := Sorted(entries.Keys);
    lower := map[];
    ghost var speaker: map<string, nat> := map[];
    for i := 0 to |keys|
      invariant Carries(entries, keys, i, lower, speaker)
    {
      speaker := CarriesStep(entries, keys, i, lower, speaker);
      lower := Insert(lower, Lower(keys[i]), entries[keys[i]]);
    }
    CarriersSpeak(entries, keys, lower, speaker);
  }

  lemma CarriersSpeak(entries: Entries, keys: seq<string>, lower: Entries, speaker: map<string, nat>)
    requires forall k :: k in keys <==> k in entries
    requires Carries(entries, keys, |keys|, lower, speaker)
    ensures Collapsed(entries, lower)
  {
    forall c | c in lower ensures exists k :: Speaks(entries, k, c) && lower[c] == entries[k] {
      var k := keys[speaker[c]];
      forall q | q in entries && Lower(q) == c ensures Beats(entries, k, q) {
        var j :| 0 <= j < |keys| && keys[j] == q;
        assert Represented(entries, keys, speaker, j);
      }
      assert Speaks(entries, k, c);
    }
    forall k | k in entries ensures Lower(k) in lower {
      var j :| 0 <= j < |keys| && keys[j] == k;
      assert Represented(entries, keys, speaker, j);
    }
  }

  lemma CollapsedKeys(entries: Entries, lower: Entries, c: string)
    requires Collapsed(entries, lower) && c in lower
    ensures Lower(c) == c
  {
    var k :| Speaks(entries, k, c) && lower[c] == entries[k];
    LowerIdempotent(k);
  }

  lemma CollapseFixes(lower: Entries, again: Entries, c: string)
    requires Collapsed(lower, again)
    requires forall k :: k in lower ==> Lower(k) == k
    ensures Get(again, c) == Get(lower, c)
  {
    if c in again {
      var k :| Speaks(lower, k, c) && again[c] == lower[k];
    } else {
      assert c in lower ==> Lower(c) in again;
    }
  }

  /** Every collapsed key is its own lower-case form, so collapsing again
      changes nothing. */
  lemma CollapseIdempotent(entries: Entries, lower: Entries, again: Entries)
    requires Collapsed(entries, lower) && Collapsed(lower, again)
    ensures forall c :: c in lower ==> Lower(c) == c
    ensures again == lower
  {
    forall c | c in lower ensures Lower(c) == c { CollapsedKeys(entries, lower, c); }
    forall c ensures Get(again, c) == Get(lower, c) { CollapseFixes(lower, again, c); }
    SameLookupsSameMap(again, lower);
  }

  lemma CollapseMeans(cfg: Config, entries: Entries, lower: Entries, c: string)
    requires cfg.lowercase
    requires forall k :: Get(entries, k) == Visible(cfg, k)
    requires Collapsed(entries, lower)
    ensures Get(lower, c) == Resolve(cfg, c)
  {
    if c in lower {
      var k :| Speaks(entries, k, c) && lower[c] == entries[k];
      SpeakerWins(cfg, entries, k, c);
      WinnerResolves(cfg, k, c);
      assert Get(entries, k) == Visible(cfg, k);
    } else {
      forall k ensures !Wins(cfg, k, c) { assert Get(entries, k) == Visible(cfg, k); }
    }
  }

  lemma SpeakerWins(cfg: Config, entries: Entries, k: string, c: string)
    requires forall q :: Get(entries, q) == Visible(cfg, q)
    requires Speaks(entries, k, c)
    ensures Wins(cfg, k, c)
  {
    assert Get(entries, k) == Visible(cfg, k);
    forall q | Lower(q) == c && Visible(cfg, q).Some? ensures NoWorse(cfg, k, q) {
      assert Get(entries, q) == Visible(cfg, q);
      assert Beats(entries, k, q);
    }
  }

  // ---------------------------------------------------------- the pipeline

  function Render(entries: Entries, keys: seq<string>): (rows: seq<ModelEntry>)
    requires forall k :: k in keys ==> k in entries
    ensures Requests(rows) == keys
    ensures |rows| == |keys|
    ensures forall i :: 0 <= i < |keys| ==>
        rows[i] == ModelEntry(keys[i], entries[keys[i]].actual, entries[keys[i]].source)
  {
    seq(|keys|, i requires 0 <= i < |keys| =>
      ModelEntry(keys[i], entries[keys[i]].actual, entries[keys[i]].source))
  }

  /** `insert direct; insert prefixed; insert trimmed` gives every name its
      original meaning. */
  lemma RoundsMeanOriginal(ch: Channel, k: string)
    ensures
      var cfg := View(ch);
      var direct := if k in ch.supported then Some(Entry(k, Direct, 4)) else None;
      var prefixed := if cfg.prefix != "" then Arbitrate(direct, Prefixed(cfg.prefix, ch.supported, k)) else direct;
      Arbitrate(prefixed, TrimmedBelow(cfg, k, |cfg.trims|)) == Original(cfg, k)
  {
  }

  method OriginalEntries(ch: Channel) returns (entries: Entries)
    ensures forall k :: Get(entries, k) == Original(View(ch), k)
  {
    entries := InsertDirect(ch.supported);
    var prefix := View(ch).prefix;
    if prefix != "" {
      entries := InsertPrefixed(entries, ch.supported, prefix);
    }
    entries := InsertAllTrimmed(entries, ch);
    forall k ensures Get(entries, k) == Original(View(ch), k) { RoundsMeanOriginal(ch, k); }
  }

  /** The listing is exactly the names that resolve, with what they resolve to,
      and case folding loses no name's class. */
  method ChannelModelEntries(ch: Channel) returns (rows: seq<ModelEntry>)
    ensures Lists(View(ch), rows)
    ensures View(ch).lowercase ==>
        forall k :: Visible(View(ch), k).Some? ==> Lower(k) in Requests(rows)
  {
    ghost var cfg := View(ch);
    var entries := OriginalEntries(ch);
    entries := ApplyMappings(entries, ch);
    if View(ch).hideOriginal {
      entries := Retain(entries, (e: Entry) => !e.source.Direct?);
    }
    assert forall k :: Get(entries, k) == Visible(cfg, k);
    ghost var unfolded := entries;
    if View(ch).lowercase {
      entries := CollapseCase(entries);
      forall c ensures Get(entries, c) == Resolve(cfg, c) { CollapseMeans(cfg, unfolded, entries, c); }
    }
    assert forall c :: Get(entries, c) == Resolve(cfg, c);
    rows := Render(entries, Sorted(entries.Keys));
    RenderLists(cfg, entries, rows);
    if cfg.lowercase {
      forall k | Visible(cfg, k).Some? ensures Lower(k) in Requests(rows) {
        assert Get(unfolded, k) == Visible(cfg, k);
      }
    }
  }

  lemma RenderLists(cfg: Config, entries: Entries, rows: seq<ModelEntry>)
    requires forall c :: Get(entries, c) == Resolve(cfg, c)
    requires Ascending(Requests(rows)) && forall c :: c in Requests(rows) <==> c in entries
    requires forall i :: 0 <= i < |rows| ==>
      var k := rows[i].request;
      k in entries && rows[i] == ModelEntry(k, entries[k].actual, entries[k].source)
    ensures Lists(cfg, rows)
  {
    forall i | 0 <= i < |rows|
      ensures Resolve(cfg, rows[i].request) == Some(entries[rows[i].request])
    {
      assert Get(entries, rows[i].request) == Resolve(cfg, rows[i].request);
    }
    forall c | Resolve(cfg, c).Some? ensures c in Requests(rows) {
      assert Get(entries, c) == Resolve(cfg, c);
    }
  }
}
