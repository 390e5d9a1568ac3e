/** Applying reviewed aliases while channels and routes are being edited.

    The apply operation reads the channel row, reads the routes, and only then
    locks the row, checks that its version is still the reviewed one, and writes.
    Edits of the channel and of its routes may fall in between, and any number of
    administrators may be applying at once. */
module AliasApply {
  import opened Ordered
  import opened ModelAliases
  import opened RouteMerge
  import opened RouteConvergence
  import opened Routing

  /** The channel row and the routes that lead to it. */
  datatype Db = Db(version: nat, supported: seq<string>, mappings: seq<ModelMapping>, routes: seq<ModelMapping>)

  datatype Phase =
    | Begun
    | Loaded(version: nat, supported: seq<string>, mappings: seq<ModelMapping>)
    | Previewed(supported: seq<string>, mappings: seq<ModelMapping>, routes: seq<ModelMapping>,
                entries: seq<PreviewEntry>, quietSeen: nat)
    | Applied
    | Refused

  datatype Session = Session(expected: nat, replace: bool, phase: Phase)

  /** `quiet` counts the route changes that came without a new channel version;
      `consumed` lists the versions that were applied to. */
  datatype State = State(db: Db, sessions: seq<Session>, quiet: nat, consumed: seq<nat>)

  datatype Event =
    | EditChannel(supported: seq<string>, mappings: seq<ModelMapping>)
    | EditRoutes(routes: seq<ModelMapping>)
    | QuietRoutes(routes: seq<ModelMapping>)
    | LoadChannel(session: nat)
    | LoadRoutes(session: nat, entries: seq<PreviewEntry>)
    | Commit(session: nat)

  predicate AllSupported(routes: seq<ModelMapping>, supported: seq<string>) {
    forall i :: 0 <= i < |routes| ==> routes[i].to in supported
  }

  function Go(s: State, i: nat, phase: Phase): State
    requires i < |s.sessions|
  {
    s.(sessions := s.sessions[i := s.sessions[i].(phase := phase)])
  }

  /** One event; an event that is not enabled leaves everything as it is. */
  ghost function Next(s: State, ev: Event): State {
    match ev
    case EditChannel(supported, mappings) =>
      s.(db := s.db.(version := s.db.version + 1, supported := supported, mappings := mappings))
    case EditRoutes(routes) => s.(db := s.db.(version := s.db.version + 1, routes := routes))
    case QuietRoutes(routes) => s.(db := s.db.(routes := routes), quiet := s.quiet + 1)
    case LoadChannel(i) =>
      if i < |s.sessions| && s.sessions[i].phase.Begun?
      then Go(s, i, Loaded(s.db.version, s.db.supported, s.db.mappings)) else s
    case LoadRoutes(i, entries) =>
      if !(i < |s.sessions| && s.sessions[i].phase.Loaded?) then s
      else
        var p := s.sessions[i].phase;
        if !AllSupported(s.db.routes, p.supported) then Go(s, i, Refused)
        else if !Compares(p.mappings, s.db.routes, entries) then s
        else if p.version != s.sessions[i].expected then Go(s, i, Refused)
        else Go(s, i, Previewed(p.supported, p.mappings, s.db.routes, entries, s.quiet))
    case Commit(i) =>
      if !(i < |s.sessions| && s.sessions[i].phase.Previewed?) then s
      else if s.db.version != s.sessions[i].expected then Go(s, i, Refused)
      else
        var x := s.sessions[i];
        Go(s, i, Applied).(
          db := s.db.(version := s.db.version + 1, mappings := Merge(s.db.mappings, x.phase.entries, x.replace)),
          consumed := s.consumed + [s.db.version])
  }

  ghost function After(s: State, evs: seq<Event>): State
    decreases |evs|
  {
    if evs == [] then s else After(Next(s, evs[0]), evs[1..])
  }

  predicate Initial(s: State) {
    s.consumed == [] && forall i :: 0 <= i < |s.sessions| ==> s.sessions[i].phase.Begun?
  }

  // --------------------------------------------------------------- invariant

  ghost predicate SessionOk(db: Db, quiet: nat, x: Session) {
    match x.phase
    case Loaded(version, supported, mappings) =>
      && version <= db.version
      && (version == db.version ==> supported == db.supported && mappings == db.mappings)
    case Previewed(supported, mappings, routes, entries, quietSeen) =>
      && x.expected <= db.version && quietSeen <= quiet
      && Compares(mappings, routes, entries) && AllSupported(routes, supported)
      && (x.expected == db.version ==> supported == db.supported && mappings == db.mappings)
      && (x.expected == db.version && quietSeen == quiet ==> routes == db.routes)
    case _ => true
  }

  ghost predicate Inv(s: State) {
    && (forall i :: 0 <= i < |s.sessions| ==> SessionOk(s.db, s.quiet, s.sessions[i]))
    && (forall i :: 0 <= i < |s.consumed| ==> s.consumed[i] < s.db.version)
    && (forall i, j :: 0 <= i < j < |s.consumed| ==> s.consumed[i] < s.consumed[j])
  }

  lemma StepKeepsSession(s: State, ev: Event, i: nat)
    requires i < |s.sessions| && SessionOk(s.db, s.quiet, s.sessions[i])
    ensures
      var s' := Next(s, ev);
      |s'.sessions| == |s.sessions| && SessionOk(s'.db, s'.quiet, s'.sessions[i])
  {
  }

  lemma StepKeepsInv(s: State, ev: Event)
    requires Inv(s)
    ensures Inv(Next(s, ev))
  {
    forall i | 0 <= i < |s.sessions|
      ensures var s' := Next(s, ev); |s'.sessions| == |s.sessions| && SessionOk(s'.db, s'.quiet, s'.sessions[i])
    {
      StepKeepsSession(s, ev, i);
    }
    assert |Next(s, ev).sessions| == |s.sessions|;
  }

  lemma {:induction false} RunKeepsInv(s: State, evs: seq<Event>)
    requires Inv(s)
    ensures Inv(After(s, evs))
    decreases |evs|
  {
    if evs != [] {
      StepKeepsInv(s, evs[0]);
      RunKeepsInv(Next(s, evs[0]), evs[1..]);
    }
  }

  ghost predicate Reachable(s: State) {
    exists s0, evs :: Initial(s0) && s == After(s0, evs)
  }

  lemma ReachableInv(s: State)
    requires Reachable(s)
    ensures Inv(s)
  {
    var s0, evs :| Initial(s0) && s == After(s0, evs);
    RunKeepsInv(s0, evs);
  }

  // ----------------------------------------------------------------- commits

  /** Session `i` is about to write. */
  predicate Committing(s: State, i: nat) {
    i < |s.sessions| && s.sessions[i].phase.Previewed? && s.db.version == s.sessions[i].expected
  }

  /** A commit merges rows that compare the very aliases it overwrites with the
      routes it read, all of whose targets are supported then; and these are the
      current routes if none changed quietly since this session read them. */
  lemma CommitMergesWhatItCompared(s: State, i: nat)
    requires Reachable(s) && Committing(s, i)
    ensures
      var p := s.sessions[i].phase;
      && Compares(s.db.mappings, p.routes, p.entries)
      && AllSupported(p.routes, s.db.supported)
      && (p.quietSeen == s.quiet ==> p.routes == s.db.routes)
  {
    ReachableInv(s);
    assert SessionOk(s.db, s.quiet, s.sessions[i]);
  }

  /** No update is lost: a commit leaves every alias in place under its name, and
      changes its target only if it is routed and conflicts were to be replaced. */
  lemma CommitLosesNothing(s: State, i: nat, k: nat)
    requires Reachable(s) && Committing(s, i) && k < |s.db.mappings|
    ensures
      var before, after := s.db.mappings, Next(s, Commit(i)).db.mappings;
      && |before| <= |after| && after[k].from == before[k].from
      && (!s.sessions[i].replace || LastTo(s.sessions[i].phase.routes, before[k].from).None? ==> after[k] == before[k])
  {
    CommitMergesWhatItCompared(s, i);
    var x := s.sessions[i];
    var p, from := x.phase, s.db.mappings[k].from;
    ComparesGrounded(s.db.mappings, p.routes, p.entries);
    MergeShape(s.db.mappings, p.entries, x.replace);
    assert Next(s, Commit(i)).db.mappings[k] == Rewritten(s.db.mappings, p.entries, x.replace, k);
    if LastTo(p.routes, from).None? {
      assert from !in Froms(p.entries);
      forall n | 0 <= n < |p.entries| ensures p.entries[n].from != from {
        assert p.entries[n].from == Froms(p.entries)[n];
      }
      ConflictToNone(p.entries, from);
    }
  }

  /** However many administrators apply the same reviewed version, at most one
      succeeds: the versions applied to are strictly ascending. */
  lemma EachVersionAppliedOnce(s: State, i: nat, j: nat)
    requires Reachable(s) && i < |s.consumed| && j < |s.consumed| && s.consumed[i] == s.consumed[j]
    ensures i == j
  {
    ReachableInv(s);
  }

  lemma CommittedTargetSupported(s: State, i: nat, n: nat)
    requires Reachable(s) && Committing(s, i) && n < |s.sessions[i].phase.entries|
    ensures s.sessions[i].phase.entries[n].to in s.db.supported
  {
    CommitMergesWhatItCompared(s, i);
    var p := s.sessions[i].phase;
    assert Reads(s.db.mappings, p.routes, p.entries[n]);
    var k := LastIndex(p.routes, p.entries[n].from);
  }

  /** After a replacing commit over distinct aliases, the channel serves every
      routed alias that is neither a supported model nor auto-trimmed, nor
      rivalled under case folding, with exactly the routed target, whatever is
      hidden. */
  lemma CommittedRoutesAreServed(s: State, i: nat, n: nat, cfg: Config, rows: seq<ModelEntry>)
    requires Reachable(s) && Committing(s, i) && s.sessions[i].replace && DistinctFroms(s.db.mappings)
    requires cfg.models == (set m | m in s.db.supported) && cfg.mappings == s.db.mappings
    requires n < |s.sessions[i].phase.entries|
    requires
      var from := s.sessions[i].phase.entries[n].from;
      from !in cfg.models && forall t :: 0 <= t < |cfg.trims| ==> !TrimHit(cfg, t, from)
    requires
      var after := cfg.(mappings := Next(s, Commit(i)).db.mappings);
      Unrivalled(after, s.sessions[i].phase.entries[n].from) && Lists(after, rows)
    ensures
      var e := s.sessions[i].phase.entries[n];
      ModelEntry(Folded(cfg, e.from), e.to, Mapping) in rows
  {
    CommitMergesWhatItCompared(s, i);
    CommittedTargetSupported(s, i, n);
    var p := s.sessions[i].phase;
    assert cfg.(mappings := Next(s, Commit(i)).db.mappings) == WithRoutes(cfg, p.entries);
    RoutedAliasListed(cfg, p.routes, p.entries, n, rows);
  }

  /** An apply that nothing comes in between of succeeds exactly if the reviewed
      version is the current one and every route leads to a supported model; then
      the aliases are merged under a new version and nothing else in the row
      changes, and otherwise it is refused and the row stays as it is. */
  lemma UndisturbedApply(s: State, i: nat, entries: seq<PreviewEntry>)
    requires i < |s.sessions| && s.sessions[i].phase.Begun? && Compares(s.db.mappings, s.db.routes, entries)
    ensures
      var x, s' := s.sessions[i], After(s, [LoadChannel(i), LoadRoutes(i, entries), Commit(i)]);
      var may := x.expected == s.db.version && forall r :: r in s.db.routes ==> r.to in s.db.supported;
      && s'.sessions == s.sessions[i := Session(x.expected, x.replace, if may then Applied else Refused)]
      && s'.quiet == s.quiet
      && s'.consumed == (if may then s.consumed + [s.db.version] else s.consumed)
      && s'.db == if may
                  then Db(s.db.version + 1, s.db.supported, Merge(s.db.mappings, entries, x.replace), s.db.routes)
                  else s.db
  {
    var evs := [LoadChannel(i), LoadRoutes(i, entries), Commit(i)];
    var s1 := Next(s, evs[0]);
    var s2 := Next(s1, evs[1]);
    ThreeSteps(s, evs[0], evs[1], evs[2]);
    SupportedIff(s.db.routes, s.db.supported);
    assert s1.sessions[i].phase == Loaded(s.db.version, s.db.supported, s.db.mappings);
    assert Next(s2, evs[2]).sessions[i].expected == s.sessions[i].expected;
  }

  lemma ThreeSteps(s: State, a: Event, b: Event, c: Event)
    ensures After(s, [a, b, c]) == Next(Next(Next(s, a), b), c)
  {
    assert [a, b, c][1..] == [b, c] && [b, c][1..] == [c] && [c][1..] == [];
    assert After(Next(Next(s, a), b), [c]) == Next(Next(Next(s, a), b), c);
    assert After(Next(s, a), [b, c]) == After(Next(Next(s, a), b), [c]);
  }

  lemma SupportedIff(routes: seq<ModelMapping>, supported: seq<string>)
    ensures AllSupported(routes, supported) <==> forall r :: r in routes ==> r.to in supported
  {
    assert forall i :: 0 <= i < |routes| ==> routes[i] in routes;
  }

  // ------------------------------------------------- how current the rows are

  /** The routes after the quiet changes among `evs`. */
  function RoutesAfter(routes: seq<ModelMapping>, evs: seq<Event>): seq<ModelMapping>
    decreases |evs|
  {
    if evs == [] then routes
    else RoutesAfter(if evs[0].QuietRoutes? then evs[0].routes else routes, evs[1..])
  }

  lemma {:induction false} VersionsGrow(s: State, evs: seq<Event>, i: nat)
    requires i < |s.sessions|
    ensures
      var s' := After(s, evs);
      && s'.db.version >= s.db.version
      && i < |s'.sessions| && s'.sessions[i].expected == s.sessions[i].expected
    decreases |evs|
  {
    if evs != [] { VersionsGrow(Next(s, evs[0]), evs[1..], i); }
  }

  /** While a session can still commit, only quiet changes have touched the routes. */
  lemma {:induction false} RoutesWhileCommitting(s: State, evs: seq<Event>, i: nat)
    requires Committing(s, i) && Committing(After(s, evs), i)
    ensures After(s, evs).sessions[i] == s.sessions[i]
    ensures After(s, evs).db.routes == RoutesAfter(s.db.routes, evs)
    decreases |evs|
  {
    if evs != [] {
      VersionsGrow(Next(s, evs[0]), evs[1..], i);
      SameVersionStep(s, evs[0], i);
      RoutesWhileCommitting(Next(s, evs[0]), evs[1..], i);
    }
  }

  lemma SameVersionStep(s: State, ev: Event, i: nat)
    requires Committing(s, i) && Next(s, ev).db.version == s.db.version
    ensures Committing(Next(s, ev), i) && Next(s, ev).sessions[i] == s.sessions[i]
    ensures Next(s, ev).db.routes == if ev.QuietRoutes? then ev.routes else s.db.routes
  {
  }

  ghost predicate SameTargets(a: seq<ModelMapping>, b: seq<ModelMapping>) {
    forall f :: LastTo(a, f) == LastTo(b, f)
  }

  lemma ComparesBothIff(mappings: seq<ModelMapping>, a: seq<ModelMapping>, b: seq<ModelMapping>, entries: seq<PreviewEntry>)
    requires Compares(mappings, a, entries)
    ensures Compares(mappings, b, entries) <==> SameTargets(a, b)
  {
    if Compares(mappings, b, entries) {
      forall f ensures LastTo(a, f) == LastTo(b, f) {
        if f in Froms(entries) {
          var n :| 0 <= n < |entries| && Froms(entries)[n] == f;
          assert Reads(mappings, a, entries[n]) && Reads(mappings, b, entries[n]);
        }
      }
    }
    if SameTargets(a, b) {
      forall n | 0 <= n < |entries| ensures Reads(mappings, b, entries[n]) {
        assert Reads(mappings, a, entries[n]);
      }
    }
  }

  /** From the moment a session reads the routes, over every run after which it can
      commit: the routes then are those it read, changed by the quiet changes
      since; and the rows it writes are those that the current routes ask for if
      and only if these changes left every alias its target. */
  lemma CommittedRowsCurrentIff(s: State, i: nat, entries: seq<PreviewEntry>, evs: seq<Event>)
    requires Reachable(s) && i < |s.sessions| && s.sessions[i].phase.Loaded?
    requires Next(s, LoadRoutes(i, entries)).sessions[i].phase.Previewed?
    requires Committing(After(Next(s, LoadRoutes(i, entries)), evs), i)
    ensures
      var s' := After(Next(s, LoadRoutes(i, entries)), evs);
      var p := s'.sessions[i].phase;
      && p.entries == entries && p.routes == s.db.routes
      && s'.db.routes == RoutesAfter(p.routes, evs)
      && (Compares(s'.db.mappings, s'.db.routes, p.entries) <==> SameTargets(p.routes, RoutesAfter(p.routes, evs)))
      && ((forall e :: e in evs ==> !e.QuietRoutes?) ==> s'.db.routes == p.routes)
  {
    var s1 := Next(s, LoadRoutes(i, entries));
    var s' := After(s1, evs);
    ReachableInv(s);
    StepKeepsInv(s, LoadRoutes(i, entries));
    RunKeepsInv(s1, evs);
    VersionsGrow(s1, evs, i);
    assert SessionOk(s1.db, s1.quiet, s1.sessions[i]);
    RoutesWhileCommitting(s1, evs, i);
    assert SessionOk(s'.db, s'.quiet, s'.sessions[i]);
    var p := s'.sessions[i].phase;
    ComparesBothIff(s'.db.mappings, p.routes, s'.db.routes, p.entries);
    if forall e :: e in evs ==> !e.QuietRoutes? { NoQuietKeepsRoutes(p.routes, evs); }
  }

  lemma {:induction false} NoQuietKeepsRoutes(routes: seq<ModelMapping>, evs: seq<Event>)
    requires forall e :: e in evs ==> !e.QuietRoutes?
    ensures RoutesAfter(routes, evs) == routes
    decreases |evs|
  {
    if evs != [] {
      assert evs[0] in evs;
      NoQuietKeepsRoutes(routes, evs[1..]);
    }
  }

  /** Such a run exists: a public model is deleted after its route was read, and
      the apply still creates the alias that no route asks for any more. */
  lemma QuietRoutesGoUnnoticed(a: string, x: string)
    ensures exists s ::
        && Reachable(s) && Committing(s, 0) && s.db.routes == []
        && Next(s, Commit(0)).db.mappings == [ModelMapping(a, x)]
  {
    var routed := [ModelMapping(a, x)];
    var row := PreviewEntry(Create, a, x, None);
    var s0 := State(Db(0, [x], [], routed), [Session(0, true, Begun)], 0, []);
    var s1 := Next(s0, LoadChannel(0));
    var s2 := Next(s1, LoadRoutes(0, [row]));
    var s3 := Next(s2, QuietRoutes([]));
    RowCompares(a, x);
    assert Compares(s1.sessions[0].phase.mappings, s1.db.routes, [row]);
    assert AllSupported(s1.db.routes, s1.sessions[0].phase.supported);
    assert s2.sessions[0].phase == Previewed([x], [], routed, [row], 0);
    var evs := [LoadChannel(0), LoadRoutes(0, [row]), QuietRoutes([])];
    assert evs[1..] == [LoadRoutes(0, [row]), QuietRoutes([])];
    assert evs[1..][1..] == [QuietRoutes([])];
    assert [QuietRoutes([])][1..] == [];
    assert After(s2, [QuietRoutes([])]) == s3;
    assert After(s1, evs[1..]) == s3;
    assert After(s0, evs) == s3;
    assert Reachable(s3);
    assert [row][..0] == [];
    assert Merge([], [row][..0], true) == [];
    assert Merge([], [row], true) == routed;
  }

  lemma RowCompares(a: string, x: string)
    ensures Compares([], [ModelMapping(a, x)], [PreviewEntry(Create, a, x, None)])
  {
    var routed, row := [ModelMapping(a, x)], PreviewEntry(Create, a, x, None);
    forall f ensures f in Froms([row]) <==> LastTo(routed, f).Some? {
      assert Froms([row])[0] == a;
      LastToNone(routed, f);
    }
    LastToIs(routed, 0);
    assert Reads([], routed, row);
  }
}
