/** Refreshing the knowledge graph while the working tree is being edited.

    The refresh command is broken into the steps at which it reads or writes
    shared state; edits may fall between any two of them, the engine reads files
    one at a time and may leave anything behind when it is interrupted, and the
    command may be aborted anywhere.  Refreshes do not overlap. */
module FreshnessProtocol {
  import opened Ordered
  import opened Freshness

  /** A refresh in progress: the first snapshot, the paths edited between the two
      snapshots, and what the engine has read. */
  datatype Run = Run(before: Inputs, touched: set<Path>, view: map<Path, Option<Bytes>>)

  datatype Phase =
    | Idle
    | Indexing(run: Run)
    | Indexed(run: Run)
    | Compared(run: Run, after: Inputs)
    | Identified(run: Run, after: Inputs, indexedAt: Option<string>)
    | Prepared(run: Run, after: Inputs, record: Record)

  /** How the published record came about. */
  datatype Origin = Origin(run: Run, after: Inputs)

  datatype State = State(
    root: string, project: string,
    inputs: Inputs,
    freshness: Option<Record>, artifact: Option<Artifact>, graph: Option<Graph>,
    phase: Phase,
    origin: Option<Origin>)

  datatype Event =
    | Edit(inputs: Inputs)
    | Begin
    | Observe(path: Path)
    | EngineWrites(artifact: Option<Artifact>, graph: Option<Graph>)
    | EngineDone(final: Artifact)
    | Resnapshot
    | ReadArtifact
    | Prepare
    | Publish
    | Abort

  /** The files an engine run indexed. */
  function Seen(view: map<Path, Option<Bytes>>): Inputs {
    map p | p in view && view[p].Some? :: view[p].value
  }

  function Differing(a: Inputs, b: Inputs): (ps: set<Path>)
    ensures forall p :: p in ps <==> Get(a, p) != Get(b, p)
  {
    set p | p in a.Keys + b.Keys && Get(a, p) != Get(b, p)
  }

  /** Edits are noted by a refresh that has not taken its second snapshot yet. */
  function Touch(phase: Phase, ps: set<Path>): Phase {
    match phase
    case Indexing(run) => Indexing(run.(touched := run.touched + ps))
    case Indexed(run) => Indexed(run.(touched := run.touched + ps))
    case _ => phase
  }

  /** One event; an event that is not enabled leaves everything as it is. */
  function Next(s: State, ev: Event): State {
    match ev
    case Edit(inputs) => s.(inputs := inputs, phase := Touch(s.phase, Differing(s.inputs, inputs)))
    case Begin =>
      if s.phase.Idle? && s.inputs != map[] then s.(phase := Indexing(Run(s.inputs, {}, map[]))) else s
    case Observe(p) =>
      if !s.phase.Indexing? then s
      else s.(phase := Indexing(s.phase.run.(view := s.phase.run.view[p := Get(s.inputs, p)])))
    case EngineWrites(artifact, graph) =>
      if s.phase.Indexing? then s.(artifact := artifact, graph := graph) else s
    case EngineDone(artifact) =>
      if !s.phase.Indexing? || !(s.phase.run.before.Keys <= s.phase.run.view.Keys) then s
      else s.(artifact := Some(artifact), graph := Some(Built(Seen(s.phase.run.view))), phase := Indexed(s.phase.run))
    case Resnapshot =>
      if !s.phase.Indexed? then s
      else if s.inputs == map[] || Sha256(Digests(s.phase.run.before)) != Sha256(Digests(s.inputs))
      then s.(phase := Idle)
      else s.(phase := Compared(s.phase.run, s.inputs))
    case ReadArtifact =>
      if !s.phase.Compared? then s
      else if s.artifact.None? || s.artifact.value.project != Some(s.project) then s.(phase := Idle)
      else s.(phase := Identified(s.phase.run, s.phase.after, s.artifact.value.indexedAt))
    case Prepare =>
      if !s.phase.Identified? then s
      else if s.graph.None? then s.(phase := Idle)
      else
        var record := MakeRecord(s.root, s.project, s.phase.after, s.phase.indexedAt, s.graph.value);
        s.(phase := Prepared(s.phase.run, s.phase.after, record))
    case Publish =>
      if !s.phase.Prepared? then s
      else s.(freshness := Some(s.phase.record), origin := Some(Origin(s.phase.run, s.phase.after)), phase := Idle)
    case Abort => s.(phase := Idle)
  }

  function After(s: State, evs: seq<Event>): State
    decreases |evs|
  {
    if evs == [] then s else After(Next(s, evs[0]), evs[1..])
  }

  function Start(root: string, project: string, inputs: Inputs, artifact: Option<Artifact>, graph: Option<Graph>): State {
    State(root, project, inputs, None, artifact, graph, Idle, None)
  }

  function CheckNow(s: State): CheckResult {
    Check(s.root, s.project, s.freshness, s.artifact, s.graph, s.inputs)
  }

  // --------------------------------------------------------------- invariant

  /** What the engine read of untouched paths is what they contained at the start. */
  ghost predicate Watched(run: Run) {
    forall p :: p in run.view && p !in run.touched ==> run.view[p] == Get(run.before, p)
  }

  /** Outside the touched paths the working tree is still the first snapshot. */
  ghost predicate Still(run: Run, inputs: Inputs) {
    forall p :: p !in run.touched ==> Get(inputs, p) == Get(run.before, p)
  }

  /** The engine finished after reading every file of the first snapshot. */
  ghost predicate Finished(run: Run, graph: Option<Graph>) {
    Watched(run) && run.before.Keys <= run.view.Keys && graph == Some(Built(Seen(run.view)))
  }

  ghost predicate PhaseOk(s: State) {
    match s.phase
    case Idle => true
    case Indexing(run) => Watched(run) && Still(run, s.inputs)
    case Indexed(run) => Finished(run, s.graph) && Still(run, s.inputs)
    case Compared(run, after) => Finished(run, s.graph) && after == run.before
    case Identified(run, after, _) => Finished(run, s.graph) && after == run.before
    case Prepared(run, after, record) =>
      && Finished(run, s.graph) && after == run.before
      && record == MakeRecord(s.root, s.project, after, record.indexedAt, Built(Seen(run.view)))
  }

  ghost predicate RecordOk(s: State) {
    && (s.freshness.Some? <==> s.origin.Some?)
    && (s.origin.Some? ==>
          var o := s.origin.value;
          && o.after == o.run.before
          && Watched(o.run) && o.run.before.Keys <= o.run.view.Keys
          && s.freshness.value ==
               MakeRecord(s.root, s.project, o.after, s.freshness.value.indexedAt, Built(Seen(o.run.view))))
  }

  ghost predicate Inv(s: State) { PhaseOk(s) && RecordOk(s) }

  lemma StepKeepsInv(s: State, ev: Event)
    requires Inv(s)
    ensures Inv(Next(s, ev))
  {
    match ev
    case Edit(inputs) => EditKeepsInv(s, inputs);
    case Resnapshot =>
      if s.phase.Indexed? && Sha256(Digests(s.phase.run.before)) == Sha256(Digests(s.inputs)) {
        DigestsInjective(s.phase.run.before, s.inputs);
      }
    case _ =>
  }

  lemma EditKeepsInv(s: State, inputs: Inputs)
    requires Inv(s)
    ensures Inv(Next(s, Edit(inputs)))
  {
    var ps := Differing(s.inputs, inputs);
    if s.phase.Indexing? || s.phase.Indexed? {
      var run := s.phase.run;
      var run' := run.(touched := run.touched + ps);
      forall p | p !in run'.touched ensures Get(inputs, p) == Get(run.before, p) {
        assert Get(s.inputs, p) == Get(inputs, p);
      }
    }
  }

  lemma {:induction false} RunKeepsInv(s: State, evs: seq<Event>)
    requires Inv(s)
    ensures Inv(After(s, evs))
    decreases |evs|
  {
    if evs != [] {
      StepKeepsInv(s, evs[0]);
      RunKeepsInv(Next(s, evs[0]), evs[1..]);
    }
  }

  ghost predicate Reachable(s: State) {
    exists root, project, inputs, artifact, graph, evs ::
      s == After(Start(root, project, inputs, artifact, graph), evs)
  }

  lemma ReachableInv(s: State)
    requires Reachable(s)
    ensures Inv(s)
  {
    var root, project, inputs, artifact, graph, evs :|
      s == After(Start(root, project, inputs, artifact, graph), evs);
    RunKeepsInv(Start(root, project, inputs, artifact, graph), evs);
  }

  // ------------------------------------------------------------------ safety

  /** In any reachable state the check passes exactly when the cache still holds
      what the last completed refresh recorded and the working tree is back at
      (or still at) the inputs that it recorded. */
  lemma CheckPassesIff(s: State)
    requires Reachable(s)
    ensures s.origin.Some? ==> s.freshness.Some?
    ensures CheckNow(s).Pass? <==>
      && s.origin.Some? && s.inputs != map[] && s.inputs == s.origin.value.after
      && s.graph == Some(Built(Seen(s.origin.value.run.view)))
      && s.artifact == Some(Artifact(Some(s.project), s.freshness.value.indexedAt))
  {
    ReachableInv(s);
    if s.origin.Some? && Digests(s.origin.value.after) == Digests(s.inputs) {
      DigestsInjective(s.origin.value.after, s.inputs);
    }
  }

  /** A passing check, in any reachable state: the current inputs are the recorded
      ones, which both snapshots of the publishing refresh found, the graph on
      disk is the one recorded, and it shows every path as it is now, except
      possibly paths that were edited and edited back while it was being built. */
  lemma PassingCheckIsFresh(s: State)
    requires Reachable(s) && CheckNow(s).Pass?
    ensures s.freshness.Some? && s.origin.Some?
    ensures s.freshness.value.files == Digests(s.inputs)
    ensures s.origin.value.run.before == s.inputs && s.origin.value.after == s.inputs
    ensures s.graph == Some(Built(Seen(s.origin.value.run.view)))
    ensures forall p :: p !in s.origin.value.run.touched ==>
        Get(Seen(s.origin.value.run.view), p) == Get(s.inputs, p)
  {
    ReachableInv(s);
    CheckPassesIff(s);
    var o := s.origin.value;
    forall p | p !in o.run.touched ensures Get(Seen(o.run.view), p) == Get(s.inputs, p) {
      assert p in o.run.before ==> p in o.run.view;
    }
  }

  /** Under a passing check the graph is the index of the working tree as it is if
      and only if the engine saw every touched path with the content it has now;
      in particular if nothing was touched. */
  lemma PassingCheckIsExactIff(s: State)
    requires Reachable(s) && CheckNow(s).Pass?
    ensures s.origin.Some?
    ensures
      var run := s.origin.value.run;
      && (s.graph == Some(Built(s.inputs)) <==>
            forall p :: p in run.touched ==> Get(Seen(run.view), p) == Get(s.inputs, p))
      && (run.touched == {} ==> s.graph == Some(Built(s.inputs)))
  {
    PassingCheckIsFresh(s);
    var run := s.origin.value.run;
    if forall p :: p in run.touched ==> Get(Seen(run.view), p) == Get(s.inputs, p) {
      SameLookupsSameMap(Seen(run.view), s.inputs);
    }
  }

  /** A stale report lists exactly the paths whose recorded and current digests
      differ, and at least one. */
  lemma StaleNamesChanges(s: State)
    requires Reachable(s) && CheckNow(s).Stale?
    ensures s.freshness.Some?
    ensures CheckNow(s).changed != []
    ensures forall p :: p in CheckNow(s).changed <==> Get(s.freshness.value.files, p) != Get(Digests(s.inputs), p)
  {
    ReachableInv(s);
    var recorded, current := s.freshness.value.files, Digests(s.inputs);
    if Changed(recorded, current) == [] {
      forall p ensures Get(recorded, p) == Get(current, p) {
        assert p !in Changed(recorded, current);
      }
      SameLookupsSameMap(recorded, current);
      assert false;
    }
  }

  // ------------------------------------------------- refreshes that stop short

  ghost predicate NoPublish(evs: seq<Event>) { Publish !in evs }

  lemma {:induction false} UnpublishedKeepsRecord(s: State, evs: seq<Event>)
    requires NoPublish(evs)
    ensures
      var s' := After(s, evs);
      s'.freshness == s.freshness && s'.origin == s.origin && s'.root == s.root && s'.project == s.project
    decreases |evs|
  {
    if evs != [] {
      assert evs[0] in evs;
      UnpublishedKeepsRecord(Next(s, evs[0]), evs[1..]);
    }
  }

  /** However a refresh is cut short, a check passes afterwards only if the graph
      on disk is byte for byte the one recorded before and the inputs are the
      recorded ones; with nothing recorded it cannot pass at all. */
  lemma AbortedRefreshIsHarmless(s: State, evs: seq<Event>)
    requires Reachable(s) && NoPublish(evs) && CheckNow(After(s, evs)).Pass?
    ensures s.origin.Some?
    ensures After(s, evs).graph == Some(Built(Seen(s.origin.value.run.view)))
    ensures After(s, evs).inputs == s.origin.value.after
  {
    ReachableInv(s);
    RunKeepsInv(s, evs);
    UnpublishedKeepsRecord(s, evs);
    var s' := After(s, evs);
    DigestsInjective(s'.origin.value.after, s'.inputs);
  }

  // ----------------------------------------------- undisturbed and disturbed

  function Observing(paths: seq<Path>): (evs: seq<Event>)
    ensures |evs| == |paths|
  {
    if paths == [] then [] else [Observe(paths[0])] + Observing(paths[1..])
  }

  lemma {:induction false} AfterConcat(s: State, a: seq<Event>, b: seq<Event>)
    ensures After(s, a + b) == After(After(s, a), b)
    decreases |a|
  {
    if a == [] {
      assert a + b == b;
    } else {
      assert (a + b)[1..] == a[1..] + b;
      AfterConcat(Next(s, a[0]), a[1..], b);
    }
  }

  lemma {:induction false} ObservingReads(s: State, paths: seq<Path>)
    requires s.phase.Indexing?
    ensures
      var s' := After(s, Observing(paths));
      && s'.phase.Indexing? && s' == s.(phase := s'.phase)
      && s'.phase.run.before == s.phase.run.before && s'.phase.run.touched == s.phase.run.touched
      && (forall p :: p in s'.phase.run.view <==> p in s.phase.run.view || p in paths)
    decreases |paths|
  {
    if paths != [] {
      ObservingReads(Next(s, Observe(paths[0])), paths[1..]);
    }
  }

  lemma AfterOne(s: State, e: Event)
    ensures After(s, [e]) == Next(s, e)
  {
    assert [e][1..] == [];
  }

  lemma AfterTwo(s: State, e1: Event, e2: Event)
    ensures After(s, [e1, e2]) == Next(Next(s, e1), e2)
  {
    AfterOne(Next(s, e1), e2);
    assert [e1, e2][1..] == [e2];
  }

  lemma AfterFour(s: State, e1: Event, e2: Event, e3: Event, e4: Event)
    ensures After(s, [e1, e2, e3, e4]) == Next(Next(Next(Next(s, e1), e2), e3), e4)
  {
    AfterConcat(s, [e1, e2], [e3, e4]);
    AfterTwo(s, e1, e2);
    AfterTwo(Next(Next(s, e1), e2), e3, e4);
    assert [e1, e2] + [e3, e4] == [e1, e2, e3, e4];
  }

  const FINISH: seq<Event> := [Resnapshot, ReadArtifact, Prepare, Publish]

  lemma FinishPublishes(s: State)
    requires s.phase.Indexed? && s.phase.run.before == s.inputs && s.inputs != map[]
    requires s.artifact.Some? && s.artifact.value.project == Some(s.project) && s.graph.Some?
    ensures
      var s' := After(s, FINISH);
      && s' == s.(freshness := s'.freshness, origin := s'.origin, phase := Idle)
      && s'.freshness == Some(MakeRecord(s.root, s.project, s.inputs, s.artifact.value.indexedAt, s.graph.value))
      && s'.origin == Some(Origin(s.phase.run, s.inputs))
      && CheckNow(s').Pass?
  {
    AfterFour(s, Resnapshot, ReadArtifact, Prepare, Publish);
  }

  // ------------------------------------------- the refresh command as a run

  function DiskOf(s: State): Disk { Disk(s.freshness, s.artifact, s.graph) }

  /** What can happen between the start and the end of the engine. */
  predicate DuringIndexing(ev: Event) { ev.Observe? || ev.Edit? || ev.EngineWrites? }

  lemma {:induction false} IndexingGoesOn(s: State, evs: seq<Event>)
    requires s.phase.Indexing? && forall e :: e in evs ==> DuringIndexing(e)
    ensures
      var s' := After(s, evs);
      && s'.phase.Indexing? && s'.phase.run.before == s.phase.run.before
      && s'.freshness == s.freshness && s'.root == s.root && s'.project == s.project
    decreases |evs|
  {
    if evs != [] {
      assert DuringIndexing(evs[0]);
      IndexingGoesOn(Next(s, evs[0]), evs[1..]);
    }
  }

  /** The steps after the engine, from any state it can leave. */
  lemma FinishIsRefreshed(s: State, disk: Disk)
    requires s.phase.Indexed? && s.phase.run.before != map[] && disk.freshness == s.freshness
    ensures DiskOf(After(s, FINISH)) ==
      Refreshed(s.root, s.project, disk, s.phase.run.before, EngineOutcome(0, s.artifact, s.graph), s.inputs)
    ensures After(s, FINISH).phase.Idle?
  {
    AfterFour(s, Resnapshot, ReadArtifact, Prepare, Publish);
    if Digests(s.phase.run.before) == Digests(s.inputs) {
      DigestsInjective(s.phase.run.before, s.inputs);
    }
  }

  /** Without inputs a refresh does not even begin, whatever follows. */
  lemma EmptyRefreshIsRun(s: State, engine: EngineOutcome, after: Inputs)
    requires s.phase.Idle? && s.inputs == map[]
    ensures Next(s, Begin) == s
    ensures DiskOf(After(s, [Begin] + FINISH)) == Refreshed(s.root, s.project, DiskOf(s), s.inputs, engine, after)
  {
    AfterConcat(s, [Begin], FINISH);
    AfterOne(s, Begin);
    AfterFour(s, Resnapshot, ReadArtifact, Prepare, Publish);
  }

  /** With a failing engine, whatever it and others do in the meantime, the steps
      of the protocol leave on disk what the refresh command does. */
  lemma FailedRefreshIsRun(s: State, mid: seq<Event>, engine: EngineOutcome, after: Inputs)
    requires s.phase.Idle? && s.inputs != map[] && engine.exitCode != 0
    requires forall e :: e in mid ==> DuringIndexing(e)
    ensures
      DiskOf(After(s, [Begin] + (mid + [EngineWrites(engine.artifact, engine.graph), Abort]))) ==
        Refreshed(s.root, s.project, DiskOf(s), s.inputs, engine, after)
  {
    var tail := [EngineWrites(engine.artifact, engine.graph), Abort];
    var s1 := Next(s, Begin);
    IndexingGoesOn(s1, mid);
    AfterOne(s, Begin);
    AfterConcat(s, [Begin], mid + tail);
    AfterConcat(s1, mid, tail);
    AfterTwo(After(s1, mid), EngineWrites(engine.artifact, engine.graph), Abort);
  }

  /** With a succeeding engine, whatever is edited, read and written while it works
      and whatever the inputs are when it is done, the steps of the protocol
      leave on disk what the refresh command does. */
  lemma RefreshIsRun(s: State, mid: seq<Event>, artifact: Artifact, after: Inputs)
    requires s.phase.Idle? && s.inputs != map[]
    requires forall e :: e in mid ==> DuringIndexing(e)
    requires
      var s2 := After(Next(s, Begin), mid);
      s2.phase.Indexing? && s2.phase.run.before.Keys <= s2.phase.run.view.Keys
    ensures
      var seen := Seen(After(Next(s, Begin), mid).phase.run.view);
      DiskOf(After(s, [Begin] + (mid + ([EngineDone(artifact), Edit(after)] + FINISH)))) ==
        Refreshed(s.root, s.project, DiskOf(s), s.inputs, EngineOutcome(0, Some(artifact), Some(Built(seen))), after)
  {
    var s1 := Next(s, Begin);
    var s2 := After(s1, mid);
    var s3 := Next(Next(s2, EngineDone(artifact)), Edit(after));
    IndexingGoesOn(s1, mid);
    AfterOne(s, Begin);
    AfterConcat(s, [Begin], mid + ([EngineDone(artifact), Edit(after)] + FINISH));
    AfterConcat(s1, mid, [EngineDone(artifact), Edit(after)] + FINISH);
    AfterConcat(s2, [EngineDone(artifact), Edit(after)], FINISH);
    AfterTwo(s2, EngineDone(artifact), Edit(after));
    FinishIsRefreshed(s3, DiskOf(s));
  }

  /** The events of a refresh that reads every input once and is left alone. */
  function FullRefresh(inputs: Inputs, artifact: Artifact): seq<Event> {
    IndexAll(inputs, artifact) + FINISH
  }

  function IndexAll(inputs: Inputs, artifact: Artifact): seq<Event> {
    [Begin] + (Observing(Sorted(inputs.Keys)) + [EngineDone(artifact)])
  }

  lemma IndexAllBuilds(s: State, artifact: Artifact)
    requires Inv(s) && s.phase.Idle? && s.inputs != map[]
    ensures
      var s' := After(s, IndexAll(s.inputs, artifact));
      && s'.phase.Indexed? && s'.phase.run.before == s.inputs
      && s' == s.(phase := s'.phase, artifact := Some(artifact), graph := Some(Built(s.inputs)))
  {
    var paths := Sorted(s.inputs.Keys);
    var s1 := Next(s, Begin);
    var s2 := After(s1, Observing(paths));
    AfterConcat(s, [Begin], Observing(paths) + [EngineDone(artifact)]);
    AfterOne(s, Begin);
    AfterConcat(s1, Observing(paths), [EngineDone(artifact)]);
    AfterOne(s2, EngineDone(artifact));
    ObservingReads(s1, paths);
    StepKeepsInv(s, Begin);
    RunKeepsInv(s1, Observing(paths));
    ViewIsInputs(s2);
  }

  /** An undisturbed refresh makes the check pass, and its graph is exact. */
  lemma UndisturbedRefreshPasses(s: State, indexedAt: Option<string>)
    requires Reachable(s) && s.phase.Idle? && s.inputs != map[]
    ensures
      var s' := After(s, FullRefresh(s.inputs, Artifact(Some(s.project), indexedAt)));
      CheckNow(s').Pass? && s'.graph == Some(Built(s.inputs)) && s'.inputs == s.inputs
  {
    var artifact := Artifact(Some(s.project), indexedAt);
    ReachableInv(s);
    IndexAllBuilds(s, artifact);
    AfterConcat(s, IndexAll(s.inputs, artifact), FINISH);
    FinishPublishes(After(s, IndexAll(s.inputs, artifact)));
  }

  lemma ViewIsInputs(s: State)
    requires s.phase.Indexing? && PhaseOk(s) && s.phase.run.touched == {} && s.phase.run.before == s.inputs
    requires forall p :: p in s.inputs ==> p in s.phase.run.view
    ensures Seen(s.phase.run.view) == s.inputs
  {
    forall p ensures Get(Seen(s.phase.run.view), p) == Get(s.inputs, p) {
      assert p in s.inputs ==> p in s.phase.run.view;
    }
    SameLookupsSameMap(Seen(s.phase.run.view), s.inputs);
  }

  /** A file that changes and changes back while it is being read goes unnoticed:
      the check passes although the graph shows the content in between. */
  lemma RevertedEditGoesUnnoticed(root: string, project: string, p: Path, x: Bytes, y: Bytes)
    requires x != y
    ensures
      var evs := [Begin, Edit(map[p := y]), Observe(p), Edit(map[p := x])]
        + ([EngineDone(Artifact(Some(project), None))] + FINISH);
      var s := After(Start(root, project, map[p := x], None, None), evs);
      CheckNow(s).Pass? && s.inputs == map[p := x] && s.graph == Some(Built(map[p := y]))
  {
    var artifact := Artifact(Some(project), None);
    var s0 := Start(root, project, map[p := x], None, None);
    var edits := [Begin, Edit(map[p := y]), Observe(p), Edit(map[p := x])];
    AfterFour(s0, Begin, Edit(map[p := y]), Observe(p), Edit(map[p := x]));
    var s4 := After(s0, edits);
    assert p in s0.inputs;
    assert s4.phase.Indexing? && s4.phase.run.view == map[p := Some(y)];
    assert Seen(s4.phase.run.view) == map[p := y];
    var s5 := Next(s4, EngineDone(artifact));
    AfterOne(s4, EngineDone(artifact));
    AfterConcat(s4, [EngineDone(artifact)], FINISH);
    AfterConcat(s0, edits, [EngineDone(artifact)] + FINISH);
    FinishPublishes(s5);
  }
}
