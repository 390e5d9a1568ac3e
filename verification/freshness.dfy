/** The knowledge-graph cache: content snapshots, the freshness record and the
    check that compares them.  Hashing is modelled by a constructor, so two
    digests agree exactly when the hashed values do. */
module Freshness {
  import opened Ordered

  type Path = string
  type Bytes = string

  datatype Digest<T> = Sha256(preimage: T)

  /** The project inputs: eligible files and their contents. */
  type Inputs = map<Path, Bytes>
  type FileMap = map<Path, Digest<Bytes>>

  datatype Node = File(content: Bytes) | Symlink | Absent

  /** A persisted graph: the index of some files as the engine saw them, or
      whatever an interrupted engine left behind. */
  datatype Graph = Built(seen: Inputs) | Debris(bytes: Bytes)

  datatype Artifact = Artifact(project: Option<string>, indexedAt: Option<string>)

  datatype Record = Record(
    root: string, inputSha: Digest<FileMap>, files: FileMap,
    project: string, indexedAt: Option<string>, graphSha: Digest<Graph>)

  // ---------------------------------------------------------------- snapshot

  predicate Eligible(path: Path, node: Node, skipped: Path -> bool) {
    path != "" && node.File? && !skipped(path)
  }

  function InputsOf(listing: seq<Path>, disk: map<Path, Node>, skipped: Path -> bool): Inputs {
    map p | p in listing && p in disk && Eligible(p, disk[p], skipped) :: disk[p].content
  }

  function Digests(inputs: Inputs): FileMap {
    map p | p in inputs :: Sha256(inputs[p])
  }

  /** Equal digests mean equal contents. */
  lemma DigestsInjective(a: Inputs, b: Inputs)
    requires Digests(a) == Digests(b)
    ensures a == b
  {
    assert Digests(a).Keys == a.Keys && Digests(b).Keys == b.Keys;
    forall p | p in a ensures a[p] == b[p] {
      assert Digests(a)[p] == Digests(b)[p];
    }
  }

  /** The inputs are the listed regular files outside the skip rule. */
  lemma InputsAre(listing: seq<Path>, disk: map<Path, Node>, skipped: Path -> bool)
    ensures
      var inputs := InputsOf(listing, disk, skipped);
      && (forall p :: p in inputs <==> p in listing && p != "" && p in disk && disk[p].File? && !skipped(p))
      && (forall p :: p in inputs ==> inputs[p] == disk[p].content)
      && (inputs == map[] <==> forall p :: p in listing && p != "" && p in disk && disk[p].File? ==> skipped(p))
  {
    var inputs := InputsOf(listing, disk, skipped);
    if forall p :: p in listing && p != "" && p in disk && disk[p].File? ==> skipped(p) {
      assert forall p :: p !in inputs;
      assert inputs == map[];
    }
    if p :| p in listing && p != "" && p in disk && disk[p].File? && !skipped(p) {
      assert p in inputs;
    }
  }

  /** A snapshot has the listed regular files outside the skip rule, each with the
      digest of its own content, and there is none exactly if there is no such file. */
  ghost predicate Digested(listing: seq<Path>, disk: map<Path, Node>, skipped: Path -> bool, r: Option<FileMap>) {
    && (r.Some? ==> forall p :: p in r.value <==>
          p in listing && p != "" && p in disk && disk[p].File? && !skipped(p))
    && (r.Some? ==> forall p :: p in r.value ==> r.value[p] == Sha256(disk[p].content))
    && (r.None? <==> forall p :: p in listing && p != "" && p in disk && disk[p].File? ==> skipped(p))
  }

  lemma DigestsAre(listing: seq<Path>, disk: map<Path, Node>, skipped: Path -> bool)
    ensures
      var inputs := InputsOf(listing, disk, skipped);
      Digested(listing, disk, skipped, if inputs == map[] then None else Some(Digests(inputs)))
  {
    InputsAre(listing, disk, skipped);
  }

  /** Hash every eligible listed file; an empty result is refused. */
  method Snapshot(listing: seq<Path>, disk: map<Path, Node>, skipped: Path -> bool)
    returns (r: Option<FileMap>)
    ensures
      var inputs := InputsOf(listing, disk, skipped);
      r == if inputs == map[] then None else Some(Digests(inputs))
    ensures Digested(listing, disk, skipped, r)
  {
    var paths := Sorted(set p | p in listing && p != "");
    ghost var inputs := InputsOf(listing, disk, skipped);
    var files: FileMap := map[];
    for i := 0 to |paths|
      invariant forall q :: Get(files, q) == if q in paths[..i] then Get(Digests(inputs), q) else None
    {
      var p := paths[i];
      assert paths[..i + 1] == paths[..i] + [p];
      assert p in paths;
      if p in disk && Eligible(p, disk[p], skipped) {
        files := files[p := Sha256(disk[p].content)];
      }
    }
    assert paths[..|paths|] == paths;
    SameLookupsSameMap(files, Digests(inputs));
    DigestsAre(listing, disk, skipped);
    assert Digests(inputs).Keys == inputs.Keys;
    r := if files == map[] then None else Some(files);
  }

  // ------------------------------------------------------------------- check

  datatype CheckResult = Pass | Stale(changed: seq<Path>) | Fail(reason: string)

  /** The paths on which two file maps differ, in ascending order. */
  function Changed(recorded: FileMap, current: FileMap): (ps: seq<Path>)
    ensures Ascending(ps)
    ensures forall p :: p in ps <==> Get(recorded, p) != Get(current, p)
  {
    var ps := set p | p in recorded.Keys + current.Keys && Get(recorded, p) != Get(current, p);
    Sorted(ps)
  }

  function CheckGraphIdentity(project: string, freshness: Option<Record>, artifact: Option<Artifact>,
                              graph: Option<Graph>): Option<string>
  {
    if freshness.None? || artifact.None? then Some("cache file is missing")
    else if freshness.value.project != project || artifact.value.project != Some(project)
    then Some("graph project identity does not match local settings")
    else if freshness.value.indexedAt != artifact.value.indexedAt
    then Some("graph generation differs from freshness record")
    else if graph.None? then Some("cache file is missing")
    else if freshness.value.graphSha != Sha256(graph.value)
    then Some("graph content differs from freshness record")
    else None
  }

  function Check(root: string, project: string, freshness: Option<Record>, artifact: Option<Artifact>,
                 graph: Option<Graph>, inputs: Inputs): CheckResult
  {
    var identity := CheckGraphIdentity(project, freshness, artifact, graph);
    if identity.Some? then Fail(identity.value)
    else if inputs == map[] then Fail("no project inputs found")
    else if freshness.value.root != root then Fail("freshness record belongs to another worktree")
    else if freshness.value.inputSha != Sha256(Digests(inputs))
    then Stale(Changed(freshness.value.files, Digests(inputs)))
    else Pass
  }

  function MakeRecord(root: string, project: string, after: Inputs, indexedAt: Option<string>, graph: Graph): Record {
    Record(root, Sha256(Digests(after)), Digests(after), project, indexedAt, Sha256(graph))
  }

  // ------------------------------------------------------------ on-disk state

  datatype Status = Done | IndexFailed | Error(reason: string)

  /** What the external engine leaves behind when it returns. */
  datatype EngineOutcome = EngineOutcome(exitCode: int, artifact: Option<Artifact>, graph: Option<Graph>)

  /** The three cache files. */
  datatype Disk = Disk(freshness: Option<Record>, artifact: Option<Artifact>, graph: Option<Graph>)

  /** A refresh succeeds if there are inputs, the engine does, both snapshots
      agree, and what it persisted is this project's. */
  predicate Succeeds(project: string, before: Inputs, engine: EngineOutcome, after: Inputs) {
    && before != map[] && engine.exitCode == 0 && before == after
    && engine.artifact.Some? && engine.artifact.value.project == Some(project) && engine.graph.Some?
  }

  /** What a refresh leaves on disk. */
  function Refreshed(root: string, project: string, disk: Disk, before: Inputs, engine: EngineOutcome, after: Inputs): Disk {
    if before == map[] then disk
    else if !Succeeds(project, before, engine, after) then Disk(disk.freshness, engine.artifact, engine.graph)
    else
      var record := MakeRecord(root, project, after, engine.artifact.value.indexedAt, engine.graph.value);
      Disk(Some(record), engine.artifact, engine.graph)
  }

  class Cache {
    var freshness: Option<Record>
    var artifact: Option<Artifact>
    var graph: Option<Graph>

    function Contents(): Disk reads this { Disk(freshness, artifact, graph) }

    /** The refresh command, with the working tree it finds before and after
        indexing and the outcome of the engine in between.  The record changes
        only if everything matched, and then describes exactly what is there. */
    method Refresh(root: string, project: string, before: Inputs, engine: EngineOutcome, after: Inputs)
      returns (status: Status)
      modifies this
      ensures status.Done? <==> Succeeds(project, before, engine, after)
      ensures Contents() == Refreshed(root, project, old(Contents()), before, engine, after)
      ensures before == map[] ==> unchanged(this)
      ensures before != map[] ==> artifact == engine.artifact && graph == engine.graph
      ensures status.Done? ==>
        freshness == Some(MakeRecord(root, project, after, engine.artifact.value.indexedAt, engine.graph.value))
      ensures !status.Done? ==> freshness == old(freshness)
      ensures status.Done? ==> Check(root, project, freshness, artifact, graph, after).Pass?
    {
      if before == map[] { return Error("no project inputs found"); }
      artifact, graph := engine.artifact, engine.graph;
      if engine.exitCode != 0 { return IndexFailed; }
      if after == map[] { return Error("no project inputs found"); }
      if Sha256(Digests(before)) != Sha256(Digests(after)) {
        return Error("inputs changed during indexing; no fresh record written");
      }
      DigestsInjective(before, after);
      if artifact.None? { return Error("cache file is missing"); }
      if artifact.value.project != Some(project) { return Error("unexpected project identity"); }
      if graph.None? { return Error("cache file is missing"); }
      var record := MakeRecord(root, project, after, artifact.value.indexedAt, graph.value);
      freshness := Some(record);
      return Done;
    }

    /** The check passes exactly when the record is of this root and project, the
        artifact is of the recorded generation, the graph is the recorded one, and
        there are inputs and they are the recorded ones; it reports stale inputs
        exactly when only the inputs differ, and then which. */
    method CheckFreshness(root: string, project: string, inputs: Inputs) returns (r: CheckResult)
      ensures r == Check(root, project, freshness, artifact, graph, inputs)
      ensures r.Pass? || r.Stale? <==>
        && freshness.Some? && freshness.value.project == project && freshness.value.root == root
        && artifact == Some(Artifact(Some(project), freshness.value.indexedAt))
        && graph.Some? && freshness.value.graphSha == Sha256(graph.value)
        && inputs != map[]
      ensures r.Pass? ==> freshness.value.inputSha == Sha256(Digests(inputs))
      ensures r.Stale? ==>
        && freshness.value.inputSha != Sha256(Digests(inputs))
        && Ascending(r.changed)
        && forall p :: p in r.changed <==> Get(freshness.value.files, p) != Get(Digests(inputs), p)
    {
      var identity := CheckGraphIdentity(project, freshness, artifact, graph);
      if identity.Some? { return Fail(identity.value); }
      if inputs == map[] { return Fail("no project inputs found"); }
      var recorded, current := freshness.value, Digests(inputs);
      if recorded.root != root { return Fail("freshness record belongs to another worktree"); }
      if recorded.inputSha != Sha256(current) { return Stale(Changed(recorded.files, current)); }
      return Pass;
    }
  }
}
