/** Authorization of root fields and the lock around settings-writing mutations,
    for any number of resolutions in flight. */
module SettingsLock {
  import opened Ordered

  datatype FieldAuthz = Public | Authenticated | Scope(slug: string) | OwnerOnly | Deny

  datatype Principal = Principal(id: string, isOwner: bool)

  /** One field to resolve, with the request context it is resolved in. */
  datatype Request = Request(
    parentType: string, field: string, introspection: bool,
    principal: Option<Principal>, projectId: Option<string>)

  /** The field table, the scope policy, and whether a lock is registered. */
  datatype Env = Env(
    table: map<string, FieldAuthz>,
    allows: (Principal, string) -> bool,
    allowsInProject: (Principal, string, string) -> bool,
    lockInstalled: bool)

  const WRITE_SETTINGS := "write_settings"
  const WRITE_CHANNELS := "write_channels"

  /** The scopes that a project role can carry. */
  const PROJECT_ROLE_SCOPES := {
    "read_users", "write_users", "read_roles", "write_roles", "read_api_keys", "write_api_keys",
    "read_requests", "write_requests", "read_prompts", "write_prompts" }

  const ALSO_WRITE_SETTINGS := {
    "updateAutoBackupSettings", "updateProductExperienceSettings",
    "completeFinancialSetupOnboarding", "setChannelModelMappingAutomation" }

  /** An unmapped field is denied. */
  function Authz(env: Env, field: string): FieldAuthz {
    if field in env.table then env.table[field] else Deny
  }

  predicate EnforceField(env: Env, r: Request) {
    match Authz(env, r.field)
    case Public => true
    case Authenticated => r.principal.Some?
    case Scope(slug) =>
      r.principal.Some? &&
      if slug in PROJECT_ROLE_SCOPES && r.projectId.Some?
      then env.allowsInProject(r.principal.value, r.projectId.value, slug)
      else env.allows(r.principal.value, slug)
    case OwnerOnly => r.principal.Some? && r.principal.value.isOwner
    case Deny => false
  }

  /** Only root fields outside introspection are gated. */
  predicate Gated(r: Request) {
    (r.parentType == "QueryRoot" || r.parentType == "MutationRoot") && !r.introspection
  }

  predicate Admits(env: Env, r: Request) { Gated(r) ==> EnforceField(env, r) }

  predicate WritesSettings(env: Env, r: Request) {
    r.parentType == "MutationRoot"
    && (Authz(env, r.field) == Scope(WRITE_SETTINGS) || r.field in ALSO_WRITE_SETTINGS)
  }

  predicate NeedsLock(env: Env, r: Request) { WritesSettings(env, r) && env.lockInstalled }

  // ------------------------------------------------------------ the protocol

  datatype Phase =
    | Fresh
    | Waiting              // admitted, asking for the permit
    | Running              // `next.run` in progress, with the permit if one is needed
    | Releasing(ok: bool)  // the field has resolved, the permit is still held
    | Resolved(ok: bool)
    | Denied
    | LockFailed

  datatype Task = Task(request: Request, phase: Phase)

  datatype What = Admitted | Refused | Acquired | AcquireError | Started | Finished(ok: bool) | Released

  datatype LogEntry = LogEntry(task: nat, what: What)

  datatype State = State(tasks: seq<Task>, holder: Option<nat>, log: seq<LogEntry>)

  datatype Action =
    | Authorize(task: nat)
    | Acquire(task: nat)
    | AcquireFails(task: nat)
    | Finish(task: nat, ok: bool)
    | Release(task: nat)

  predicate Enabled(s: State, a: Action) {
    a.task < |s.tasks| &&
    var phase := s.tasks[a.task].phase;
    match a
    case Authorize(_) => phase.Fresh?
    case Acquire(_) => phase.Waiting? && s.holder.None?
    case AcquireFails(_) => phase.Waiting?
    case Finish(_, _) => phase.Running?
    case Release(_) => phase.Releasing?
  }

  function Move(s: State, i: nat, phase: Phase, whats: seq<What>): State
    requires i < |s.tasks|
  {
    s.(tasks := s.tasks[i := s.tasks[i].(phase := phase)],
       log := s.log + seq(|whats|, n requires 0 <= n < |whats| => LogEntry(i, whats[n])))
  }

  function Step(env: Env, s: State, a: Action): State
    requires Enabled(s, a)
  {
    var i := a.task;
    var r := s.tasks[i].request;
    match a
    case Authorize(_) =>
      if !Admits(env, r) then Move(s, i, Denied, [Refused])
      else if NeedsLock(env, r) then Move(s, i, Waiting, [Admitted])
      else Move(s, i, Running, [Admitted, Started])
    case Acquire(_) => Move(s, i, Running, [Acquired, Started]).(holder := Some(i))
    case AcquireFails(_) => Move(s, i, LockFailed, [AcquireError])
    case Finish(_, ok) => Move(s, i, if NeedsLock(env, r) then Releasing(ok) else Resolved(ok), [Finished(ok)])
    case Release(_) => Move(s, i, Resolved(s.tasks[i].phase.ok), [Released]).(holder := None)
  }

  function Next(env: Env, s: State, a: Action): State {
    if Enabled(s, a) then Step(env, s, a) else s
  }

  function After(env: Env, s: State, actions: seq<Action>): State
    decreases |actions|
  {
    if actions == [] then s else After(env, Next(env, s, actions[0]), actions[1..])
  }

  function Start(requests: seq<Request>): State {
    State(seq(|requests|, i requires 0 <= i < |requests| => Task(requests[i], Fresh)), None, [])
  }

  // -------------------------------------------------------------- invariants

  predicate Holds(env: Env, t: Task) {
    NeedsLock(env, t.request) && (t.phase.Running? || t.phase.Releasing?)
  }

  /** A task's own events so far, as its phase determines them. */
  function Expected(env: Env, t: Task): seq<What> {
    var locked := NeedsLock(env, t.request);
    match t.phase
    case Fresh => []
    case Denied => [Refused]
    case Waiting => [Admitted]
    case LockFailed => [Admitted, AcquireError]
    case Running => if locked then [Admitted, Acquired, Started] else [Admitted, Started]
    case Releasing(ok) => [Admitted, Acquired, Started, Finished(ok)]
    case Resolved(ok) =>
      if locked then [Admitted, Acquired, Started, Finished(ok), Released] else [Admitted, Started, Finished(ok)]
  }

  /** The events of task `i` in the common log. */
  function Trace(log: seq<LogEntry>, i: nat): seq<What> {
    if log == [] then []
    else
      var e := log[|log| - 1];
      Trace(log[..|log| - 1], i) + (if e.task == i then [e.what] else [])
  }

  predicate TaskOk(env: Env, t: Task) {
    && (t.phase.Waiting? || t.phase.LockFailed? || t.phase.Releasing? ==> NeedsLock(env, t.request))
    && (t.phase.Denied? ==> !Admits(env, t.request))
    && (!t.phase.Fresh? && !t.phase.Denied? ==> Admits(env, t.request))
  }

  ghost predicate Inv(env: Env, s: State) {
    && (forall i :: 0 <= i < |s.tasks| ==>
          TaskOk(env, s.tasks[i]) && (s.holder == Some(i) <==> Holds(env, s.tasks[i])))
    && (s.holder.Some? ==> s.holder.value < |s.tasks|)
    && (forall i :: 0 <= i < |s.tasks| ==> Trace(s.log, i) == Expected(env, s.tasks[i]))
  }

  lemma {:induction false} TraceConcat(a: seq<LogEntry>, b: seq<LogEntry>, i: nat)
    ensures Trace(a + b, i) == Trace(a, i) + Trace(b, i)
    decreases |b|
  {
    if b == [] {
      assert a + b == a;
    } else {
      assert (a + b)[..|a + b| - 1] == a + b[..|b| - 1];
      TraceConcat(a, b[..|b| - 1], i);
    }
  }

  lemma {:induction false} TraceOfOne(i: nat, whats: seq<What>, j: nat)
    ensures
      var log := seq(|whats|, n requires 0 <= n < |whats| => LogEntry(i, whats[n]));
      Trace(log, j) == if i == j then whats else []
    decreases |whats|
  {
    if whats != [] {
      var init := whats[..|whats| - 1];
      var log := seq(|whats|, n requires 0 <= n < |whats| => LogEntry(i, whats[n]));
      assert log[..|log| - 1] == seq(|init|, n requires 0 <= n < |init| => LogEntry(i, init[n]));
      TraceOfOne(i, init, j);
      assert whats == init + [whats[|whats| - 1]];
    }
  }

  lemma MoveTraces(s: State, i: nat, phase: Phase, whats: seq<What>, j: nat)
    requires i < |s.tasks|
    ensures Trace(Move(s, i, phase, whats).log, j) == Trace(s.log, j) + (if i == j then whats else [])
  {
    TraceConcat(s.log, seq(|whats|, n requires 0 <= n < |whats| => LogEntry(i, whats[n])), j);
    TraceOfOne(i, whats, j);
  }

  /** What a step appends to the trace of the task that takes it. */
  function Emits(env: Env, s: State, a: Action): seq<What>
    requires Enabled(s, a)
  {
    var r := s.tasks[a.task].request;
    match a
    case Authorize(_) =>
      if !Admits(env, r) then [Refused] else if NeedsLock(env, r) then [Admitted] else [Admitted, Started]
    case Acquire(_) => [Acquired, Started]
    case AcquireFails(_) => [AcquireError]
    case Finish(_, ok) => [Finished(ok)]
    case Release(_) => [Released]
  }

  lemma StepTraces(env: Env, s: State, a: Action, j: nat)
    requires Enabled(s, a)
    ensures Trace(Step(env, s, a).log, j) == Trace(s.log, j) + (if a.task == j then Emits(env, s, a) else [])
  {
    MoveTraces(s, a.task, Step(env, s, a).tasks[a.task].phase, Emits(env, s, a), j);
  }

  lemma StepExpects(env: Env, s: State, a: Action)
    requires Enabled(s, a) && TaskOk(env, s.tasks[a.task])
    ensures Expected(env, Step(env, s, a).tasks[a.task]) == Expected(env, s.tasks[a.task]) + Emits(env, s, a)
  {
  }

  lemma StepKeepsTask(env: Env, s: State, a: Action)
    requires Enabled(s, a) && TaskOk(env, s.tasks[a.task])
    requires s.holder == Some(a.task) <==> Holds(env, s.tasks[a.task])
    ensures
      var s' := Step(env, s, a);
      && TaskOk(env, s'.tasks[a.task])
      && (s'.holder == Some(a.task) <==> Holds(env, s'.tasks[a.task]))
      && (s'.holder == s.holder || (s.holder.None? && s'.holder == Some(a.task))
          || (s.holder == Some(a.task) && s'.holder.None?))
  {
  }

  lemma StepKeepsInv(env: Env, s: State, a: Action)
    requires Inv(env, s) && Enabled(s, a)
    ensures Inv(env, Step(env, s, a))
  {
    var s' := Step(env, s, a);
    StepKeepsTask(env, s, a);
    forall j | 0 <= j < |s'.tasks|
      ensures TaskOk(env, s'.tasks[j]) && (s'.holder == Some(j) <==> Holds(env, s'.tasks[j]))
    {
      if j != a.task { assert s'.tasks[j] == s.tasks[j]; }
    }
    forall j | 0 <= j < |s'.tasks| ensures Trace(s'.log, j) == Expected(env, s'.tasks[j]) {
      StepTraces(env, s, a, j);
      if j == a.task { StepExpects(env, s, a); }
    }
  }

  lemma {:induction false} RunKeepsInv(env: Env, s: State, actions: seq<Action>)
    requires Inv(env, s)
    ensures Inv(env, After(env, s, actions))
    decreases |actions|
  {
    if actions != [] {
      if Enabled(s, actions[0]) { StepKeepsInv(env, s, actions[0]); }
      RunKeepsInv(env, Next(env, s, actions[0]), actions[1..]);
    }
  }

  ghost predicate Reachable(env: Env, s: State) {
    exists requests, actions :: s == After(env, Start(requests), actions)
  }

  lemma ReachableInv(env: Env, s: State)
    requires Reachable(env, s)
    ensures Inv(env, s)
  {
    var requests, actions :| s == After(env, Start(requests), actions);
    RunKeepsInv(env, Start(requests), actions);
  }
}
