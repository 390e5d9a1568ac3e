/** What every interleaving of resolutions guarantees. */
module SettingsLockTheorems {
  import opened Ordered
  import opened SettingsLock

  // ------------------------------------------------------- mutual exclusion

  predicate InSection(t: Task) { t.phase.Running? || t.phase.Releasing? }

  /** The mutations that write settings: those whose row asks for the settings
      scope, and four more by name. */
  predicate SettingsWriter(env: Env, r: Request) {
    r.parentType == "MutationRoot" &&
    ((r.field in env.table && env.table[r.field] == Scope("write_settings"))
     || r.field == "updateAutoBackupSettings" || r.field == "updateProductExperienceSettings"
     || r.field == "completeFinancialSetupOnboarding" || r.field == "setChannelModelMappingAutomation")
  }

  /** With a lock registered, at most one settings-writing mutation is between
      acquire and release. */
  lemma MutualExclusion(env: Env, s: State, i: nat, j: nat)
    requires Reachable(env, s) && env.lockInstalled
    requires i < |s.tasks| && InSection(s.tasks[i]) && SettingsWriter(env, s.tasks[i].request)
    requires j < |s.tasks| && InSection(s.tasks[j]) && SettingsWriter(env, s.tasks[j].request)
    ensures i == j && s.holder == Some(i)
  {
    ReachableInv(env, s);
    assert Holds(env, s.tasks[i]) && Holds(env, s.tasks[j]);
  }

  /** And nothing else ever asks for the permit. */
  lemma OnlyWritersLock(env: Env, s: State, i: nat)
    requires Reachable(env, s) && i < |s.tasks|
    requires Acquired in Trace(s.log, i) || AcquireError in Trace(s.log, i)
    ensures env.lockInstalled && SettingsWriter(env, s.tasks[i].request)
  {
    ReachableInv(env, s);
    assert TaskOk(env, s.tasks[i]) && Trace(s.log, i) == Expected(env, s.tasks[i]);
  }

  /** Without one there is no exclusion: any two admitted writers can overlap. */
  lemma NoLockNoExclusion(env: Env, a: Request, b: Request)
    requires !env.lockInstalled
    requires SettingsWriter(env, a) && MayStart(env, a) && SettingsWriter(env, b) && MayStart(env, b)
    ensures exists s :: Reachable(env, s) && s.tasks == [Task(a, Running), Task(b, Running)]
  {
    var s0 := Start([a, b]);
    var s2 := Next(env, Next(env, s0, Authorize(0)), Authorize(1));
    AfterTwo(env, s0, Authorize(0), Authorize(1));
    AdmitsIff(env, a);
    AdmitsIff(env, b);
    assert s2.tasks == [Task(a, Running), Task(b, Running)];
    assert Reachable(env, s2);
  }

  // --------------------------------------------------------- task lifecycles

  /** The complete lives a resolution of `r` can have. */
  function Scripts(env: Env, r: Request): set<seq<What>> {
    if !Admits(env, r) then {[Refused]}
    else if NeedsLock(env, r) then
      {[Admitted, AcquireError],
       [Admitted, Acquired, Started, Finished(true), Released],
       [Admitted, Acquired, Started, Finished(false), Released]}
    else {[Admitted, Started, Finished(true)], [Admitted, Started, Finished(false)]}
  }

  predicate Final(t: Task) { t.phase.Resolved? || t.phase.Denied? || t.phase.LockFailed? }

  /** In every reachable state each task has lived a prefix of one such life, all
      of it once the task is over.  So a denied request touches nothing else, no
      field starts before being admitted, and a permit once acquired is released
      whether the field succeeds or fails. */
  lemma TasksFollowScripts(env: Env, s: State, i: nat)
    requires Reachable(env, s) && i < |s.tasks|
    ensures exists script :: script in Scripts(env, s.tasks[i].request) && Trace(s.log, i) <= script
    ensures Final(s.tasks[i]) <==> Trace(s.log, i) in Scripts(env, s.tasks[i].request)
  {
    ReachableInv(env, s);
    var t := s.tasks[i];
    var scripts := Scripts(env, t.request);
    assert TaskOk(env, t);
    var ok := if t.phase.Releasing? || t.phase.Resolved? then t.phase.ok else true;
    var script :=
      if !Admits(env, t.request) then [Refused]
      else if !NeedsLock(env, t.request) then [Admitted, Started, Finished(ok)]
      else if t.phase.LockFailed? then [Admitted, AcquireError]
      else [Admitted, Acquired, Started, Finished(ok), Released];
    assert script in scripts;
    assert Expected(env, t) <= script;
    if !Final(t) {
      forall other | other in scripts ensures Expected(env, t) != other { ShorterThanScripts(env, t, other); }
    }
  }

  lemma ShorterThanScripts(env: Env, t: Task, script: seq<What>)
    requires TaskOk(env, t) && !Final(t) && script in Scripts(env, t.request)
    ensures Expected(env, t) != script
  {
    if NeedsLock(env, t.request) && |script| == 2 {
      assert script[1] == AcquireError;
    }
  }

  // ---------------------------------------------------------- who may write

  /** The rows of the field table that name settings writers outside the
      settings scope. */
  predicate SettingsRows(env: Env) {
    && Authz(env, "updateAutoBackupSettings") == OwnerOnly
    && Authz(env, "updateProductExperienceSettings") == OwnerOnly
    && Authz(env, "completeFinancialSetupOnboarding") == OwnerOnly
    && Authz(env, "setChannelModelMappingAutomation") == Scope(WRITE_CHANNELS)
  }

  /** Over every interleaving, a settings-writing mutation that has started was
      asked for by an owner or by a principal granted, system-wide, the settings
      scope (or, for mapping automation alone, the channel scope): a project
      role never suffices. */
  lemma SettingsWritersAreAuthorized(env: Env, s: State, i: nat)
    requires Reachable(env, s) && SettingsRows(env)
    requires i < |s.tasks| && Started in Trace(s.log, i)
    requires SettingsWriter(env, s.tasks[i].request) && !s.tasks[i].request.introspection
    ensures
      var r := s.tasks[i].request;
      r.principal.Some? &&
      var p := r.principal.value;
      || (Authz(env, r.field).OwnerOnly? && p.isOwner)
      || (Authz(env, r.field) == Scope(WRITE_SETTINGS) && env.allows(p, WRITE_SETTINGS))
      || (r.field == "setChannelModelMappingAutomation" && env.allows(p, WRITE_CHANNELS))
  {
    ReachableInv(env, s);
    var t := s.tasks[i];
    assert TaskOk(env, t) && Trace(s.log, i) == Expected(env, t);
    assert WRITE_SETTINGS !in PROJECT_ROLE_SCOPES && WRITE_CHANNELS !in PROJECT_ROLE_SCOPES;
  }

  /** Fail closed: a query or mutation field that is not in the table, or that needs
      anything but `Public` and comes without a principal, never gets past
      authorization. */
  lemma FailsClosed(env: Env, s: State, i: nat)
    requires Reachable(env, s) && i < |s.tasks|
    requires
      var r := s.tasks[i].request;
      && (r.parentType == "QueryRoot" || r.parentType == "MutationRoot") && !r.introspection
      && (r.field !in env.table || (r.principal.None? && env.table[r.field] != Public))
    ensures Trace(s.log, i) <= [Refused]
  {
    ReachableInv(env, s);
    assert TaskOk(env, s.tasks[i]) && Trace(s.log, i) == Expected(env, s.tasks[i]);
  }

  /** Who may have a field started: nested and introspection fields are free, and a
      root field asks for what its row in the table says.  A scope that a project
      role can carry is looked up in the project of the request, if it names one,
      and any other scope system-wide. */
  predicate MayStart(env: Env, r: Request) {
    || r.introspection
    || (r.parentType != "QueryRoot" && r.parentType != "MutationRoot")
    || (r.field in env.table &&
        match env.table[r.field]
        case Public => true
        case Authenticated => r.principal.Some?
        case OwnerOnly => r.principal.Some? && r.principal.value.isOwner
        case Deny => false
        case Scope(slug) =>
          && r.principal.Some?
          && (slug in PROJECT_ROLE_SCOPES && r.projectId.Some? ==>
                env.allowsInProject(r.principal.value, r.projectId.value, slug))
          && (slug !in PROJECT_ROLE_SCOPES || r.projectId.None? ==> env.allows(r.principal.value, slug)))
  }

  /** In every reachable state, a field that has started may, and one that has been
      refused may not. */
  lemma StartedAndRefused(env: Env, s: State, i: nat)
    requires Reachable(env, s) && i < |s.tasks|
    ensures Started in Trace(s.log, i) ==> MayStart(env, s.tasks[i].request)
    ensures Refused in Trace(s.log, i) ==> !MayStart(env, s.tasks[i].request)
  {
    ReachableInv(env, s);
    assert TaskOk(env, s.tasks[i]) && Trace(s.log, i) == Expected(env, s.tasks[i]);
  }

  /** A request can be started in some run exactly if it may. */
  lemma StartsIff(env: Env, r: Request)
    ensures MayStart(env, r) <==>
      exists s: State, i: nat ::
        Reachable(env, s) && i < |s.tasks| && s.tasks[i].request == r && Started in Trace(s.log, i)
  {
    if s: State, i: nat :|
      Reachable(env, s) && i < |s.tasks| && s.tasks[i].request == r && Started in Trace(s.log, i)
    {
      StartedAndRefused(env, s, i);
    }
    if MayStart(env, r) { var s := StartPossible(env, r); }
  }

  lemma AdmitsIff(env: Env, r: Request)
    ensures Admits(env, r) <==> MayStart(env, r)
  {
  }

  lemma StartPossible(env: Env, r: Request) returns (s: State)
    requires MayStart(env, r)
    ensures Reachable(env, s) && |s.tasks| == 1 && s.tasks[0].request == r && Started in Trace(s.log, 0)
  {
    AdmitsIff(env, r);
    AdmittedStarts(env, r);
    AfterTwo(env, Start([r]), Authorize(0), Acquire(0));
    s := After(env, Start([r]), [Authorize(0), Acquire(0)]);
    assert Reachable(env, s);
    ReachableInv(env, s);
    assert Trace(s.log, 0) == Expected(env, Task(r, Running));
  }

  lemma AdmittedStarts(env: Env, r: Request)
    requires Admits(env, r)
    ensures Next(env, Next(env, Start([r]), Authorize(0)), Acquire(0)).tasks == [Task(r, Running)]
  {
    var s1 := Next(env, Start([r]), Authorize(0));
    assert s1.tasks == [Task(r, if NeedsLock(env, r) then Waiting else Running)] && s1.holder.None?;
  }

  lemma AfterTwo(env: Env, s: State, a: Action, b: Action)
    ensures After(env, s, [a, b]) == Next(env, Next(env, s, a), b)
  {
    var s1 := Next(env, s, a);
    assert [a, b][1..] == [b] && [b][1..] == [];
    assert After(env, s1, [b]) == After(env, Next(env, s1, b), []);
  }

  // ------------------------------------------------------- serial history

  datatype Lock = Free | Held(task: nat) | Broken

  /** Replays one log entry against the lock: permits are exclusive and returned
      by their owner, and a field that needs the permit runs only while owning it. */
  function Replay(env: Env, requests: seq<Request>, lock: Lock, e: LogEntry): Lock {
    match e.what
    case Acquired => if lock.Free? then Held(e.task) else Broken
    case Released => if lock == Held(e.task) then Free else Broken
    case Started => Owned(env, requests, lock, e.task)
    case Finished(_) => Owned(env, requests, lock, e.task)
    case _ => lock
  }

  function Owned(env: Env, requests: seq<Request>, lock: Lock, i: nat): Lock {
    if i < |requests| && NeedsLock(env, requests[i]) && lock != Held(i) then Broken else lock
  }

  function ReplayAll(env: Env, requests: seq<Request>, log: seq<LogEntry>): Lock {
    if log == [] then Free
    else Replay(env, requests, ReplayAll(env, requests, log[..|log| - 1]), log[|log| - 1])
  }

  function LockOf(holder: Option<nat>): Lock { if holder.None? then Free else Held(holder.value) }

  ghost predicate SerialInv(env: Env, requests: seq<Request>, s: State) {
    && |s.tasks| == |requests|
    && (forall i :: 0 <= i < |requests| ==> s.tasks[i].request == requests[i])
    && ReplayAll(env, requests, s.log) == LockOf(s.holder)
  }

  lemma ReplayAppend(env: Env, requests: seq<Request>, log: seq<LogEntry>, e: LogEntry)
    ensures ReplayAll(env, requests, log + [e]) == Replay(env, requests, ReplayAll(env, requests, log), e)
  {
    assert (log + [e])[..|log|] == log;
  }

  lemma ReplayMove(env: Env, requests: seq<Request>, s: State, i: nat, phase: Phase, whats: seq<What>)
    requires i < |s.tasks|
    ensures
      var lock, lock' := ReplayAll(env, requests, s.log), ReplayAll(env, requests, Move(s, i, phase, whats).log);
      && (|whats| == 1 ==> lock' == Replay(env, requests, lock, LogEntry(i, whats[0])))
      && (|whats| == 2 ==>
            lock' == Replay(env, requests, Replay(env, requests, lock, LogEntry(i, whats[0])), LogEntry(i, whats[1])))
  {
    var log' := Move(s, i, phase, whats).log;
    if |whats| == 1 {
      assert log' == s.log + [LogEntry(i, whats[0])];
      ReplayAppend(env, requests, s.log, LogEntry(i, whats[0]));
    } else if |whats| == 2 {
      assert log' == s.log + [LogEntry(i, whats[0])] + [LogEntry(i, whats[1])];
      ReplayAppend(env, requests, s.log, LogEntry(i, whats[0]));
      ReplayAppend(env, requests, s.log + [LogEntry(i, whats[0])], LogEntry(i, whats[1]));
    }
  }

  lemma StepStaysSerial(env: Env, requests: seq<Request>, s: State, a: Action)
    requires Inv(env, s) && SerialInv(env, requests, s) && Enabled(s, a)
    ensures SerialInv(env, requests, Step(env, s, a))
  {
    ReplayMove(env, requests, s, a.task, Step(env, s, a).tasks[a.task].phase, Emits(env, s, a));
    assert TaskOk(env, s.tasks[a.task]);
    assert s.holder == Some(a.task) <==> Holds(env, s.tasks[a.task]);
  }

  lemma {:induction false} RunStaysSerial(env: Env, requests: seq<Request>, s: State, actions: seq<Action>)
    requires Inv(env, s) && SerialInv(env, requests, s)
    ensures SerialInv(env, requests, After(env, s, actions))
    decreases |actions|
  {
    if actions != [] {
      if Enabled(s, actions[0]) {
        StepKeepsInv(env, s, actions[0]);
        StepStaysSerial(env, requests, s, actions[0]);
      }
      RunStaysSerial(env, requests, Next(env, s, actions[0]), actions[1..]);
    }
  }

  /** Over whole runs: the critical sections in the history never overlap, every
      permit is returned by the task that took it, and lock-needing fields start
      and finish only inside their own section. */
  lemma HistoryIsSerial(env: Env, requests: seq<Request>, actions: seq<Action>)
    ensures
      var s := After(env, Start(requests), actions);
      ReplayAll(env, requests, s.log) == LockOf(s.holder)
  {
    RunStaysSerial(env, requests, Start(requests), actions);
  }

  // ------------------------------------------------ quiescence and progress

  ghost predicate Quiescent(s: State) { forall i :: 0 <= i < |s.tasks| ==> Final(s.tasks[i]) }

  lemma QuiescentReleased(env: Env, s: State)
    requires Reachable(env, s) && Quiescent(s)
    ensures s.holder.None?
  {
    ReachableInv(env, s);
  }

  /** No deadlock: until everything is over, some step is possible, even if no
      acquisition ever fails. */
  lemma SomeStepPossible(env: Env, s: State) returns (a: Action)
    requires Reachable(env, s) && !Quiescent(s)
    ensures Enabled(s, a) && !a.AcquireFails?
  {
    ReachableInv(env, s);
    var i :| 0 <= i < |s.tasks| && !Final(s.tasks[i]);
    var j: nat := if s.tasks[i].phase.Waiting? && s.holder.Some? then s.holder.value else i;
    var phase := s.tasks[j].phase;
    a := if phase.Fresh? then Authorize(j) else if phase.Waiting? then Acquire(j)
         else if phase.Running? then Finish(j, true) else Release(j);
  }

  function Weight(phase: Phase): nat {
    match phase
    case Fresh => 4
    case Waiting => 3
    case Running => 2
    case Releasing(_) => 1
    case _ => 0
  }

  function Work(tasks: seq<Task>): nat {
    if tasks == [] then 0 else Weight(tasks[0].phase) + Work(tasks[1..])
  }

  lemma {:induction false} WorkUpdate(tasks: seq<Task>, i: nat, t: Task)
    requires i < |tasks|
    ensures Work(tasks[i := t]) == Work(tasks) - Weight(tasks[i].phase) + Weight(t.phase)
    decreases |tasks|
  {
    if i == 0 {
      assert tasks[0 := t][1..] == tasks[1..];
    } else {
      assert tasks[i := t][1..] == tasks[1..][i - 1 := t];
      WorkUpdate(tasks[1..], i - 1, t);
    }
  }

  /** Steps actually taken by a run. */
  function StepsTaken(env: Env, s: State, actions: seq<Action>): nat
    decreases |actions|
  {
    if actions == [] then 0
    else (if Enabled(s, actions[0]) then 1 else 0) + StepsTaken(env, Next(env, s, actions[0]), actions[1..])
  }

  lemma StepTakesWork(env: Env, s: State, a: Action)
    requires Enabled(s, a)
    ensures Work(Step(env, s, a).tasks) < Work(s.tasks)
  {
    WorkUpdate(s.tasks, a.task, Step(env, s, a).tasks[a.task]);
  }

  /** Every run takes at most as many steps as there is work. */
  lemma {:induction false} RunsAreBounded(env: Env, s: State, actions: seq<Action>)
    ensures StepsTaken(env, s, actions) + Work(After(env, s, actions).tasks) <= Work(s.tasks)
    decreases |actions|
  {
    if actions != [] {
      var a := actions[0];
      if Enabled(s, a) { StepTakesWork(env, s, a); }
      RunsAreBounded(env, Next(env, s, a), actions[1..]);
    }
  }

  lemma {:induction false} FreshWork(tasks: seq<Task>)
    requires forall i :: 0 <= i < |tasks| ==> tasks[i].phase.Fresh?
    ensures Work(tasks) == 4 * |tasks|
    decreases |tasks|
  {
    if tasks != [] { FreshWork(tasks[1..]); }
  }

  /** Every run is finite: at most four steps for each resolution. */
  lemma RunsFromStartAreBounded(env: Env, requests: seq<Request>, actions: seq<Action>)
    ensures StepsTaken(env, Start(requests), actions) <= 4 * |requests|
  {
    RunsAreBounded(env, Start(requests), actions);
    FreshWork(Start(requests).tasks);
  }
}
