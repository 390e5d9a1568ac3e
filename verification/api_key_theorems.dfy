/** What every run of API-key operations keeps. */
module ApiKeyTheorems {
  import opened Text
  import opened Ordered
  import opened Decimals
  import opened ApiKeys

  // -------------------------------------------------------------------- runs

  datatype Op =
    | OpCreate(userId: Option<string>, create: CreateInput)
    | OpUpdate(id: string, update: UpdateInput)
    | OpStatus(id: string, status: Status)
    | OpRotate(id: string)
    | OpProfiles(id: string, profiles: ProfilesInput)
    | OpBulk(ids: seq<string>, status: Status)

  function Apply(fold: CaseFold, keys: seq<ApiKey>, op: Op): Outcome {
    match op
    case OpCreate(userId, input) => Create(keys, userId, input)
    case OpUpdate(id, input) => Update(keys, id, input)
    case OpStatus(id, status) => SetStatus(keys, id, status)
    case OpRotate(id) => Rotate(keys, id)
    case OpProfiles(id, input) => SetProfiles(fold, keys, id, input)
    case OpBulk(ids, status) => BulkSetStatus(keys, ids, status)
  }

  function Run(fold: CaseFold, keys: seq<ApiKey>, ops: seq<Op>): seq<ApiKey>
    decreases |ops|
  {
    if ops == [] then keys else Run(fold, Apply(fold, keys, ops[0]).keys, ops[1..])
  }

  /** Any refused operation leaves the store as it was. */
  lemma ErrorsChangeNothing(fold: CaseFold, keys: seq<ApiKey>, op: Op)
    requires Apply(fold, keys, op).error.Some?
    ensures Apply(fold, keys, op).keys == keys
  {
  }

  // --------------------------------------------------------------- invariant

  predicate DistinctIds(keys: seq<ApiKey>) {
    forall i, j :: 0 <= i < j < |keys| ==> keys[i].id != keys[j].id
  }

  predicate DistinctNames(keys: seq<ApiKey>) {
    forall i, j :: 0 <= i < j < |keys| ==> keys[i].name != keys[j].name || keys[i].projectId != keys[j].projectId
  }

  /** No stored id is one that a later creation will hand out. */
  ghost predicate Roomy(keys: seq<ApiKey>) {
    forall n: nat, i :: 0 <= i < |keys| && n > |keys| ==> keys[i].id != Decimal(n)
  }

  /** Profile names are non-empty and distinct up to case, and the active profile
      is empty or names exactly one of them. */
  ghost predicate ValidProfiles(fold: CaseFold, p: Profiles) {
    var ps := OrElse(p.profiles, []);
    && p.profiles != Some([])
    && ValidNames(fold, ps, |ps|)
    && (p.active != "" ==> Names(ps, p.active))
  }

  lemma ActiveNamesOne(fold: CaseFold, p: Profiles, i: nat, j: nat)
    requires ValidProfiles(fold, p) && p.profiles.Some? && i < |p.profiles.value| && j < |p.profiles.value|
    requires p.profiles.value[i].name == p.profiles.value[j].name == p.active
    ensures i == j
  {
    var ps := OrElse(p.profiles, []);
    assert FreshName(fold, ps, i) && FreshName(fold, ps, j);
  }

  ghost predicate RowOk(fold: CaseFold, k: ApiKey) {
    && (k.keyType.User? ==> k.scopes == Some(DEFAULT_SCOPES))
    && (k.profiles.Some? ==> ValidProfiles(fold, k.profiles.value))
  }

  ghost predicate Ok(fold: CaseFold, keys: seq<ApiKey>) {
    && DistinctIds(keys) && DistinctNames(keys) && Roomy(keys)
    && forall i :: 0 <= i < |keys| ==> RowOk(fold, keys[i])
  }

  lemma AppendKeepsIdsIff(keys: seq<ApiKey>, k: ApiKey)
    requires DistinctIds(keys)
    ensures DistinctIds(keys + [k]) <==> forall i :: 0 <= i < |keys| ==> keys[i].id != k.id
  {
    var keys' := keys + [k];
    if DistinctIds(keys') {
      forall i | 0 <= i < |keys| ensures keys[i].id != k.id {
        assert keys'[i].id != keys'[|keys|].id;
      }
    }
  }

  /** Creation keeps ids distinct exactly when the next number is unused. */
  lemma CreateKeepsIdsIff(keys: seq<ApiKey>, userId: Option<string>, input: CreateInput)
    requires DistinctIds(keys) && Create(keys, userId, input).error.None?
    ensures DistinctIds(Create(keys, userId, input).keys) <==>
      forall i :: 0 <= i < |keys| ==> keys[i].id != Decimal(|keys| + 1)
  {
    var k := NewKey(|keys| + 1, userId, input);
    assert Create(keys, userId, input) == Outcome(keys + [k], None);
    assert k.id == Decimal(|keys| + 1);
    AppendKeepsIdsIff(keys, k);
  }

  lemma CreateKeepsOk(fold: CaseFold, keys: seq<ApiKey>, userId: Option<string>, input: CreateInput)
    requires Ok(fold, keys) && Create(keys, userId, input).error.None?
    ensures Ok(fold, Create(keys, userId, input).keys)
  {
    var keys' := Create(keys, userId, input).keys;
    CreateKeepsIdsIff(keys, userId, input);
    forall n: nat, i | 0 <= i < |keys'| && n > |keys'| ensures keys'[i].id != Decimal(n) {
      if keys'[i].id == Decimal(n) && i == |keys| { DecimalInjective(|keys| + 1, n); }
    }
  }

  /** Editing one row keeps the store in order if the row's id and project stay,
      its name is free, and the row itself is in order. */
  lemma EditKeepsOk(fold: CaseFold, keys: seq<ApiKey>, i: nat, k: ApiKey)
    requires Ok(fold, keys) && i < |keys|
    requires k.id == keys[i].id && k.projectId == keys[i].projectId && RowOk(fold, k)
    requires forall j :: 0 <= j < |keys| && j != i ==> keys[j].name != k.name || keys[j].projectId != k.projectId
    ensures Ok(fold, keys[i := k])
  {
    var keys' := keys[i := k];
    forall n: nat, j | 0 <= j < |keys'| && n > |keys'| ensures keys'[j].id != Decimal(n) {
      assert keys'[j].id == keys[j].id;
    }
  }

  lemma UpdateKeepsOk(fold: CaseFold, keys: seq<ApiKey>, id: string, input: UpdateInput)
    requires Ok(fold, keys)
    ensures Ok(fold, Update(keys, id, input).keys)
  {
    if Update(keys, id, input).error.None? {
      var i := IndexOf(keys, id);
      var k := Updated(keys[i], input);
      forall j | 0 <= j < |keys| && j != i ensures keys[j].name != k.name || keys[j].projectId != k.projectId {
        assert keys[j].id != keys[i].id;
      }
      EditKeepsOk(fold, keys, i, k);
    }
  }

  lemma ProfilesKeepOk(fold: CaseFold, keys: seq<ApiKey>, id: string, input: ProfilesInput)
    requires Ok(fold, keys)
    ensures Ok(fold, SetProfiles(fold, keys, id, input).keys)
  {
    if SetProfiles(fold, keys, id, input).error.None? {
      var i := IndexOf(keys, id);
      var ps := OrElse(input.profiles, []);
      NamesErrorNone(fold, ps, |ps|);
      var stored := Profiles(input.active, if ps == [] then None else Some(ps));
      assert ValidProfiles(fold, stored);
      EditKeepsOk(fold, keys, i, keys[i].(profiles := Some(stored)));
    }
  }

  lemma BulkKeepsOk(fold: CaseFold, keys: seq<ApiKey>, ids: seq<string>, status: Status)
    requires Ok(fold, keys)
    ensures Ok(fold, BulkSetStatus(keys, ids, status).keys)
  {
    var keys' := BulkSetStatus(keys, ids, status).keys;
    assert forall i :: 0 <= i < |keys'| ==> keys'[i] == keys[i].(status := keys'[i].status);
    forall n: nat, i | 0 <= i < |keys'| && n > |keys'| ensures keys'[i].id != Decimal(n) {
      assert keys'[i].id == keys[i].id;
    }
  }

  lemma StepKeepsOk(fold: CaseFold, keys: seq<ApiKey>, op: Op)
    requires Ok(fold, keys)
    ensures Ok(fold, Apply(fold, keys, op).keys)
  {
    match op
    case OpCreate(userId, input) =>
      if Create(keys, userId, input).error.None? { CreateKeepsOk(fold, keys, userId, input); }
    case OpUpdate(id, input) => UpdateKeepsOk(fold, keys, id, input);
    case OpStatus(id, status) =>
      var i := IndexOf(keys, id);
      if i < |keys| { EditKeepsOk(fold, keys, i, keys[i].(status := status)); }
    case OpRotate(id) =>
      var i := IndexOf(keys, id);
      if i < |keys| { EditKeepsOk(fold, keys, i, keys[i].(secret := Rotated(id))); }
    case OpProfiles(id, input) => ProfilesKeepOk(fold, keys, id, input);
    case OpBulk(ids, status) => BulkKeepsOk(fold, keys, ids, status);
  }

  /** Over every run: ids and (project, name) pairs stay distinct, user keys keep
      the default scopes, and stored profiles stay valid. */
  lemma {:induction false} RunKeepsOk(fold: CaseFold, keys: seq<ApiKey>, ops: seq<Op>)
    requires Ok(fold, keys)
    ensures Ok(fold, Run(fold, keys, ops))
    decreases |ops|
  {
    if ops != [] {
      StepKeepsOk(fold, keys, ops[0]);
      RunKeepsOk(fold, Apply(fold, keys, ops[0]).keys, ops[1..]);
    }
  }

  lemma RunsFromEmptyAreOk(fold: CaseFold, ops: seq<Op>)
    ensures Ok(fold, Run(fold, [], ops))
  {
    RunKeepsOk(fold, [], ops);
  }

  // ----------------------------------------------- exactly when ids collide

  lemma CreateKeepsRoom(keys: seq<ApiKey>, k: ApiKey)
    requires Roomy(keys) && k.id == Decimal(|keys| + 1)
    ensures Roomy(keys + [k])
  {
    var keys' := keys + [k];
    forall n: nat, i | 0 <= i < |keys'| && n > |keys'| ensures keys'[i].id != Decimal(n) {
      if i == |keys| && k.id == Decimal(n) { DecimalInjective(|keys| + 1, n); }
    }
  }

  lemma SameIdsKeepRoom(keys: seq<ApiKey>, keys': seq<ApiKey>)
    requires DistinctIds(keys) && Roomy(keys)
    requires |keys'| == |keys| && forall i :: 0 <= i < |keys| ==> keys'[i].id == keys[i].id
    ensures DistinctIds(keys') && Roomy(keys')
  {
  }

  lemma StepKeepsIds(fold: CaseFold, keys: seq<ApiKey>, op: Op)
    requires DistinctIds(keys) && Roomy(keys)
    ensures DistinctIds(Apply(fold, keys, op).keys) && Roomy(Apply(fold, keys, op).keys)
  {
    var keys' := Apply(fold, keys, op).keys;
    if op.OpCreate? && Apply(fold, keys, op).error.None? {
      CreateKeepsIdsIff(keys, op.userId, op.create);
      CreateKeepsRoom(keys, NewKey(|keys| + 1, op.userId, op.create));
    } else {
      StepEvolves(fold, keys, op);
      assert |keys'| == |keys|;
      forall i | 0 <= i < |keys| ensures keys'[i].id == keys[i].id { assert SameIdentity(keys[i], keys'[i]); }
      SameIdsKeepRoom(keys, keys');
    }
  }

  lemma {:induction false} RunKeepsIds(fold: CaseFold, keys: seq<ApiKey>, ops: seq<Op>)
    requires DistinctIds(keys) && Roomy(keys)
    ensures DistinctIds(Run(fold, keys, ops))
    decreases |ops|
  {
    if ops != [] {
      StepKeepsIds(fold, keys, ops[0]);
      RunKeepsIds(fold, Apply(fold, keys, ops[0]).keys, ops[1..]);
    }
  }

  lemma {:induction false} UnusedName(keys: seq<ApiKey>) returns (name: string)
    ensures forall i :: 0 <= i < |keys| ==> |keys[i].name| < |name|
    decreases |keys|
  {
    if keys == [] {
      name := "";
    } else {
      var k := keys[|keys| - 1];
      var rest := UnusedName(keys[..|keys| - 1]);
      name := rest + k.name + "x";
    }
  }

  /** Creations alone reach any number that is still to be handed out. */
  lemma {:induction false} CreationsCollide(fold: CaseFold, keys: seq<ApiKey>, i: nat, n: nat) returns (ops: seq<Op>)
    requires i < |keys| < n && keys[i].id == Decimal(n)
    ensures !DistinctIds(Run(fold, keys, ops))
    decreases n - |keys|
  {
    var name := UnusedName(keys);
    var input := CreateInput(name, None, None, "");
    var op := OpCreate(None, input);
    var k := NewKey(|keys| + 1, None, input);
    assert !NameTaken(keys, name, "");
    assert Create(keys, None, input) == Outcome(keys + [k], None);
    if n == |keys| + 1 {
      ops := [op];
      assert [op][1..] == [];
      assert (keys + [k])[i].id == (keys + [k])[|keys|].id;
    } else {
      var rest := CreationsCollide(fold, keys + [k], i, n);
      ops := [op] + rest;
      assert ops[1..] == rest;
    }
  }

  /** From distinct ids, every run keeps them distinct if and only if no stored id
      is a number beyond the current size. */
  lemma IdsStayDistinctIff(fold: CaseFold, keys: seq<ApiKey>)
    requires DistinctIds(keys)
    ensures Roomy(keys) <==> forall ops :: DistinctIds(Run(fold, keys, ops))
  {
    if Roomy(keys) {
      forall ops ensures DistinctIds(Run(fold, keys, ops)) { RunKeepsIds(fold, keys, ops); }
    } else {
      var n: nat, i :| 0 <= i < |keys| && n > |keys| && keys[i].id == Decimal(n);
      var ops := CreationsCollide(fold, keys, i, n);
    }
  }

  // ------------------------------------------------------ what never changes

  /** Rows stay where they are with their id, owner, project and type; `noauth`
      rows do not change at all and none is ever added. */
  ghost predicate Evolves(a: seq<ApiKey>, b: seq<ApiKey>) {
    && |a| <= |b|
    && (forall i :: 0 <= i < |a| ==> SameIdentity(a[i], b[i]))
    && (forall i :: |a| <= i < |b| ==> !b[i].keyType.Noauth?)
  }

  predicate SameIdentity(k: ApiKey, k': ApiKey) {
    && k'.id == k.id && k'.userId == k.userId && k'.projectId == k.projectId && k'.keyType == k.keyType
    && (k.keyType.Noauth? ==> k' == k)
  }

  lemma EditEvolves(keys: seq<ApiKey>, i: nat, k: ApiKey)
    requires i < |keys| && SameIdentity(keys[i], k)
    ensures Evolves(keys, keys[i := k])
  {
    forall j | 0 <= j < |keys| ensures SameIdentity(keys[j], keys[i := k][j]) {}
  }

  lemma RefusalEvolves(keys: seq<ApiKey>)
    ensures Evolves(keys, keys)
  {
    forall j | 0 <= j < |keys| ensures SameIdentity(keys[j], keys[j]) {}
  }

  lemma CreateEvolves(keys: seq<ApiKey>, userId: Option<string>, input: CreateInput)
    requires input.keyType != Some(Noauth)
    ensures Evolves(keys, keys + [NewKey(|keys| + 1, userId, input)])
  {
    var keys' := keys + [NewKey(|keys| + 1, userId, input)];
    forall j | 0 <= j < |keys| ensures SameIdentity(keys[j], keys'[j]) {}
  }

  lemma BulkEvolves(keys: seq<ApiKey>, ids: seq<string>, status: Status)
    requires BulkSetStatus(keys, ids, status).error.None? && ids != []
    ensures Evolves(keys, WithStatus(keys, ids, status))
  {
    var keys' := WithStatus(keys, ids, status);
    forall j | 0 <= j < |keys| ensures SameIdentity(keys[j], keys'[j]) {}
  }

  lemma StepEvolves(fold: CaseFold, keys: seq<ApiKey>, op: Op)
    ensures Evolves(keys, Apply(fold, keys, op).keys)
  {
    var r := Apply(fold, keys, op);
    RefusalEvolves(keys);
    if r.error.None? {
      match op
      case OpCreate(userId, input) => CreateEvolves(keys, userId, input);
      case OpUpdate(id, input) =>
        var i := IndexOf(keys, id);
        EditEvolves(keys, i, Updated(keys[i], input));
      case OpStatus(id, status) =>
        var i := IndexOf(keys, id);
        EditEvolves(keys, i, keys[i].(status := status));
      case OpRotate(id) =>
        var i := IndexOf(keys, id);
        EditEvolves(keys, i, keys[i].(secret := Rotated(id)));
      case OpProfiles(id, input) =>
        var i := IndexOf(keys, id);
        EditEvolves(keys, i, r.keys[i]);
      case OpBulk(ids, status) => if ids != [] { BulkEvolves(keys, ids, status); }
    }
  }

  lemma {:induction false} RunEvolves(fold: CaseFold, keys: seq<ApiKey>, ops: seq<Op>)
    ensures Evolves(keys, Run(fold, keys, ops))
    decreases |ops|
  {
    if ops != [] {
      var next := Apply(fold, keys, ops[0]).keys;
      var end := Run(fold, keys, ops);
      StepEvolves(fold, keys, ops[0]);
      RunEvolves(fold, next, ops[1..]);
      forall i | 0 <= i < |keys| ensures SameIdentity(keys[i], end[i]) {
        assert SameIdentity(keys[i], next[i]) && SameIdentity(next[i], end[i]);
      }
      forall i | |keys| <= i < |end| ensures !end[i].keyType.Noauth? {
        if i < |next| { assert SameIdentity(next[i], end[i]); }
      }
    }
  }

  /** A successful operation on one key changes that row only, and in it only what
      the operation is for. */
  lemma EditsAreLocal(fold: CaseFold, keys: seq<ApiKey>, op: Op)
    requires !op.OpCreate? && !op.OpBulk? && Apply(fold, keys, op).error.None?
    ensures
      var i, keys' := IndexOf(keys, op.id), Apply(fold, keys, op).keys;
      && i < |keys| == |keys'|
      && (forall j :: 0 <= j < |keys| && j != i ==> keys'[j] == keys[j])
      && (op.OpStatus? ==> keys'[i] == keys[i].(status := op.status))
      && (op.OpRotate? ==> keys'[i] == keys[i].(secret := Rotated(keys[i].id)))
      && (op.OpProfiles? ==> keys'[i] == keys[i].(profiles := keys'[i].profiles))
      && (op.OpUpdate? ==> keys'[i] == keys[i].(name := keys'[i].name, scopes := keys'[i].scopes))
      && (op.OpUpdate? && !keys[i].keyType.ServiceAccount? ==> keys'[i].scopes == keys[i].scopes)
      && (op.OpUpdate? && keys[i].keyType.ServiceAccount? && op.update.clearScopes == Some(true) ==>
            keys'[i].scopes == Some([]))
  {
  }

  predicate NameUsed(keys: seq<ApiKey>, name: string) {
    exists j :: 0 <= j < |keys| && keys[j].name == name
  }

  /** A permitted rename is refused exactly when some key of any project has the
      name.  So renaming follows the per-project rule of creation if and only if
      the name is taken in the key's own project or in none. */
  lemma RenameProbesEveryProject(keys: seq<ApiKey>, id: string, input: UpdateInput)
    requires DistinctIds(keys) && IndexOf(keys, id) < |keys|
    requires
      var k := keys[IndexOf(keys, id)];
      !k.keyType.Noauth? && !(k.keyType.User? && MutatesScopes(input))
    requires input.name.Some? && input.name.value != keys[IndexOf(keys, id)].name
    ensures
      var refused, taken := Update(keys, id, input).error.Some?, NameUsed(keys, input.name.value);
      var takenHere := NameTaken(keys, input.name.value, keys[IndexOf(keys, id)].projectId);
      && (refused <==> taken)
      && ((refused <==> takenHere) <==> takenHere || !taken)
  {
    var i, name := IndexOf(keys, id), input.name.value;
    if NameUsed(keys, name) {
      var j :| 0 <= j < |keys| && keys[j].name == name;
      assert keys[j].id != keys[i].id;
      assert NameTakenByOther(keys, name, id);
    }
  }

  // ------------------------------------------------------------ bulk updates

  predicate NoDuplicates(ids: seq<string>) {
    forall i, j :: 0 <= i < j < |ids| ==> ids[i] != ids[j]
  }

  /** The stored ids that are listed. */
  function Matched(keys: seq<ApiKey>, ids: seq<string>): set<string> {
    if keys == [] then {}
    else
      var k := keys[|keys| - 1];
      Matched(keys[..|keys| - 1], ids) + (if k.id in ids then {k.id} else {})
  }

  lemma {:induction false} MatchedMember(keys: seq<ApiKey>, ids: seq<string>, x: string)
    ensures x in Matched(keys, ids) <==> x in ids && IndexOf(keys, x) < |keys|
    decreases |keys|
  {
    if keys != [] {
      var init := keys[..|keys| - 1];
      MatchedMember(init, ids, x);
      var i, j := IndexOf(init, x), IndexOf(keys, x);
      assert i < |init| ==> keys[i].id == x;
      assert j < |init| ==> init[j].id == x;
    }
  }

  lemma {:induction false} FoundIsCardinality(keys: seq<ApiKey>, ids: seq<string>)
    requires DistinctIds(keys)
    ensures FoundCount(keys, ids) == |Matched(keys, ids)|
    decreases |keys|
  {
    if keys != [] {
      var init, x := keys[..|keys| - 1], keys[|keys| - 1].id;
      FoundIsCardinality(init, ids);
      MatchedMember(init, ids, x);
    }
  }

  function Elements(ids: seq<string>): set<string> { set x | x in ids }

  lemma {:induction false} DistinctCardinality(ids: seq<string>)
    ensures |Elements(ids)| <= |ids|
    ensures |Elements(ids)| == |ids| <==> NoDuplicates(ids)
    decreases |ids|
  {
    if ids != [] {
      var init, x := ids[..|ids| - 1], ids[|ids| - 1];
      DistinctCardinality(init);
      assert ids == init + [x];
      if x in init {
        assert Elements(ids) == Elements(init);
        var i :| 0 <= i < |init| && init[i] == x;
        assert ids[i] == ids[|init|];
      } else {
        assert Elements(ids) == Elements(init) + {x};
        assert forall i :: 0 <= i < |init| ==> ids[i] == init[i];
      }
    }
  }

  /** The count test accepts `ids` exactly if they are distinct and all known. */
  ghost predicate CountTestExact(keys: seq<ApiKey>, ids: seq<string>) {
    FoundCount(keys, ids) == |ids| <==> NoDuplicates(ids) && forall x :: x in ids ==> IndexOf(keys, x) < |keys|
  }

  /** With distinct stored ids the count test passes exactly for duplicate-free
      lists of known ids. */
  lemma CountTestIff(keys: seq<ApiKey>, ids: seq<string>)
    requires DistinctIds(keys)
    ensures CountTestExact(keys, ids)
  {
    FoundIsCardinality(keys, ids);
    DistinctCardinality(ids);
    var m, e := Matched(keys, ids), Elements(ids);
    forall x ensures x in m <==> x in e && IndexOf(keys, x) < |keys| { MatchedMember(keys, ids, x); }
    assert m <= e;
    if |m| == |ids| {
      SubsetOfSameSize(m, e);
      forall x | x in ids ensures IndexOf(keys, x) < |keys| { assert x in e; }
    }
    if forall x :: x in ids ==> IndexOf(keys, x) < |keys| { assert m == e; }
  }

  lemma SubsetOfSameSize(a: set<string>, b: set<string>)
    requires a <= b && |a| >= |b|
    ensures a == b
  {
    if a != b {
      var x :| x in b && x !in a;
      assert |b - {x}| == |b| - 1;
      SubsetSize(a, b - {x});
    }
  }

  lemma {:induction false} SubsetSize(a: set<string>, b: set<string>)
    requires a <= b
    ensures |a| <= |b|
    decreases a
  {
    if a != {} {
      var x :| x in a;
      SubsetSize(a - {x}, b - {x});
    }
  }

  lemma {:induction false} CountAtLeast(keys: seq<ApiKey>, i: nat, j: nat)
    requires i <= j < |keys| && keys[i].id == keys[j].id
    ensures FoundCount(keys, [keys[i].id]) >= if i < j then 2 else 1
    decreases |keys|
  {
    var init := keys[..|keys| - 1];
    if j < |init| {
      CountAtLeast(init, i, j);
    } else if i < j {
      CountAtLeast(init, i, i);
    }
  }

  /** The count test is exact for all lists if and only if stored ids are distinct:
      a repeated one is refused although it is known. */
  lemma CountTestExactIff(keys: seq<ApiKey>)
    ensures DistinctIds(keys) <==> forall ids :: CountTestExact(keys, ids)
  {
    if DistinctIds(keys) {
      forall ids ensures CountTestExact(keys, ids) { CountTestIff(keys, ids); }
    } else {
      var i, j :| 0 <= i < j < |keys| && keys[i].id == keys[j].id;
      CountAtLeast(keys, i, j);
      assert IndexOf(keys, keys[i].id) <= i;
      assert !CountTestExact(keys, [keys[i].id]);
    }
  }

  /** All or nothing: a bulk update of a non-empty list succeeds exactly when the
      ids are distinct, known and not `noauth`; then exactly those rows get the
      status and nothing else changes, and otherwise nothing changes at all. */
  lemma BulkAllOrNothing(keys: seq<ApiKey>, ids: seq<string>, status: Status)
    requires DistinctIds(keys) && ids != []
    ensures
      var r := BulkSetStatus(keys, ids, status);
      && (r.error.None? <==>
            && NoDuplicates(ids)
            && forall x :: x in ids ==> IndexOf(keys, x) < |keys| && !keys[IndexOf(keys, x)].keyType.Noauth?)
      && (r.error.Some? ==> r.keys == keys)
      && (r.error.None? ==>
            && |r.keys| == |keys|
            && forall i :: 0 <= i < |keys| ==>
                 r.keys[i] == if keys[i].id in ids then keys[i].(status := status) else keys[i])
  {
    CountTestIff(keys, ids);
    forall i | 0 <= i < |keys| ensures IndexOf(keys, keys[i].id) == i {}
    if FoundCount(keys, ids) == |ids| {
      if i :| 0 <= i < |keys| && keys[i].id in ids && keys[i].keyType.Noauth? {
        assert keys[IndexOf(keys, keys[i].id)].keyType.Noauth?;
      }
    }
  }

  lemma {:induction false} UnknownAddsNothing(keys: seq<ApiKey>, x: string, unknown: string)
    requires IndexOf(keys, unknown) == |keys|
    ensures FoundCount(keys, [x, unknown]) == FoundCount(keys, [x])
    decreases |keys|
  {
    if keys != [] {
      var init := keys[..|keys| - 1];
      assert forall i :: 0 <= i < |keys| ==> keys[i].id != unknown;
      UnknownAddsNothing(init, x, unknown);
    }
  }

  /** In any store where an id is held by two rows, that id makes the test accept
      any unknown id listed beside it. */
  lemma CountTestNeedsDistinctIds(keys: seq<ApiKey>, x: string, unknown: string)
    requires FoundCount(keys, [x]) == 2 && IndexOf(keys, unknown) == |keys|
    ensures FoundCount(keys, [x, unknown]) == |[x, unknown]|
  {
    UnknownAddsNothing(keys, x, unknown);
  }
}
