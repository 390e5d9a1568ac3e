/** The API-key store: a vector of rows edited in place. */
module ApiKeys {
  import opened Text
  import opened Ordered
  import opened Decimals

  datatype KeyType = User | ServiceAccount | Noauth
  datatype Status = Enabled | Disabled | Archived

  /** A generated key value, or the value a rotation gives to key `id`. */
  datatype Secret = Generated(n: nat) | Rotated(id: string)

  /** A usage profile; `policy` stands for everything but its name. */
  datatype Profile = Profile(name: string, policy: string)
  datatype Profiles = Profiles(active: string, profiles: Option<seq<Profile>>)

  datatype ApiKey = ApiKey(
    id: string, userId: Option<string>, projectId: string, secret: Secret, name: string,
    keyType: KeyType, status: Status, scopes: Option<seq<string>>, profiles: Option<Profiles>)

  datatype CreateInput = CreateInput(
    name: string, keyType: Option<KeyType>, scopes: Option<seq<string>>, projectId: string)

  datatype UpdateInput = UpdateInput(
    name: Option<string>, scopes: Option<seq<string>>, appendScopes: Option<seq<string>>, clearScopes: Option<bool>)

  datatype ProfilesInput = ProfilesInput(active: string, profiles: Option<seq<Profile>>)

  datatype Error =
    | NotFound
    | DuplicateName(name: string)
    | NoauthReserved
    | NoauthImmutable
    | UserTypeScopesImmutable
    | ProfileNameEmpty
    | DuplicateProfileName(name: string)
    | ActiveProfileMissing(name: string)
    | CountMismatch(expected: nat, found: nat)

  type CaseFold = string -> string

  const DEFAULT_SCOPES: seq<string> := ["read_channels", "write_requests"]

  // ------------------------------------------------------------- row lookup

  /** The first row with the given id, or `|keys|`. */
  function IndexOf(keys: seq<ApiKey>, id: string): (r: nat)
    ensures r <= |keys|
    ensures r < |keys| ==> keys[r].id == id
    ensures forall i :: 0 <= i < r ==> keys[i].id != id
  {
    if keys == [] || keys[0].id == id then 0 else 1 + IndexOf(keys[1..], id)
  }

  predicate NameTaken(keys: seq<ApiKey>, name: string, projectId: string) {
    exists i :: 0 <= i < |keys| && keys[i].name == name && keys[i].projectId == projectId
  }

  /** The rename probe looks at every project. */
  predicate NameTakenByOther(keys: seq<ApiKey>, name: string, id: string) {
    exists i :: 0 <= i < |keys| && keys[i].name == name && keys[i].id != id
  }

  // --------------------------------------------------- what operations do

  datatype Outcome = Outcome(keys: seq<ApiKey>, error: Option<Error>)

  function Refuse(keys: seq<ApiKey>, e: Error): Outcome { Outcome(keys, Some(e)) }

  function NewKey(n: nat, userId: Option<string>, input: CreateInput): ApiKey {
    var keyType := OrElse(input.keyType, User);
    var scopes := match keyType
      case User => DEFAULT_SCOPES
      case ServiceAccount => OrElse(input.scopes, [])
      case Noauth => [];
    ApiKey(Decimal(n), userId, input.projectId, Generated(n), input.name, keyType, Enabled, Some(scopes), None)
  }

  /** `k` is what creating the `n`th key promises its caller. */
  predicate IsNew(k: ApiKey, n: nat, userId: Option<string>, input: CreateInput) {
    && k.id == Decimal(n) && k.secret == Generated(n)
    && k.userId == userId && k.projectId == input.projectId && k.name == input.name
    && k.status == Enabled && k.profiles == None
    && (input.keyType == None || input.keyType == Some(User) ==>
          k.keyType == User && k.scopes == Some(["read_channels", "write_requests"]))
    && (input.keyType == Some(ServiceAccount) ==>
          k.keyType == ServiceAccount
          && k.scopes == Some(if input.scopes.Some? then input.scopes.value else []))
  }

  function Create(keys: seq<ApiKey>, userId: Option<string>, input: CreateInput): Outcome {
    if input.keyType == Some(Noauth) then Refuse(keys, NoauthReserved)
    else if NameTaken(keys, input.name, input.projectId) then Refuse(keys, DuplicateName(input.name))
    else Outcome(keys + [NewKey(|keys| + 1, userId, input)], None)
  }

  predicate MutatesScopes(input: UpdateInput) {
    OrElse(input.scopes, []) != [] || OrElse(input.appendScopes, []) != [] || OrElse(input.clearScopes, false)
  }

  /** The scopes of a service account after an update: set, then append, then clear. */
  function UpdatedScopes(current: Option<seq<string>>, input: UpdateInput): Option<seq<string>> {
    var set_ := if input.scopes.Some? then input.scopes else current;
    var appended := if input.appendScopes.Some? then Some(OrElse(set_, []) + input.appendScopes.value) else set_;
    if OrElse(input.clearScopes, false) then Some([]) else appended
  }

  /** Nothing in the input asks for other scopes; empty lists do not. */
  predicate LeavesScopes(input: UpdateInput) {
    && (input.scopes == None || input.scopes == Some([]))
    && (input.appendScopes == None || input.appendScopes == Some([]))
    && input.clearScopes != Some(true)
  }

  /** What an update makes of a service account's scopes: clearing wins, an
      appended list comes last, behind the list set or else the stored one. */
  predicate ScopesFollow(before: Option<seq<string>>, input: UpdateInput, after: Option<seq<string>>) {
    && (input.clearScopes == Some(true) ==> after == Some([]))
    && (input.clearScopes != Some(true) && input.appendScopes.None? ==>
          after == if input.scopes.Some? then input.scopes else before)
    && (input.clearScopes != Some(true) && input.appendScopes.Some? ==>
          && (input.scopes.Some? ==> after == Some(input.scopes.value + input.appendScopes.value))
          && (input.scopes.None? && before.Some? ==> after == Some(before.value + input.appendScopes.value))
          && (input.scopes.None? && before.None? ==> after == input.appendScopes))
  }

  function Updated(k: ApiKey, input: UpdateInput): ApiKey {
    k.(name := OrElse(input.name, k.name),
       scopes := if k.keyType.ServiceAccount? then UpdatedScopes(k.scopes, input) else k.scopes)
  }

  function Update(keys: seq<ApiKey>, id: string, input: UpdateInput): Outcome {
    var i := IndexOf(keys, id);
    if i == |keys| then Refuse(keys, NotFound)
    else if keys[i].keyType.User? && MutatesScopes(input) then Refuse(keys, UserTypeScopesImmutable)
    else if keys[i].keyType.Noauth? then Refuse(keys, NoauthImmutable)
    else if input.name.Some? && input.name.value != keys[i].name && NameTakenByOther(keys, input.name.value, id)
    then Refuse(keys, DuplicateName(input.name.value))
    else Outcome(keys[i := Updated(keys[i], input)], None)
  }

  function SetStatus(keys: seq<ApiKey>, id: string, status: Status): Outcome {
    var i := IndexOf(keys, id);
    if i == |keys| then Refuse(keys, NotFound)
    else if keys[i].keyType.Noauth? then Refuse(keys, NoauthImmutable)
    else Outcome(keys[i := keys[i].(status := status)], None)
  }

  function Rotate(keys: seq<ApiKey>, id: string): Outcome {
    var i := IndexOf(keys, id);
    if i == |keys| then Refuse(keys, NotFound)
    else if keys[i].keyType.Noauth? then Refuse(keys, NoauthImmutable)
    else Outcome(keys[i := keys[i].(secret := Rotated(id))], None)
  }

  /** How profile names are compared. */
  function NameKey(fold: CaseFold, p: Profile): string { fold(Trim(p.name)) }

  /** The complaint about the first `n` profile names, if any. */
  function NamesError(fold: CaseFold, ps: seq<Profile>, n: nat): Option<Error>
    requires n <= |ps|
  {
    if n == 0 then None
    else
      var earlier := NamesError(fold, ps, n - 1);
      if earlier.Some? then earlier
      else if NameKey(fold, ps[n - 1]) == "" then Some(ProfileNameEmpty)
      else if exists j :: 0 <= j < n - 1 && NameKey(fold, ps[j]) == NameKey(fold, ps[n - 1])
      then Some(DuplicateProfileName(ps[n - 1].name))
      else None
  }

  /** Name `n` is not empty and differs from all before it. */
  predicate FreshName(fold: CaseFold, ps: seq<Profile>, n: nat)
    requires n < |ps|
  {
    && fold(Trim(ps[n].name)) != ""
    && forall j :: 0 <= j < n ==> fold(Trim(ps[j].name)) != fold(Trim(ps[n].name))
  }

  /** The first `n` names are non-empty and pairwise distinct. */
  predicate ValidNames(fold: CaseFold, ps: seq<Profile>, n: nat)
    requires n <= |ps|
  {
    forall i :: 0 <= i < n ==> FreshName(fold, ps, i)
  }

  lemma {:induction false} AcceptedNameFresh(fold: CaseFold, ps: seq<Profile>, n: nat, i: nat)
    requires i < n <= |ps| && NamesError(fold, ps, n).None?
    ensures FreshName(fold, ps, i)
  {
    if i < n - 1 { AcceptedNameFresh(fold, ps, n - 1, i); }
  }

  lemma {:induction false} RefusedNameStale(fold: CaseFold, ps: seq<Profile>, n: nat) returns (i: nat)
    requires n <= |ps| && NamesError(fold, ps, n).Some?
    ensures i < n && !FreshName(fold, ps, i)
  {
    if NamesError(fold, ps, n - 1).Some? {
      i := RefusedNameStale(fold, ps, n - 1);
    } else {
      i := n - 1;
    }
  }

  /** The check of profile names accepts exactly the valid lists. */
  lemma NamesErrorNone(fold: CaseFold, ps: seq<Profile>, n: nat)
    requires n <= |ps|
    ensures NamesError(fold, ps, n).None? <==> ValidNames(fold, ps, n)
  {
    if NamesError(fold, ps, n).None? {
      forall i | 0 <= i < n ensures FreshName(fold, ps, i) { AcceptedNameFresh(fold, ps, n, i); }
    } else {
      var i := RefusedNameStale(fold, ps, n);
    }
  }

  /** A complaint is about the first name that is empty or repeated. */
  lemma {:induction false} NamesErrorKind(fold: CaseFold, ps: seq<Profile>, n: nat)
    requires n <= |ps|
    ensures NamesError(fold, ps, n).Some? ==> exists i :: Complains(fold, ps, i, NamesError(fold, ps, n).value)
  {
    if n > 0 {
      NamesErrorKind(fold, ps, n - 1);
      if NamesError(fold, ps, n - 1).None? && NamesError(fold, ps, n).Some? {
        NamesErrorNone(fold, ps, n - 1);
        assert Complains(fold, ps, n - 1, NamesError(fold, ps, n).value);
      }
    }
  }

  ghost predicate Complains(fold: CaseFold, ps: seq<Profile>, i: nat, e: Error) {
    && i < |ps| && ValidNames(fold, ps, i)
    && (e == ProfileNameEmpty || e == DuplicateProfileName(ps[i].name))
    && (e == ProfileNameEmpty <==> fold(Trim(ps[i].name)) == "")
    && (e == DuplicateProfileName(ps[i].name) <==>
          fold(Trim(ps[i].name)) != "" && exists j :: 0 <= j < i && fold(Trim(ps[j].name)) == fold(Trim(ps[i].name)))
  }

  predicate Names(ps: seq<Profile>, name: string) { exists i :: 0 <= i < |ps| && ps[i].name == name }

  function SetProfiles(fold: CaseFold, keys: seq<ApiKey>, id: string, input: ProfilesInput): Outcome {
    var i := IndexOf(keys, id);
    var ps := OrElse(input.profiles, []);
    if i == |keys| then Refuse(keys, NotFound)
    else if keys[i].keyType.Noauth? then Refuse(keys, NoauthImmutable)
    else if NamesError(fold, ps, |ps|).Some? then Outcome(keys, NamesError(fold, ps, |ps|))
    else if input.active != "" && !Names(ps, input.active) then Refuse(keys, ActiveProfileMissing(input.active))
    else
      var stored := Profiles(input.active, if ps == [] then None else Some(ps));
      Outcome(keys[i := keys[i].(profiles := Some(stored))], None)
  }

  /** Rows whose id is listed. */
  function FoundCount(keys: seq<ApiKey>, ids: seq<string>): nat {
    if keys == [] then 0
    else FoundCount(keys[..|keys| - 1], ids) + (if keys[|keys| - 1].id in ids then 1 else 0)
  }

  function WithStatus(keys: seq<ApiKey>, ids: seq<string>, status: Status): (r: seq<ApiKey>)
    ensures |r| == |keys|
    ensures forall i :: 0 <= i < |keys| ==> r[i] == if keys[i].id in ids then keys[i].(status := status) else keys[i]
  {
    seq(|keys|, i requires 0 <= i < |keys| =>
      if keys[i].id in ids then keys[i].(status := status) else keys[i])
  }

  function BulkSetStatus(keys: seq<ApiKey>, ids: seq<string>, status: Status): Outcome {
    if ids == [] then Outcome(keys, None)
    else if FoundCount(keys, ids) != |ids| then Refuse(keys, CountMismatch(|ids|, FoundCount(keys, ids)))
    else if exists i :: 0 <= i < |keys| && keys[i].id in ids && keys[i].keyType.Noauth?
    then Refuse(keys, NoauthImmutable)
    else Outcome(WithStatus(keys, ids, status), None)
  }

  /** Nothing but row `i` differs. */
  predicate OnlyRow(before: seq<ApiKey>, after: seq<ApiKey>, i: nat) {
    i < |before| == |after| && forall j :: 0 <= j < |before| && j != i ==> after[j] == before[j]
  }

  // ------------------------------------------------ what callers are promised

  predicate Unknown(keys: seq<ApiKey>, id: string) { forall k :: k in keys ==> k.id != id }

  /** Creation: the reserved type and a name taken in the same project are
      refused, in that order, and nothing else; otherwise one row is appended. */
  predicate Creates(before: seq<ApiKey>, userId: Option<string>, input: CreateInput, r: Outcome) {
    && (r.error == Some(NoauthReserved) <==> input.keyType == Some(Noauth))
    && (r.error == Some(DuplicateName(input.name)) <==>
          && input.keyType != Some(Noauth)
          && exists k :: k in before && k.name == input.name && k.projectId == input.projectId)
    && (r.error.Some? ==>
          r.keys == before && (r.error == Some(NoauthReserved) || r.error == Some(DuplicateName(input.name))))
    && (r.error.None? ==>
          && |r.keys| == |before| + 1 && r.keys[..|before|] == before
          && IsNew(r.keys[|before|], |before| + 1, userId, input))
  }

  lemma CreateCreates(keys: seq<ApiKey>, userId: Option<string>, input: CreateInput)
    ensures Creates(keys, userId, input, Create(keys, userId, input))
  {
    assert NameTaken(keys, input.name, input.projectId) <==>
      exists k :: k in keys && k.name == input.name && k.projectId == input.projectId;
  }

  /** Renaming and rescoping: possible for a known service account, or a user key
      whose scopes are left alone, if the new name is that of no key with another
      id; then only the name and, for service accounts, the scopes of the first
      row of that id change. */
  predicate Updates(before: seq<ApiKey>, id: string, input: UpdateInput, r: Outcome) {
    var i := IndexOf(before, id);
    && (r.error.Some? ==> r.keys == before)
    && (r.error == Some(NotFound) <==> Unknown(before, id))
    && (r.error.None? <==> i < |before| && MayUpdate(before, before[i], id, input))
    && (r.error.None? ==>
          && OnlyRow(before, r.keys, i)
          && r.keys[i] == before[i].(name := r.keys[i].name, scopes := r.keys[i].scopes)
          && r.keys[i].name == (if input.name.Some? then input.name.value else before[i].name)
          && (before[i].keyType.User? ==> r.keys[i].scopes == before[i].scopes)
          && (before[i].keyType.ServiceAccount? ==> ScopesFollow(before[i].scopes, input, r.keys[i].scopes)))
  }

  predicate MayUpdate(before: seq<ApiKey>, row: ApiKey, id: string, input: UpdateInput) {
    && (row.keyType.ServiceAccount? || (row.keyType.User? && LeavesScopes(input)))
    && (input.name == None || input.name == Some(row.name)
        || forall k :: k in before && k.id != id ==> input.name != Some(k.name))
  }

  lemma MayUpdateIff(keys: seq<ApiKey>, id: string, input: UpdateInput)
    requires IndexOf(keys, id) < |keys|
    ensures Update(keys, id, input).error.None? <==> MayUpdate(keys, keys[IndexOf(keys, id)], id, input)
    ensures Update(keys, id, input).error != Some(NotFound)
  {
    assert LeavesScopes(input) <==> !MutatesScopes(input);
    if input.name.Some? {
      assert NameTakenByOther(keys, input.name.value, id) <==>
        exists k :: k in keys && k.id != id && input.name == Some(k.name);
    }
  }

  lemma UpdatedFollows(k: ApiKey, input: UpdateInput)
    ensures k.keyType.ServiceAccount? ==> ScopesFollow(k.scopes, input, Updated(k, input).scopes)
  {
    if input.appendScopes.Some? { assert [] + input.appendScopes.value == input.appendScopes.value; }
  }

  lemma UpdateUpdates(keys: seq<ApiKey>, id: string, input: UpdateInput)
    ensures Updates(keys, id, input, Update(keys, id, input))
  {
    var i := IndexOf(keys, id);
    if i < |keys| {
      assert keys[i] in keys;
      MayUpdateIff(keys, id, input);
      UpdatedFollows(keys[i], input);
      if MayUpdate(keys, keys[i], id, input) {
        assert Update(keys, id, input) == Outcome(keys[i := Updated(keys[i], input)], None);
      }
    }
  }

  /** Profiles: a list of valid names whose active one is empty or listed is
      stored as submitted, in the first row of that id, if it is not `noauth`. */
  predicate StoresProfiles(fold: CaseFold, before: seq<ApiKey>, id: string, input: ProfilesInput, r: Outcome) {
    var i, ps := IndexOf(before, id), OrElse(input.profiles, []);
    && (r.error.Some? ==> r.keys == before)
    && (r.error == Some(NotFound) <==> Unknown(before, id))
    && (r.error.None? <==>
          && i < |before| && !before[i].keyType.Noauth? && ValidNames(fold, ps, |ps|)
          && (input.active == "" || exists p :: p in ps && p.name == input.active))
    && (r.error.None? ==>
          && OnlyRow(before, r.keys, i) && r.keys[i].profiles.Some?
          && r.keys[i] == before[i].(profiles := r.keys[i].profiles)
          && r.keys[i].profiles.value.active == input.active
          && r.keys[i].profiles.value.profiles == (if ps == [] then None else input.profiles))
  }

  lemma SetProfilesStores(fold: CaseFold, keys: seq<ApiKey>, id: string, input: ProfilesInput)
    ensures StoresProfiles(fold, keys, id, input, SetProfiles(fold, keys, id, input))
  {
    var i, ps := IndexOf(keys, id), OrElse(input.profiles, []);
    assert i < |keys| ==> keys[i] in keys;
    NamesErrorNone(fold, ps, |ps|);
    NamesErrorKind(fold, ps, |ps|);
    assert Names(ps, input.active) <==> exists p :: p in ps && p.name == input.active;
  }

  // -------------------------------------------------------------- the store

  class Store {
    var keys: seq<ApiKey>
    const fold: CaseFold

    constructor (seeded: seq<ApiKey>, fold: CaseFold)
      ensures keys == seeded && this.fold == fold
    {
      keys := seeded;
      this.fold := fold;
    }

    method CreateKey(userId: Option<string>, input: CreateInput) returns (r: Outcome)
      modifies this`keys
      ensures r == Create(old(keys), userId, input) && keys == r.keys
      ensures Creates(old(keys), userId, input, r)
    {
      CreateCreates(keys, userId, input);
      if input.keyType == Some(Noauth) { return Refuse(keys, NoauthReserved); }
      for i := 0 to |keys|
        invariant !NameTaken(keys[..i], input.name, input.projectId)
        invariant keys == old(keys)
      {
        if keys[i].name == input.name && keys[i].projectId == input.projectId {
          assert NameTaken(keys, input.name, input.projectId);
          return Refuse(keys, DuplicateName(input.name));
        }
        assert keys[..i + 1] == keys[..i] + [keys[i]];
      }
      assert keys[..|keys|] == keys;
      keys := keys + [NewKey(|keys| + 1, userId, input)];
      return Outcome(keys, None);
    }

    method UpdateKey(id: string, input: UpdateInput) returns (r: Outcome)
      modifies this`keys
      ensures r == Update(old(keys), id, input) && keys == r.keys
      ensures Updates(old(keys), id, input, r)
    {
      UpdateUpdates(keys, id, input);
      var i := IndexOf(keys, id);
      if i == |keys| { return Refuse(keys, NotFound); }
      var row := keys[i];
      if row.keyType.User? && MutatesScopes(input) { return Refuse(keys, UserTypeScopesImmutable); }
      if row.keyType.Noauth? { return Refuse(keys, NoauthImmutable); }
      if input.name.Some? && input.name.value != row.name && NameTakenByOther(keys, input.name.value, id) {
        return Refuse(keys, DuplicateName(input.name.value));
      }
      if input.name.Some? { row := row.(name := input.name.value); }
      if row.keyType.ServiceAccount? {
        if input.scopes.Some? { row := row.(scopes := input.scopes); }
        if input.appendScopes.Some? {
          row := row.(scopes := Some(OrElse(row.scopes, []) + input.appendScopes.value));
        }
        if OrElse(input.clearScopes, false) { row := row.(scopes := Some([])); }
      }
      keys := keys[i := row];
      return Outcome(keys, None);
    }

    method UpdateKeyStatus(id: string, status: Status) returns (r: Outcome)
      modifies this`keys
      ensures r == SetStatus(old(keys), id, status) && keys == r.keys
      ensures r.error.Some? ==> keys == old(keys)
      ensures r.error.None? <==>
        IndexOf(old(keys), id) < |old(keys)| && !old(keys)[IndexOf(old(keys), id)].keyType.Noauth?
      ensures r.error.None? ==>
        var i := IndexOf(old(keys), id);
        OnlyRow(old(keys), keys, i) && keys[i] == old(keys)[i].(status := status)
    {
      var i := IndexOf(keys, id);
      if i == |keys| { return Refuse(keys, NotFound); }
      if keys[i].keyType.Noauth? { return Refuse(keys, NoauthImmutable); }
      keys := keys[i := keys[i].(status := status)];
      return Outcome(keys, None);
    }

    method RotateKey(id: string) returns (r: Outcome)
      modifies this`keys
      ensures r == Rotate(old(keys), id) && keys == r.keys
      ensures r.error.Some? ==> keys == old(keys)
      ensures r.error.None? <==>
        IndexOf(old(keys), id) < |old(keys)| && !old(keys)[IndexOf(old(keys), id)].keyType.Noauth?
      ensures r.error.None? ==>
        var i := IndexOf(old(keys), id);
        OnlyRow(old(keys), keys, i) && keys[i] == old(keys)[i].(secret := Rotated(id))
    {
      var i := IndexOf(keys, id);
      if i == |keys| { return Refuse(keys, NotFound); }
      if keys[i].keyType.Noauth? { return Refuse(keys, NoauthImmutable); }
      keys := keys[i := keys[i].(secret := Rotated(keys[i].id))];
      return Outcome(keys, None);
    }

    method UpdateKeyProfiles(id: string, input: ProfilesInput) returns (r: Outcome)
      modifies this`keys
      ensures r == SetProfiles(fold, old(keys), id, input) && keys == r.keys
      ensures StoresProfiles(fold, old(keys), id, input, r)
    {
      SetProfilesStores(fold, keys, id, input);
      var i := IndexOf(keys, id);
      if i == |keys| { return Refuse(keys, NotFound); }
      if keys[i].keyType.Noauth? { return Refuse(keys, NoauthImmutable); }
      var ps := OrElse(input.profiles, []);
      var complaint := ValidateNames(ps);
      if complaint.Some? { return Outcome(keys, complaint); }
      if input.active != "" && !Names(ps, input.active) { return Refuse(keys, ActiveProfileMissing(input.active)); }
      keys := keys[i := keys[i].(profiles := Some(Profiles(input.active, if ps == [] then None else Some(ps))))];
      return Outcome(keys, None);
    }

    /** Profile names are checked in order against the set of those seen. */
    method ValidateNames(ps: seq<Profile>) returns (complaint: Option<Error>)
      ensures complaint == NamesError(fold, ps, |ps|)
    {
      var seen: set<string> := {};
      for n := 0 to |ps|
        invariant NamesError(fold, ps, n).None?
        invariant seen == set j | 0 <= j < n :: NameKey(fold, ps[j])
      {
        var name := NameKey(fold, ps[n]);
        if name == "" {
          NamesErrorStays(fold, ps, n + 1);
          return Some(ProfileNameEmpty);
        }
        if name in seen {
          NamesErrorStays(fold, ps, n + 1);
          return Some(DuplicateProfileName(ps[n].name));
        }
        seen := seen + {name};
      }
      return None;
    }

    method CountFound(ids: seq<string>) returns (found: nat)
      ensures found == FoundCount(keys, ids)
    {
      found := 0;
      for i := 0 to |keys|
        invariant found == FoundCount(keys[..i], ids)
      {
        assert keys[..i + 1][..i] == keys[..i];
        if keys[i].id in ids { found := found + 1; }
      }
      assert keys[..|keys|] == keys;
    }

    method AssignStatus(ids: seq<string>, status: Status)
      modifies this`keys
      ensures keys == WithStatus(old(keys), ids, status)
    {
      ghost var was := keys;
      for i := 0 to |keys|
        invariant |keys| == |was|
        invariant forall j :: 0 <= j < |was| ==>
          keys[j] == if j < i && was[j].id in ids then was[j].(status := status) else was[j]
      {
        if keys[i].id in ids { keys := keys[i := keys[i].(status := status)]; }
      }
    }

    method BulkUpdateStatus(ids: seq<string>, status: Status) returns (r: Outcome)
      modifies this`keys
      ensures r == BulkSetStatus(old(keys), ids, status) && keys == r.keys
      ensures r.error.Some? ==> keys == old(keys)
      ensures ids == [] ==> r.error.None? && keys == old(keys)
      ensures r.error.None? && ids != [] ==>
        && |keys| == |old(keys)|
        && (forall i :: 0 <= i < |keys| && old(keys)[i].id !in ids ==> keys[i] == old(keys)[i])
        && (forall i :: 0 <= i < |keys| && old(keys)[i].id in ids ==>
              !old(keys)[i].keyType.Noauth? && keys[i] == old(keys)[i].(status := status))
    {
      if ids == [] { return Outcome(keys, None); }
      var found := CountFound(ids);
      if found != |ids| { return Refuse(keys, CountMismatch(|ids|, found)); }
      if exists i :: 0 <= i < |keys| && keys[i].id in ids && keys[i].keyType.Noauth? {
        return Refuse(keys, NoauthImmutable);
      }
      AssignStatus(ids, status);
      return Outcome(keys, None);
    }
  }

  lemma {:induction false} NamesErrorStays(fold: CaseFold, ps: seq<Profile>, n: nat)
    requires n <= |ps| && NamesError(fold, ps, n).Some?
    ensures NamesError(fold, ps, |ps|) == NamesError(fold, ps, n)
    decreases |ps| - n
  {
    if n < |ps| { NamesErrorStays(fold, ps, n + 1); }
  }
}
