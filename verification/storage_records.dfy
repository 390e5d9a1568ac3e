/** The data-storage records and their updates. */
module StorageRecords {
  import opened Ordered
  import opened StorageMerge
  import opened StorageFields

  datatype DataStorage = DataStorage(
    id: string, name: string, description: string, primary: bool, storageType: string,
    settings: Settings, status: string)

  datatype UpdateInput = UpdateInput(
    name: Option<string>, description: Option<string>, settings: Option<Input>, status: Option<string>)

  datatype Error = NotFound | DuplicateName(name: string)

  /** The first record with the given id, or `|records|`. */
  function IndexOf(records: seq<DataStorage>, id: string): (r: nat)
    ensures r <= |records|
    ensures r < |records| ==> records[r].id == id
    ensures forall i :: 0 <= i < r ==> records[i].id != id
  {
    if records == [] || records[0].id == id then 0 else 1 + IndexOf(records[1..], id)
  }

  predicate NameTaken(records: seq<DataStorage>, self: nat, name: string) {
    exists i :: 0 <= i < |records| && i != self && records[i].name == name
  }

  function UpdateError(records: seq<DataStorage>, id: string, input: UpdateInput): Option<Error> {
    var i := IndexOf(records, id);
    if i == |records| then Some(NotFound)
    else if input.name.Some? && input.name.value != records[i].name && NameTaken(records, i, input.name.value)
    then Some(DuplicateName(input.name.value))
    else None
  }

  function Updated(r: DataStorage, input: UpdateInput): DataStorage {
    r.(name := OrElse(input.name, r.name),
       description := OrElse(input.description, r.description),
       settings := if input.settings.Some? then Merge(r.settings, input.settings.value) else r.settings,
       status := OrElse(input.status, r.status))
  }

  function Update(records: seq<DataStorage>, id: string, input: UpdateInput): seq<DataStorage> {
    if UpdateError(records, id, input).Some? then records
    else
      var i := IndexOf(records, id);
      records[i := Updated(records[i], input)]
  }

  // ------------------------------------------------ what callers are promised

  function NameOf(u: UpdateInput): Option<string> { u.name }
  function DescriptionOf(u: UpdateInput): Option<string> { u.description }
  function StatusOf(u: UpdateInput): Option<string> { u.status }

  /** The settings asked for by each input; an input without settings asks for
      no change. */
  function SettingsIn(us: seq<UpdateInput>): (r: seq<Input>)
    ensures |r| == |us| && forall i :: 0 <= i < |us| ==> r[i] == OrElse(us[i].settings, NO_CHANGE)
  {
    seq(|us|, i requires 0 <= i < |us| => OrElse(us[i].settings, NO_CHANGE))
  }

  /** `r` is record `before` after the updates `us`: every field is the last one
      given for it, or what it was. */
  ghost predicate RecordFollows(before: DataStorage, us: seq<UpdateInput>, r: DataStorage) {
    && r.id == before.id && r.primary == before.primary && r.storageType == before.storageType
    && LastGiven(Column(us, NameOf), Some(before.name), Some(r.name))
    && LastGiven(Column(us, DescriptionOf), Some(before.description), Some(r.description))
    && LastGiven(Column(us, StatusOf), Some(before.status), Some(r.status))
    && Follows(before.settings, SettingsIn(us), r.settings)
  }

  /** An update is refused for an unknown id, or for a new name that another record
      has, and for nothing else; then it changes nothing. */
  ghost predicate Updates(before: seq<DataStorage>, id: string, input: UpdateInput, error: Option<Error>, after: seq<DataStorage>) {
    var i := IndexOf(before, id);
    && (error.Some? ==> after == before && (error.value.NotFound? || error == Some(DuplicateName(OrElse(input.name, "")))))
    && (error == Some(NotFound) <==> forall r :: r in before ==> r.id != id)
    && (error.None? ==>
          && i < |before| == |after|
          && (forall j :: 0 <= j < |before| && j != i ==> after[j] == before[j])
          && RecordFollows(before[i], [input], after[i]))
    && (i < |before| ==>
          (error.Some? <==>
             && input.name.Some? && input.name.value != before[i].name
             && exists j :: 0 <= j < |before| && j != i && before[j].name == input.name.value))
  }

  function UpdatedAll(r: DataStorage, us: seq<UpdateInput>): DataStorage
    decreases |us|
  {
    if us == [] then r else UpdatedAll(Updated(r, us[0]), us[1..])
  }

  lemma {:induction false} UpdatedAllSettings(r: DataStorage, us: seq<UpdateInput>)
    ensures UpdatedAll(r, us).settings == MergeAll(r.settings, SettingsIn(us))
    decreases |us|
  {
    if us != [] {
      UpdatedAllSettings(Updated(r, us[0]), us[1..]);
      assert SettingsIn(us)[1..] == SettingsIn(us[1..]);
      assert Merge(r.settings, NO_CHANGE) == r.settings;
    }
  }

  lemma {:induction false} UpdatedAllFields(r: DataStorage, us: seq<UpdateInput>)
    ensures
      var r' := UpdatedAll(r, us);
      && r'.id == r.id && r'.primary == r.primary && r'.storageType == r.storageType
      && LastGiven(Column(us, NameOf), Some(r.name), Some(r'.name))
      && LastGiven(Column(us, DescriptionOf), Some(r.description), Some(r'.description))
      && LastGiven(Column(us, StatusOf), Some(r.status), Some(r'.status))
    decreases |us|
  {
    if us != [] {
      var r' := UpdatedAll(r, us);
      UpdatedAllFields(Updated(r, us[0]), us[1..]);
      LastCons(us, NameOf, Some(r.name), Some(r'.name));
      LastCons(us, DescriptionOf, Some(r.description), Some(r'.description));
      LastCons(us, StatusOf, Some(r.status), Some(r'.status));
    }
  }

  lemma UpdatedAllFollows(r: DataStorage, us: seq<UpdateInput>)
    ensures RecordFollows(r, us, UpdatedAll(r, us))
  {
    UpdatedAllFields(r, us);
    UpdatedAllSettings(r, us);
    MergeAllFollows(r.settings, SettingsIn(us));
  }

  lemma UpdateUpdates(records: seq<DataStorage>, id: string, input: UpdateInput)
    ensures Updates(records, id, input, UpdateError(records, id, input), Update(records, id, input))
  {
    var i := IndexOf(records, id);
    if i < |records| {
      assert records[i] in records;
      UpdatedAllFollows(records[i], [input]);
      assert [input][1..] == [];
      assert UpdatedAll(records[i], [input]) == Updated(records[i], input);
    }
  }

  class Store {
    var records: seq<DataStorage>

    method UpdateDataStorage(id: string, input: UpdateInput) returns (error: Option<Error>)
      modifies this
      ensures error == UpdateError(old(records), id, input)
      ensures records == Update(old(records), id, input)
      ensures Updates(old(records), id, input, error, records)
    {
      UpdateUpdates(records, id, input);
      var idx := 0;
      while idx < |records| && records[idx].id != id
        invariant idx <= |records| && forall i :: 0 <= i < idx ==> records[i].id != id
      {
        idx := idx + 1;
      }
      if idx == |records| { return Some(NotFound); }
      var existing := records[idx];
      if input.name.Some? && input.name.value != existing.name && NameTaken(records, idx, input.name.value) {
        return Some(DuplicateName(input.name.value));
      }
      var settings := existing.settings;
      if input.settings.Some? { settings := Merge(existing.settings, input.settings.value); }
      records := records[idx := DataStorage(
        existing.id, OrElse(input.name, existing.name), OrElse(input.description, existing.description),
        existing.primary, existing.storageType, settings, OrElse(input.status, existing.status))];
      return None;
    }
  }

  // -------------------------------------------------------------------- runs

  datatype Request = Request(id: string, input: UpdateInput)

  function Run(records: seq<DataStorage>, requests: seq<Request>): seq<DataStorage>
    decreases |requests|
  {
    if requests == [] then records else Run(Update(records, requests[0].id, requests[0].input), requests[1..])
  }

  /** The inputs that a run accepts for record `id`, in order. */
  function Accepted(records: seq<DataStorage>, requests: seq<Request>, id: string): seq<UpdateInput>
    decreases |requests|
  {
    if requests == [] then []
    else
      var q := requests[0];
      var taken := q.id == id && UpdateError(records, q.id, q.input).None?;
      (if taken then [q.input] else []) + Accepted(Update(records, q.id, q.input), requests[1..], id)
  }

  predicate DistinctNames(records: seq<DataStorage>) {
    forall i, j :: 0 <= i < j < |records| ==> records[i].name != records[j].name
  }

  lemma UpdateKeepsIds(records: seq<DataStorage>, id: string, input: UpdateInput, other: string)
    ensures
      var records' := Update(records, id, input);
      |records'| == |records| && IndexOf(records', other) == IndexOf(records, other)
  {
    var records' := Update(records, id, input);
    assert forall i :: 0 <= i < |records| ==> records'[i].id == records[i].id;
    var a, b := IndexOf(records, other), IndexOf(records', other);
    assert a < |records| ==> records'[a].id == other;
    assert b < |records| ==> records[b].id == other;
  }

  lemma {:induction false} RunUpdates(records: seq<DataStorage>, requests: seq<Request>, id: string)
    requires IndexOf(records, id) < |records|
    ensures |Run(records, requests)| == |records|
    ensures
      var i := IndexOf(records, id);
      Run(records, requests)[i] == UpdatedAll(records[i], Accepted(records, requests, id))
    decreases |requests|
  {
    if requests != [] {
      var q, i := requests[0], IndexOf(records, id);
      var next := Update(records, q.id, q.input);
      UpdateKeepsIds(records, q.id, q.input, id);
      RunUpdates(next, requests[1..], id);
      var later := Accepted(next, requests[1..], id);
      if q.id == id && UpdateError(records, q.id, q.input).None? {
        assert Accepted(records, requests, id) == [q.input] + later;
        assert ([q.input] + later)[1..] == later;
      } else {
        assert Accepted(records, requests, id) == later;
        assert next[i] == records[i];
      }
    }
  }

  /** Whatever else is updated or refused in between, every field of a record ends
      as the last value accepted for it, or as it was. */
  lemma RunFollows(records: seq<DataStorage>, requests: seq<Request>, id: string)
    requires IndexOf(records, id) < |records|
    ensures |Run(records, requests)| == |records|
    ensures
      var i := IndexOf(records, id);
      RecordFollows(records[i], Accepted(records, requests, id), Run(records, requests)[i])
  {
    RunUpdates(records, requests, id);
    UpdatedAllFollows(records[IndexOf(records, id)], Accepted(records, requests, id));
  }

  /** Its settings are the original ones updated once, by the composition of the
      accepted inputs. */
  lemma RunComposesSettings(records: seq<DataStorage>, requests: seq<Request>, id: string)
    requires IndexOf(records, id) < |records|
    ensures |Run(records, requests)| == |records|
    ensures
      var i, accepted := IndexOf(records, id), SettingsIn(Accepted(records, requests, id));
      Run(records, requests)[i].settings == Merge(records[i].settings, ThenAll(accepted))
  {
    var i, accepted := IndexOf(records, id), Accepted(records, requests, id);
    RunUpdates(records, requests, id);
    UpdatedAllSettings(records[i], accepted);
    UpdatesCompose(records[i].settings, SettingsIn(accepted));
  }

  /** Record names stay distinct over every run of updates. */
  lemma {:induction false} RunKeepsNames(records: seq<DataStorage>, requests: seq<Request>)
    requires DistinctNames(records)
    ensures DistinctNames(Run(records, requests))
    decreases |requests|
  {
    if requests != [] {
      RunKeepsNames(Update(records, requests[0].id, requests[0].input), requests[1..]);
    }
  }
}
