/** The `progress` Redux slice (src/store/progressSlice.ts): a list of
    per-task progress records kept up to date by an upsert on `taskId`. */
module ProgressSlice {
  import opened Wrappers

  datatype Status = NotStarted | InProgress | Completed

  datatype ProgressRecord = ProgressRecord(
    id: string, userId: string, taskId: string, status: Status, updatedAt: int)

  datatype ProgressState = ProgressState(
    records: seq<ProgressRecord>, loading: bool, error: Option<string>)

  const Initial: ProgressState := ProgressState([], false, None)

  /** `records.findIndex(r => r.taskId === taskId)`: the first index whose
      record has `taskId`, or -1. */
  function FindIndex(records: seq<ProgressRecord>, taskId: string): (r: int)
    ensures -1 <= r < |records|
    ensures r >= 0 ==> records[r].taskId == taskId
    ensures r >= 0 ==> forall j :: 0 <= j < r ==> records[j].taskId != taskId
    ensures r == -1 ==> forall j :: 0 <= j < |records| ==> records[j].taskId != taskId
  {
    if records == [] then -1
    else if records[0].taskId == taskId then 0
    else
      var k := FindIndex(records[1..], taskId);
      if k < 0 then -1 else k + 1
  }

  /** The reducer `updateProgress`: replace the first record with the
      payload's `taskId`, or append the payload when there is none. */
  function UpdateProgress(s: ProgressState, payload: ProgressRecord): (r: ProgressState)
    ensures r.loading == s.loading && r.error == s.error
    ensures FindIndex(s.records, payload.taskId) >= 0 ==>
              |r.records| == |s.records|
              && r.records[FindIndex(s.records, payload.taskId)] == payload
    ensures FindIndex(s.records, payload.taskId) < 0 ==>
              |r.records| == |s.records| + 1 && r.records[|s.records|] == payload
    ensures forall j :: 0 <= j < |s.records| && s.records[j].taskId != payload.taskId ==>
              r.records[j] == s.records[j]
    ensures forall j :: 0 <= j < |s.records| && j != FindIndex(s.records, payload.taskId) ==>
              r.records[j] == s.records[j]
  {
    var index := FindIndex(s.records, payload.taskId);
    if index >= 0 then s.(records := s.records[index := payload])
    else s.(records := s.records + [payload])
  }

  /** The reducer `setProgressRecords`: the list is replaced wholesale. */
  function SetProgressRecords(s: ProgressState, records: seq<ProgressRecord>): (r: ProgressState)
    ensures r.records == records && r.loading == s.loading && r.error == s.error
  {
    s.(records := records)
  }

  /** The reducer `setLoading`. */
  function SetLoading(s: ProgressState, loading: bool): (r: ProgressState)
    ensures r.loading == loading && r.records == s.records && r.error == s.error
  {
    s.(loading := loading)
  }

  /** The reducer `setError`. */
  function SetError(s: ProgressState, error: Option<string>): (r: ProgressState)
    ensures r.error == error && r.records == s.records && r.loading == s.loading
  {
    s.(error := error)
  }

  /** No two records share a `taskId`. */
  ghost predicate UniqueTaskIds(records: seq<ProgressRecord>) {
    forall i, j :: 0 <= i < j < |records| ==> records[i].taskId != records[j].taskId
  }

  /** The record for `taskId`, if any: the first one, as the upsert sees it. */
  function Lookup(records: seq<ProgressRecord>, taskId: string): Option<ProgressRecord> {
    var i := FindIndex(records, taskId);
    if i >= 0 then Some(records[i]) else None
  }

  /** After an upsert the payload is what a lookup of its `taskId` finds. */
  lemma LookupAfterUpdate(s: ProgressState, payload: ProgressRecord)
    ensures Lookup(UpdateProgress(s, payload).records, payload.taskId) == Some(payload)
  {
    var r := UpdateProgress(s, payload).records;
    var i := FindIndex(s.records, payload.taskId);
    var k := FindIndex(r, payload.taskId);
    if i >= 0 {
      assert r[i] == payload;
      assert k <= i;
    } else {
      assert r[|s.records|] == payload;
      assert k == |s.records|;
    }
  }

  /** An upsert does not change what a lookup of any other `taskId` finds. */
  lemma LookupOtherAfterUpdate(s: ProgressState, payload: ProgressRecord, taskId: string)
    requires taskId != payload.taskId
    ensures Lookup(UpdateProgress(s, payload).records, taskId) == Lookup(s.records, taskId)
  {
    var r := UpdateProgress(s, payload).records;
    var i := FindIndex(s.records, taskId);
    var k := FindIndex(r, taskId);
    if i >= 0 {
      assert r[i] == s.records[i];
      assert k <= i;
    }
  }

  /** Upserting the same record twice gives the state of upserting it once. */
  lemma UpdateIdempotent(s: ProgressState, payload: ProgressRecord)
    ensures UpdateProgress(UpdateProgress(s, payload), payload) == UpdateProgress(s, payload)
  {
    var r1 := UpdateProgress(s, payload);
    LookupAfterUpdate(s, payload);
    var k := FindIndex(r1.records, payload.taskId);
    assert r1.records[k] == payload;
    assert r1.records[k := payload] == r1.records;
  }

  /** The upsert keeps `taskId`s unique. */
  lemma UpdateKeepsUnique(s: ProgressState, payload: ProgressRecord)
    requires UniqueTaskIds(s.records)
    ensures UniqueTaskIds(UpdateProgress(s, payload).records)
  {
  }

  /** The actions of the slice. */
  datatype Action =
    | SetProgressRecordsAction(records: seq<ProgressRecord>)
    | UpdateProgressAction(record: ProgressRecord)
    | SetLoadingAction(loading: bool)
    | SetErrorAction(error: Option<string>)

  /** The slice's reducer: one action applied to the state. */
  function Reduce(s: ProgressState, a: Action): ProgressState {
    match a
    case SetProgressRecordsAction(records) => SetProgressRecords(s, records)
    case UpdateProgressAction(record) => UpdateProgress(s, record)
    case SetLoadingAction(loading) => SetLoading(s, loading)
    case SetErrorAction(error) => SetError(s, error)
  }

  /** A sequence of actions applied in order. */
  function Run(s: ProgressState, actions: seq<Action>): ProgressState
    decreases |actions|
  {
    if actions == [] then s else Run(Reduce(s, actions[0]), actions[1..])
  }

  /** From any state with unique task ids, every sequence of actions that
      only loads unique lists keeps at most one record per task. */
  lemma {:induction false} RunKeepsUnique(s: ProgressState, actions: seq<Action>)
    requires UniqueTaskIds(s.records)
    requires forall i :: 0 <= i < |actions| && actions[i].SetProgressRecordsAction? ==>
               UniqueTaskIds(actions[i].records)
    ensures UniqueTaskIds(Run(s, actions).records)
    decreases |actions|
  {
    if actions != [] {
      var a := actions[0];
      if a.UpdateProgressAction? {
        UpdateKeepsUnique(s, a.record);
      }
      assert forall i :: 1 <= i < |actions| ==> actions[1..][i - 1] == actions[i];
      RunKeepsUnique(Reduce(s, a), actions[1..]);
    }
  }
}
