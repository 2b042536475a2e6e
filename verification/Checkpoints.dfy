/** Initialization checkpoints: rows that are replaced only by an owner who has seen the latest one. */
module Checkpoints {
  import opened Wrappers

  datatype Stage = Inspect | Inventory | Interview | Model | Resolve | Recommend | Review | Apply | Verify

  datatype Status = Running | Paused | Failed | Cancelled | Completed

  // A JSON value in its canonical text.
  type Value = string

  datatype Checkpoint = Checkpoint(
    checkpointId: string, runId: string, repositoryDigest: string, stage: Stage, status: Status,
    confirmed: map<string, Value>, attempt: nat, revision: nat,
    error: Option<string>, cancellationReason: Option<string>)

  datatype Progress = Progress(
    threadId: Option<string>, answers: map<string, string>, provenance: map<string, string>, locked: set<string>)

  const NO_PROGRESS := Progress(None, map[], map[], {})

  datatype Row = Row(checkpoint: Checkpoint, progress: Progress)

  type Rows = map<string, Row>

  datatype StoreError = NotFound | Conflict | IdTaken

  // --- The statements, on the whole table ---

  predicate IdInUse(rows: Rows, id: string, except: string) {
    exists r <- rows.Keys :: r != except && rows[r].checkpoint.checkpointId == id
  }

  function Inserted(rows: Rows, c: Checkpoint): Result<Rows, StoreError> {
    if c.runId in rows || IdInUse(rows, c.checkpointId, c.runId) then Err(Conflict)
    else Ok(rows[c.runId := Row(c, NO_PROGRESS)])
  }

  function Selected(rows: Rows, runId: string): Result<Checkpoint, StoreError> {
    if runId in rows then Ok(rows[runId].checkpoint) else Err(NotFound)
  }

  // UPDATE ... WHERE run_id = ? AND revision = ?
  function Swapped(rows: Rows, previous: Checkpoint, current: Checkpoint): Result<Rows, StoreError> {
    if current.runId !in rows || rows[current.runId].checkpoint.revision != previous.revision then Err(Conflict)
    else if IdInUse(rows, current.checkpointId, current.runId) then Err(IdTaken)
    else Ok(rows[current.runId := rows[current.runId].(checkpoint := current)])
  }

  function ProgressSaved(rows: Rows, runId: string, progress: Progress): Result<Rows, StoreError> {
    if runId in rows then Ok(rows[runId := rows[runId].(progress := progress)]) else Err(NotFound)
  }

  function ProgressOf(rows: Rows, runId: string): Result<Progress, StoreError> {
    if runId in rows then Ok(rows[runId].progress) else Err(NotFound)
  }

  function After(was: Rows, r: Result<Rows, StoreError>): Rows {
    if r.Ok? then r.value else was
  }

  function Failure<T>(r: Result<T, StoreError>): Option<StoreError> {
    if r.Err? then Some(r.error) else None
  }

  /** When each statement fails, and with which error; and that it changes one row only. */
  lemma StatementsAre(rows: Rows, c: Checkpoint, previous: Checkpoint, runId: string, progress: Progress)
    ensures var taken := exists r <- rows.Keys :: r != c.runId && rows[r].checkpoint.checkpointId == c.checkpointId;
      && Inserted(rows, c) ==
           (if c.runId in rows || taken then Err(Conflict)
            else Ok(rows[c.runId := Row(c, Progress(None, map[], map[], {}))]))
      && (c.runId in rows ==>
            Swapped(rows, previous, c) ==
              if rows[c.runId].checkpoint.revision != previous.revision then Err(Conflict)
              else if taken then Err(IdTaken)
              else Ok(rows[c.runId := Row(c, rows[c.runId].progress)]))
      && (c.runId !in rows ==> Swapped(rows, previous, c) == Err(Conflict))
    ensures Selected(rows, runId) == Err(NotFound) <==> runId !in rows
    ensures ProgressOf(rows, runId) == Err(NotFound) <==> runId !in rows
    ensures ProgressSaved(rows, runId, progress) == Err(NotFound) <==> runId !in rows
    ensures runId in rows ==>
      && Selected(rows, runId) == Ok(rows[runId].checkpoint) && ProgressOf(rows, runId) == Ok(rows[runId].progress)
      && ProgressSaved(rows, runId, progress) == Ok(rows[runId := Row(rows[runId].checkpoint, progress)])
  {
  }

  class CheckpointStore {
    var rows: Rows

    constructor ()
      ensures rows == map[]
    {
      rows := map[];
    }

    method Create(c: Checkpoint) returns (failed: Option<StoreError>)
      modifies this
      ensures rows == After(old(rows), Inserted(old(rows), c)) && failed == Failure(Inserted(old(rows), c))
    {
      if c.runId in rows || IdInUse(rows, c.checkpointId, c.runId) { return Some(Conflict); }
      rows := rows[c.runId := Row(c, NO_PROGRESS)];
      failed := None;
    }

    method Load(runId: string) returns (r: Result<Checkpoint, StoreError>)
      ensures r == Selected(rows, runId)
    {
      if runId !in rows { return Err(NotFound); }
      r := Ok(rows[runId].checkpoint);
    }

    method Replace(previous: Checkpoint, current: Checkpoint) returns (failed: Option<StoreError>)
      modifies this
      ensures rows == After(old(rows), Swapped(old(rows), previous, current))
      ensures failed == Failure(Swapped(old(rows), previous, current))
    {
      var matching := current.runId in rows && rows[current.runId].checkpoint.revision == previous.revision;
      if matching && IdInUse(rows, current.checkpointId, current.runId) { return Some(IdTaken); }
      if matching { rows := rows[current.runId := rows[current.runId].(checkpoint := current)]; }
      failed := if matching then None else Some(Conflict);
    }

    method SaveInterviewProgress(runId: string, progress: Progress) returns (failed: Option<StoreError>)
      modifies this
      ensures rows == After(old(rows), ProgressSaved(old(rows), runId, progress))
      ensures failed == Failure(ProgressSaved(old(rows), runId, progress))
    {
      if runId !in rows { return Some(NotFound); }
      rows := rows[runId := rows[runId].(progress := progress)];
      failed := None;
    }

    method LoadInterviewProgress(runId: string) returns (r: Result<Progress, StoreError>)
      ensures r == ProgressOf(rows, runId)
    {
      if runId !in rows { return Err(NotFound); }
      r := Ok(rows[runId].progress);
    }
  }
}
