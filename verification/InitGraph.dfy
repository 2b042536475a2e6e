/** The initialization graph: every call loads a checkpoint, checks it, and swaps in its successor. */
module InitGraph {
  import opened Wrappers
  import opened Checkpoints

  datatype Action =
    | Advance(to: Stage, news: map<string, Value>)
    | Revise(news: map<string, Value>)
    | Pause
    | Resume(digest: string)
    | Fail(cause: string)
    | Retry
    | Cancel(reason: string)
    | Complete(news: map<string, Value>)

  datatype GraphError = InvalidTransition | Store(error: StoreError)

  function Position(s: Stage): nat {
    match s
    case Inspect => 0
    case Inventory => 1
    case Interview => 2
    case Model => 3
    case Resolve => 4
    case Recommend => 5
    case Review => 6
    case Apply => 7
    case Verify => 8
  }

  function NextStage(s: Stage): Option<Stage> {
    match s
    case Inspect => Some(Inventory)
    case Inventory => Some(Interview)
    case Interview => Some(Model)
    case Model => Some(Resolve)
    case Resolve => Some(Recommend)
    case Recommend => Some(Review)
    case Review => Some(Apply)
    case Apply => Some(Verify)
    case Verify => None
  }

  predicate Terminal(s: Status) { s.Cancelled? || s.Completed? }

  /** What each call would make of the checkpoint it loaded. */
  function Transition(a: Action, c: Checkpoint): Result<Checkpoint, GraphError> {
    var next := c.(revision := c.revision + 1);
    var rejected := Err(InvalidTransition);
    match a
    case Advance(to, news) =>
      if c.status.Running? && NextStage(c.stage) == Some(to)
        then Ok(next.(stage := to, confirmed := c.confirmed + news)) else rejected
    case Revise(news) =>
      if c.status.Running? then Ok(next.(confirmed := c.confirmed + news)) else rejected
    case Pause =>
      if c.status.Running? then Ok(next.(status := Paused)) else rejected
    case Resume(digest) =>
      if c.status.Paused? && digest == c.repositoryDigest then Ok(next.(status := Running)) else rejected
    case Fail(cause) =>
      if c.status.Running? then Ok(next.(status := Failed, error := Some(cause))) else rejected
    case Retry =>
      if c.status.Failed? then Ok(next.(status := Running, attempt := c.attempt + 1, error := None)) else rejected
    case Cancel(reason) =>
      if !Terminal(c.status) then Ok(next.(status := Cancelled, cancellationReason := Some(reason))) else rejected
    case Complete(news) =>
      if c.status.Running? && c.stage.Verify? then Ok(next.(status := Completed, confirmed := c.confirmed + news))
        else rejected
  }

  /** Which calls are accepted: by status, and an advance by stage as well. */
  lemma AcceptedIff(a: Action, c: Checkpoint)
    ensures Transition(a, c).Ok? <==>
      match a
      case Advance(to, _) =>
        c.status == Running
        && (c.stage, to) in {
             (Inspect, Inventory), (Inventory, Interview), (Interview, Model), (Model, Resolve), (Resolve, Recommend),
             (Recommend, Review), (Review, Apply), (Apply, Verify)}
      case Resume(digest) => c.status == Paused && c.repositoryDigest == digest
      case Retry => c.status == Failed
      case Cancel(_) => c.status in {Running, Paused, Failed}
      case Complete(_) => c.status == Running && c.stage == Verify
      case _ => c.status == Running
    ensures Transition(a, c).Err? ==> Transition(a, c).error == InvalidTransition
  {
  }

  /** What an accepted call changes, field by field; and what it confirms has the confirmed value from then on, while
      every other value stays as it was. */
  lemma TransitionIs(a: Action, c: Checkpoint)
    requires Transition(a, c).Ok?
    ensures var d := Transition(a, c).value;
      && d.checkpointId == c.checkpointId && d.runId == c.runId && d.repositoryDigest == c.repositoryDigest
      && d.revision == c.revision + 1
      && d.stage == (if a.Advance? then a.to else c.stage)
      && d.status == (match a
                      case Pause => Paused
                      case Fail(_) => Failed
                      case Cancel(_) => Cancelled
                      case Complete(_) => Completed
                      case _ => Running)
      && d.attempt == (if a.Retry? then c.attempt + 1 else c.attempt)
      && d.error == (if a.Fail? then Some(a.cause) else if a.Retry? then None else c.error)
      && d.cancellationReason == (if a.Cancel? then Some(a.reason) else c.cancellationReason)
    ensures var d := Transition(a, c).value;
      if a.Advance? || a.Revise? || a.Complete? then
        && (forall k :: k in d.confirmed <==> k in a.news || k in c.confirmed)
        && (forall k <- a.news.Keys :: d.confirmed[k] == a.news[k])
        && (forall k <- c.confirmed.Keys :: k !in a.news ==> d.confirmed[k] == c.confirmed[k])
      else d.confirmed == c.confirmed
  {
  }

  /** Pausing and resuming on the same repository gives back the checkpoint, two revisions on; on another it is
      refused. */
  lemma PauseThenResume(c: Checkpoint, digest: string)
    requires c.status.Running?
    ensures Transition(Pause, c).Ok?
    ensures Transition(Resume(digest), Transition(Pause, c).value) ==
      if digest == c.repositoryDigest then Ok(c.(revision := c.revision + 2)) else Err(InvalidTransition)
    ensures forall a :: Transition(a, Transition(Pause, c).value).Ok? ==> a.Resume? || a.Cancel?
  {
  }

  /** Failing and retrying gives back the checkpoint without its error, one attempt and two revisions on. */
  lemma FailThenRetry(c: Checkpoint, cause: string)
    requires c.status.Running?
    ensures Transition(Fail(cause), c).Ok? && Transition(Fail(cause), c).value.error == Some(cause)
    ensures Transition(Retry, Transition(Fail(cause), c).value) ==
      Ok(c.(revision := c.revision + 2, attempt := c.attempt + 1, error := None))
    ensures forall a :: Transition(a, Transition(Fail(cause), c).value).Ok? ==> a.Retry? || a.Cancel?
  {
  }

  /** The first half of a call: load and check. */
  function Prepared(rows: Rows, runId: string, a: Action): Result<(Checkpoint, Checkpoint), GraphError> {
    match Selected(rows, runId)
    case Err(e) => Err(Store(e))
    case Ok(previous) =>
      match Transition(a, previous)
      case Err(e) => Err(e)
      case Ok(current) => Ok((previous, current))
  }

  function Started(runId: string, checkpointId: string, digest: string): Checkpoint {
    Checkpoint(checkpointId, runId, digest, Inspect, Running, map[], 1, 1, None, None)
  }

  /** What a call returns and leaves in the database: its two halves, with the other owners' work in between. */
  ghost predicate Calls(was: Rows, now: Rows, runId: string, a: Action, others: Rows -> Rows,
                        r: Result<Checkpoint, GraphError>) {
    match Prepared(was, runId, a)
    case Err(e) => now == was && r == Err(e)
    case Ok((previous, current)) =>
      var swapped := Swapped(others(was), previous, current);
      && now == After(others(was), swapped)
      && r == if swapped.Ok? then Ok(current) else Err(Store(swapped.error))
  }

  class InitializationGraph {
    const checkpoints: CheckpointStore
    // The side effects that were run, one entry each.
    var effects: seq<string>

    constructor (checkpoints: CheckpointStore)
      ensures this.checkpoints == checkpoints && effects == []
    {
      this.checkpoints, effects := checkpoints, [];
    }

    method Start(runId: string, checkpointId: string, digest: string) returns (r: Result<Checkpoint, GraphError>)
      modifies checkpoints
      ensures var inserted := Inserted(old(checkpoints.rows), Started(runId, checkpointId, digest));
        && checkpoints.rows == After(old(checkpoints.rows), inserted)
        && r == if inserted.Ok? then Ok(Started(runId, checkpointId, digest)) else Err(Store(inserted.error))
      ensures runId in old(checkpoints.rows) ==> r.Err? && checkpoints.rows == old(checkpoints.rows)
      ensures r.Ok? ==>
        && r.value.checkpointId == checkpointId && r.value.runId == runId && r.value.repositoryDigest == digest
        && r.value.stage == Inspect && r.value.status == Running && r.value.confirmed == map[]
        && r.value.attempt == 1 && r.value.revision == 1 && r.value.error == r.value.cancellationReason == None
        && checkpoints.rows == old(checkpoints.rows)[runId := Row(r.value, NO_PROGRESS)]
    {
      var checkpoint := Checkpoint(checkpointId, runId, digest, Inspect, Running, map[], 1, 1, None, None);
      var failed := checkpoints.Create(checkpoint);
      r := if failed.None? then Ok(checkpoint) else Err(Store(failed.value));
    }

    // What other owners do to the database between this call's read and its write.
    method Meanwhile(others: Rows -> Rows)
      modifies checkpoints
      ensures checkpoints.rows == others(old(checkpoints.rows))
    {
      checkpoints.rows := others(checkpoints.rows);
    }

    // The second half of every call.
    method Swap(previous: Checkpoint, current: Checkpoint) returns (r: Result<Checkpoint, GraphError>)
      modifies checkpoints
      ensures var swapped := Swapped(old(checkpoints.rows), previous, current);
        && checkpoints.rows == After(old(checkpoints.rows), swapped)
        && r == if swapped.Ok? then Ok(current) else Err(Store(swapped.error))
      ensures r.Ok? ==> current.runId in checkpoints.rows && checkpoints.rows[current.runId].checkpoint == current
    {
      var failed := checkpoints.Replace(previous, current);
      r := if failed.None? then Ok(current) else Err(Store(failed.value));
    }

    method RequireStatus(c: Checkpoint, expected: Status) returns (rejected: Option<GraphError>)
      ensures rejected == if c.status == expected then None else Some(InvalidTransition)
    {
      rejected := if c.status == expected then None else Some(InvalidTransition);
    }

    method Advance(runId: string, stage: Stage, confirmed: map<string, Value>, effect: Option<string>,
                   others: Rows -> Rows)
      returns (r: Result<Checkpoint, GraphError>)
      modifies this, checkpoints
      ensures Calls(old(checkpoints.rows), checkpoints.rows, runId, Action.Advance(stage, confirmed), others, r)
      ensures effects == if effect.Some? && Prepared(old(checkpoints.rows), runId, Action.Advance(stage, confirmed)).Ok?
                         then old(effects) + [effect.value] else old(effects)
      ensures r.Ok? ==>
        && runId in old(checkpoints.rows)
        && r.value.runId in checkpoints.rows && checkpoints.rows[r.value.runId].checkpoint == r.value
        && (forall k :: k in r.value.confirmed <==>
              k in confirmed || k in old(checkpoints.rows)[runId].checkpoint.confirmed)
        && forall k <- r.value.confirmed.Keys :: r.value.confirmed[k] ==
             if k in confirmed then confirmed[k] else old(checkpoints.rows)[runId].checkpoint.confirmed[k]
    {
      hide Swapped, IdInUse, NextStage;
      var loaded := checkpoints.Load(runId);
      if loaded.Err? { return Err(Store(loaded.error)); }
      var previous := loaded.value;
      var rejected := RequireStatus(previous, Running);
      if rejected.Some? { return Err(rejected.value); }
      if NextStage(previous.stage) != Some(stage) { return Err(InvalidTransition); }
      if effect.Some? { effects := effects + [effect.value]; }
      Meanwhile(others);
      r := Swap(previous,
        previous.(stage := stage, confirmed := previous.confirmed + confirmed, revision := previous.revision + 1));
    }

    method Revise(runId: string, confirmed: map<string, Value>, others: Rows -> Rows)
      returns (r: Result<Checkpoint, GraphError>)
      modifies checkpoints
      ensures Calls(old(checkpoints.rows), checkpoints.rows, runId, Action.Revise(confirmed), others, r)
      ensures r.Ok? ==>
        && runId in old(checkpoints.rows)
        && r.value.runId in checkpoints.rows && checkpoints.rows[r.value.runId].checkpoint == r.value
        && (forall k :: k in r.value.confirmed <==>
              k in confirmed || k in old(checkpoints.rows)[runId].checkpoint.confirmed)
        && forall k <- r.value.confirmed.Keys :: r.value.confirmed[k] ==
             if k in confirmed then confirmed[k] else old(checkpoints.rows)[runId].checkpoint.confirmed[k]
    {
      var loaded := checkpoints.Load(runId);
      if loaded.Err? { return Err(Store(loaded.error)); }
      var previous := loaded.value;
      var rejected := RequireStatus(previous, Running);
      if rejected.Some? { return Err(rejected.value); }
      Meanwhile(others);
      r := Swap(previous, previous.(confirmed := previous.confirmed + confirmed, revision := previous.revision + 1));
    }

    method Pause(runId: string, others: Rows -> Rows) returns (r: Result<Checkpoint, GraphError>)
      modifies checkpoints
      ensures Calls(old(checkpoints.rows), checkpoints.rows, runId, Action.Pause, others, r)
      ensures r.Ok? ==>
        runId in old(checkpoints.rows) && r.value.confirmed == old(checkpoints.rows)[runId].checkpoint.confirmed
        && r.value.runId in checkpoints.rows && checkpoints.rows[r.value.runId].checkpoint == r.value
    {
      var loaded := checkpoints.Load(runId);
      if loaded.Err? { return Err(Store(loaded.error)); }
      var previous := loaded.value;
      var rejected := RequireStatus(previous, Running);
      if rejected.Some? { return Err(rejected.value); }
      Meanwhile(others);
      r := Swap(previous, previous.(status := Paused, revision := previous.revision + 1));
    }

    method Resume(runId: string, digest: string, others: Rows -> Rows) returns (r: Result<Checkpoint, GraphError>)
      modifies checkpoints
      ensures Calls(old(checkpoints.rows), checkpoints.rows, runId, Action.Resume(digest), others, r)
      ensures r.Ok? ==>
        runId in old(checkpoints.rows) && r.value.confirmed == old(checkpoints.rows)[runId].checkpoint.confirmed
        && r.value.runId in checkpoints.rows && checkpoints.rows[r.value.runId].checkpoint == r.value
    {
      var loaded := checkpoints.Load(runId);
      if loaded.Err? { return Err(Store(loaded.error)); }
      var previous := loaded.value;
      var rejected := RequireStatus(previous, Paused);
      if rejected.Some? { return Err(rejected.value); }
      if digest != previous.repositoryDigest { return Err(InvalidTransition); }
      Meanwhile(others);
      r := Swap(previous, previous.(status := Running, revision := previous.revision + 1));
    }

    method Fail(runId: string, error: string, others: Rows -> Rows) returns (r: Result<Checkpoint, GraphError>)
      modifies checkpoints
      ensures Calls(old(checkpoints.rows), checkpoints.rows, runId, Action.Fail(error), others, r)
      ensures r.Ok? ==>
        runId in old(checkpoints.rows) && r.value.confirmed == old(checkpoints.rows)[runId].checkpoint.confirmed
        && r.value.runId in checkpoints.rows && checkpoints.rows[r.value.runId].checkpoint == r.value
    {
      var loaded := checkpoints.Load(runId);
      if loaded.Err? { return Err(Store(loaded.error)); }
      var previous := loaded.value;
      var rejected := RequireStatus(previous, Running);
      if rejected.Some? { return Err(rejected.value); }
      Meanwhile(others);
      r := Swap(previous, previous.(status := Failed, error := Some(error), revision := previous.revision + 1));
    }

    method Retry(runId: string, others: Rows -> Rows) returns (r: Result<Checkpoint, GraphError>)
      modifies checkpoints
      ensures Calls(old(checkpoints.rows), checkpoints.rows, runId, Action.Retry, others, r)
      ensures r.Ok? ==>
        runId in old(checkpoints.rows) && r.value.confirmed == old(checkpoints.rows)[runId].checkpoint.confirmed
        && r.value.runId in checkpoints.rows && checkpoints.rows[r.value.runId].checkpoint == r.value
    {
      var loaded := checkpoints.Load(runId);
      if loaded.Err? { return Err(Store(loaded.error)); }
      var previous := loaded.value;
      var rejected := RequireStatus(previous, Failed);
      if rejected.Some? { return Err(rejected.value); }
      Meanwhile(others);
      r := Swap(previous, previous.(status := Running, attempt := previous.attempt + 1, error := None,
                                    revision := previous.revision + 1));
    }

    method Cancel(runId: string, reason: string, others: Rows -> Rows) returns (r: Result<Checkpoint, GraphError>)
      modifies checkpoints
      ensures Calls(old(checkpoints.rows), checkpoints.rows, runId, Action.Cancel(reason), others, r)
      ensures r.Ok? ==>
        runId in old(checkpoints.rows) && r.value.confirmed == old(checkpoints.rows)[runId].checkpoint.confirmed
        && r.value.runId in checkpoints.rows && checkpoints.rows[r.value.runId].checkpoint == r.value
    {
      var loaded := checkpoints.Load(runId);
      if loaded.Err? { return Err(Store(loaded.error)); }
      var previous := loaded.value;
      if Terminal(previous.status) { return Err(InvalidTransition); }
      Meanwhile(others);
      r := Swap(previous,
        previous.(status := Cancelled, cancellationReason := Some(reason), revision := previous.revision + 1));
    }

    method Complete(runId: string, confirmed: map<string, Value>, others: Rows -> Rows)
      returns (r: Result<Checkpoint, GraphError>)
      modifies checkpoints
      ensures Calls(old(checkpoints.rows), checkpoints.rows, runId, Action.Complete(confirmed), others, r)
      ensures r.Ok? ==>
        && runId in old(checkpoints.rows)
        && r.value.runId in checkpoints.rows && checkpoints.rows[r.value.runId].checkpoint == r.value
        && (forall k :: k in r.value.confirmed <==>
              k in confirmed || k in old(checkpoints.rows)[runId].checkpoint.confirmed)
        && forall k <- r.value.confirmed.Keys :: r.value.confirmed[k] ==
             if k in confirmed then confirmed[k] else old(checkpoints.rows)[runId].checkpoint.confirmed[k]
    {
      var loaded := checkpoints.Load(runId);
      if loaded.Err? { return Err(Store(loaded.error)); }
      var previous := loaded.value;
      var rejected := RequireStatus(previous, Running);
      if rejected.Some? { return Err(rejected.value); }
      if previous.stage != Verify { return Err(InvalidTransition); }
      Meanwhile(others);
      r := Swap(previous, previous.(status := Completed, confirmed := previous.confirmed + confirmed,
                                    revision := previous.revision + 1));
    }
  }
}
