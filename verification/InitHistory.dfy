/** Any number of owners at once: every interleaving of their loads and swaps leaves one linear history per run. */
module InitHistory {
  import opened Wrappers
  import opened Checkpoints
  import opened InitGraph

  type Owner = nat

  datatype Step =
    | Begin(runId: string, checkpointId: string, digest: string)
    | LoadAndCheck(owner: Owner, runId: string, action: Action, effect: Option<string>)
    | SwapIn(owner: Owner)
    | Crash(owner: Owner)
    | SaveProgress(runId: string, progress: Progress)

  // A call that has loaded and checked, and not yet written.
  datatype Pending = Pending(previous: Checkpoint, current: Checkpoint, action: Action)

  /** The database, the calls under way, the side effects run so far, and every checkpoint a run has had. */
  datatype World = World(rows: Rows, pending: map<Owner, Pending>, effects: seq<(Owner, string)>,
                         history: map<string, seq<Checkpoint>>)

  const FRESH := World(map[], map[], [], map[])

  predicate Wins(w: World, owner: Owner) {
    owner in w.pending && Swapped(w.rows, w.pending[owner].previous, w.pending[owner].current).Ok?
  }

  function Do(w: World, s: Step): World {
    match s
    case Begin(runId, checkpointId, digest) =>
      var c := Started(runId, checkpointId, digest);
      var inserted := Inserted(w.rows, c);
      w.(rows := After(w.rows, inserted), history := if inserted.Ok? then w.history[runId := [c]] else w.history)
    case LoadAndCheck(owner, runId, action, effect) =>
      match Prepared(w.rows, runId, action) {
        case Err(_) => w
        case Ok((previous, current)) =>
          var effects := if action.Advance? && effect.Some? then w.effects + [(owner, effect.value)] else w.effects;
          w.(pending := w.pending[owner := Pending(previous, current, action)], effects := effects)
      }
    case SwapIn(owner) =>
      if owner !in w.pending then w
      else
        var p := w.pending[owner];
        var swapped := Swapped(w.rows, p.previous, p.current);
        var runId := p.current.runId;
        w.(rows := After(w.rows, swapped), pending := w.pending - {owner},
           history := if swapped.Ok? && runId in w.history then w.history[runId := w.history[runId] + [p.current]]
             else w.history)
    case Crash(owner) => w.(pending := w.pending - {owner})
    case SaveProgress(runId, progress) => w.(rows := After(w.rows, ProgressSaved(w.rows, runId, progress)))
  }

  function Run(w: World, steps: seq<Step>): World {
    if steps == [] then w else Do(Run(w, steps[..|steps| - 1]), steps[|steps| - 1])
  }

  /** A call of the graph is a load and a swap of this machine, with the other owners' steps in between. */
  lemma CallsAreSteps(w: World, owner: Owner, runId: string, a: Action, effect: Option<string>, between: seq<Step>,
                      others: Rows -> Rows)
    requires Prepared(w.rows, runId, a).Ok?
    requires var loaded := Do(w, LoadAndCheck(owner, runId, a, effect));
      var mid := Run(loaded, between);
      owner in mid.pending && mid.pending[owner] == loaded.pending[owner] && others(w.rows) == mid.rows
    ensures var mid := Run(Do(w, LoadAndCheck(owner, runId, a, effect)), between);
      var (previous, current) := Prepared(w.rows, runId, a).value;
      var r := if Wins(mid, owner) then Ok(current) else Err(Store(Swapped(mid.rows, previous, current).error));
      Calls(w.rows, Do(mid, SwapIn(owner)).rows, runId, a, others, r)
  {
    hide Run, Swapped;
  }

  /** A load remembers what it saw and what it would write, and runs the side effect of an accepted advance; a swap
      and a crash forget it; and none of the three touches another owner's call. */
  lemma OwnersStepsAre(w: World, o: Owner, runId: string, a: Action, effect: Option<string>)
    ensures var loaded := Do(w, LoadAndCheck(o, runId, a, effect));
      && loaded.rows == w.rows && loaded.history == w.history
      && (runId !in w.rows || Transition(a, w.rows[runId].checkpoint).Err? ==> loaded == w)
      && (runId in w.rows && Transition(a, w.rows[runId].checkpoint).Ok? ==>
            var c := w.rows[runId].checkpoint;
            && loaded.pending == w.pending[o := Pending(c, Transition(a, c).value, a)]
            && loaded.effects == if a.Advance? && effect.Some? then w.effects + [(o, effect.value)] else w.effects)
    ensures Do(w, Crash(o)) == w.(pending := w.pending - {o})
    ensures Do(w, SwapIn(o)).pending == w.pending - {o} && Do(w, SwapIn(o)).effects == w.effects
  {
    hide Transition, Swapped;
    if o !in w.pending { assert w.pending - {o} == w.pending; }
  }

  // --- The interview's progress ---

  /** The last progress that was saved for a run. */
  function LastSaved(steps: seq<Step>, runId: string): Option<Progress> {
    if steps == [] then None
    else
      var front, last := steps[..|steps| - 1], steps[|steps| - 1];
      if last.SaveProgress? && last.runId == runId then Some(last.progress) else LastSaved(front, runId)
  }

  /** Loading the progress of a run gives what was saved last, whatever its owners do in between: no call of the graph,
      no failed start of the same run and no crash loses it. */
  lemma {:induction false} ProgressSurvives(w: World, steps: seq<Step>, runId: string)
    requires runId in w.rows
    ensures ProgressOf(Run(w, steps).rows, runId) ==
      if LastSaved(steps, runId).Some? then Ok(LastSaved(steps, runId).value) else ProgressOf(w.rows, runId)
  {
    hide Do;
    if steps != [] {
      var front, last := steps[..|steps| - 1], steps[|steps| - 1];
      ProgressSurvives(w, front, runId);
      ProgressAfter(Run(w, front), last, runId);
    }
  }

  lemma ProgressAfter(w: World, s: Step, runId: string)
    requires runId in w.rows
    ensures ProgressOf(Do(w, s).rows, runId) ==
      if s.SaveProgress? && s.runId == runId then Ok(s.progress) else ProgressOf(w.rows, runId)
  {
    hide IdInUse, Transition;
  }

  /** A run starts without any. */
  lemma StartsWithoutProgress(w: World, runId: string, checkpointId: string, digest: string)
    requires runId !in w.rows
    ensures ProgressOf(w.rows, runId) == Err(NotFound)
    ensures var now := Do(w, Begin(runId, checkpointId, digest)).rows;
      ProgressOf(now, runId) == if IdInUse(w.rows, checkpointId, runId) then Err(NotFound) else Ok(NO_PROGRESS)
  {
  }

  // --- What every interleaving keeps ---

  ghost predicate Follows(c: Checkpoint, d: Checkpoint) {
    exists a :: Transition(a, c) == Ok(d)
  }

  /** The checkpoints of one run: a fresh start, then one legal transition after the other, numbered. */
  ghost predicate Linear(runId: string, h: seq<Checkpoint>) {
    && h != []
    && h[0] == Started(runId, h[0].checkpointId, h[0].repositoryDigest)
    && (forall i :: 0 <= i < |h| ==> h[i].revision == i + 1)
    && (forall i :: 0 <= i < |h| - 1 ==> Follows(h[i], h[i + 1]))
  }

  // A pending call saw a checkpoint the run really had.
  ghost predicate SawHistory(history: map<string, seq<Checkpoint>>, p: Pending) {
    && p.previous.runId in history
    && 1 <= p.previous.revision <= |history[p.previous.runId]|
    && history[p.previous.runId][p.previous.revision - 1] == p.previous
    && Transition(p.action, p.previous) == Ok(p.current)
  }

  ghost predicate AllSaw(history: map<string, seq<Checkpoint>>, pending: map<Owner, Pending>) {
    forall o <- pending.Keys :: SawHistory(history, pending[o])
  }

  // The row of a run is the last of its history.
  ghost predicate Latest(runId: string, c: Checkpoint, h: seq<Checkpoint>) {
    Linear(runId, h) && h[|h| - 1] == c && c.runId == runId
  }

  ghost predicate AllLatest(rows: Rows, history: map<string, seq<Checkpoint>>) {
    && history.Keys == rows.Keys
    && forall r <- rows.Keys :: Latest(r, rows[r].checkpoint, history[r])
  }

  ghost predicate DistinctIds(rows: Rows) {
    forall r <- rows.Keys, q <- rows.Keys :: r != q ==>
      rows[r].checkpoint.checkpointId != rows[q].checkpoint.checkpointId
  }

  ghost predicate Good(w: World) {
    AllLatest(w.rows, w.history) && DistinctIds(w.rows) && AllSaw(w.history, w.pending)
  }

  lemma FollowsIs(c: Checkpoint, d: Checkpoint)
    requires Follows(c, d)
    ensures d.revision == c.revision + 1 && !Terminal(c.status)
    ensures d.runId == c.runId && d.checkpointId == c.checkpointId && d.repositoryDigest == c.repositoryDigest
    ensures d.stage == c.stage || NextStage(c.stage) == Some(d.stage)
    ensures d.stage != c.stage ==> c.status.Running? && d.status.Running?
    ensures d.status.Completed? ==> d.stage.Verify?
    ensures c.confirmed.Keys <= d.confirmed.Keys
    ensures d.attempt == if c.status.Failed? && d.status.Running? then c.attempt + 1 else c.attempt
    ensures c.status.Paused? ==> d.status.Running? || d.status.Cancelled?
  {
    var a :| Transition(a, c) == Ok(d);
  }

  lemma LatestRevision(runId: string, h: seq<Checkpoint>)
    requires Linear(runId, h)
    ensures h[|h| - 1].revision == |h|
  {
  }

  /** Equal revision means equal checkpoint: a call wins exactly when nothing was written since its load. */
  lemma WinsIff(w: World, owner: Owner)
    requires Good(w) && owner in w.pending
    ensures var p := w.pending[owner];
      && p.previous.runId in w.rows && p.current.runId == p.previous.runId
      && (Wins(w, owner) <==> w.rows[p.previous.runId].checkpoint == p.previous)
  {
    hide Linear, Follows, IdInUse;
    var p := w.pending[owner];
    assert SawHistory(w.history, p);
    FollowsIs(p.previous, p.current);
    var r := p.previous.runId;
    LatestRevision(r, w.history[r]);
    if w.rows[r].checkpoint == p.previous { OwnIdIsFree(w.rows, r); }
  }

  lemma OwnIdIsFree(rows: Rows, r: string)
    requires DistinctIds(rows) && r in rows
    ensures !IdInUse(rows, rows[r].checkpoint.checkpointId, r)
  {
  }

  lemma LinearAppends(runId: string, h: seq<Checkpoint>, c: Checkpoint)
    requires Linear(runId, h) && Follows(h[|h| - 1], c)
    ensures Linear(runId, h + [c])
  {
    FollowsIs(h[|h| - 1], c);
  }

  lemma StillSeen(history: map<string, seq<Checkpoint>>, history': map<string, seq<Checkpoint>>,
                  pending: map<Owner, Pending>)
    requires AllSaw(history, pending)
    requires forall r <- history.Keys :: r in history' && history[r] <= history'[r]
    ensures AllSaw(history', pending)
  {
    hide Follows;
    forall o <- pending.Keys ensures SawHistory(history', pending[o]) {
      assert SawHistory(history, pending[o]);
    }
  }

  lemma InsertKeeps(rows: Rows, history: map<string, seq<Checkpoint>>, c: Checkpoint)
    requires AllLatest(rows, history) && DistinctIds(rows)
    requires Latest(c.runId, c, [c]) && Inserted(rows, c).Ok?
    ensures AllLatest(Inserted(rows, c).value, history[c.runId := [c]])
    ensures DistinctIds(Inserted(rows, c).value)
  {
    hide Latest;
  }

  lemma BeginKeeps(w: World, runId: string, checkpointId: string, digest: string)
    requires Good(w)
    ensures Good(Do(w, Begin(runId, checkpointId, digest)))
  {
    var c := Started(runId, checkpointId, digest);
    assert Latest(runId, c, [c]);
    hide Follows, SawHistory, AllSaw, AllLatest, DistinctIds, Latest;
    if Inserted(w.rows, c).Ok? {
      InsertKeeps(w.rows, w.history, c);
      assert w.history.Keys == w.rows.Keys by { hide Inserted; HistoryKeys(w); }
      StillSeen(w.history, w.history[runId := [c]], w.pending);
    }
  }

  lemma HistoryKeys(w: World)
    requires AllLatest(w.rows, w.history)
    ensures w.history.Keys == w.rows.Keys
  {
  }

  lemma LoadKeeps(w: World, owner: Owner, runId: string, action: Action, effect: Option<string>)
    requires Good(w)
    ensures Good(Do(w, LoadAndCheck(owner, runId, action, effect)))
  {
    hide Transition, DistinctIds;
    match Prepared(w.rows, runId, action)
    case Err(_) =>
    case Ok((previous, current)) =>
      assert Follows(previous, current);
      assert Latest(runId, previous, w.history[runId]);
      LatestRevision(runId, w.history[runId]);
      assert SawHistory(w.history, Pending(previous, current, action));
  }

  lemma SawFollows(history: map<string, seq<Checkpoint>>, p: Pending)
    requires SawHistory(history, p)
    ensures Follows(p.previous, p.current)
  {
  }

  lemma WonRows(w: World, owner: Owner)
    requires Good(w) && owner in w.pending && Wins(w, owner)
    ensures var p, w', r := w.pending[owner], Do(w, SwapIn(owner)), w.pending[owner].previous.runId;
      && r in w.rows && r in w.history && p.current.runId == r && p.current.checkpointId == p.previous.checkpointId
      && w.rows[r].checkpoint == p.previous && Follows(p.previous, p.current)
      && w'.rows == w.rows[r := w.rows[r].(checkpoint := p.current)]
      && w'.history == w.history[r := w.history[r] + [p.current]]
      && w'.pending == w.pending - {owner}
  {
    hide Follows, DistinctIds, IdInUse, Linear, Transition;
    var p := w.pending[owner];
    SawFollows(w.history, p);
    FollowsIs(p.previous, p.current);
    WinsIff(w, owner);
  }

  lemma ReplaceKeeps(rows: Rows, history: map<string, seq<Checkpoint>>, r: string, c: Checkpoint)
    requires AllLatest(rows, history) && DistinctIds(rows) && r in rows
    requires Latest(r, c, history[r] + [c]) && c.checkpointId == rows[r].checkpoint.checkpointId
    ensures AllLatest(rows[r := rows[r].(checkpoint := c)], history[r := history[r] + [c]])
    ensures DistinctIds(rows[r := rows[r].(checkpoint := c)])
  {
    hide Latest;
  }

  lemma SwapKeeps(w: World, owner: Owner)
    requires Good(w)
    ensures Good(Do(w, SwapIn(owner)))
  {
    hide Linear, Follows, SawHistory, IdInUse, AllLatest, DistinctIds;
    var w' := Do(w, SwapIn(owner));
    if Wins(w, owner) {
      WonRows(w, owner);
      var p := w.pending[owner];
      var r := p.previous.runId;
      assert Latest(r, p.previous, w.history[r]) by { LatestOf(w.rows, w.history, r); }
      LinearAppends(r, w.history[r], p.current);
      ReplaceKeeps(w.rows, w.history, r, p.current);
      StillSeen(w.history, w'.history, w.pending - {owner});
    }
  }

  lemma LatestOf(rows: Rows, history: map<string, seq<Checkpoint>>, r: string)
    requires AllLatest(rows, history) && r in rows
    ensures r in history && Latest(r, rows[r].checkpoint, history[r])
  {
    hide Latest;
  }

  lemma OthersKeep(w: World, s: Step)
    requires Good(w) && (s.Crash? || s.SaveProgress?)
    ensures Good(Do(w, s))
  {
    hide Follows, Linear, SawHistory;
  }

  /** Every step of any owner keeps the histories linear. */
  lemma StepKeeps(w: World, s: Step)
    requires Good(w)
    ensures Good(Do(w, s))
  {
    hide Good, Do;
    match s
    case Begin(runId, checkpointId, digest) => BeginKeeps(w, runId, checkpointId, digest);
    case LoadAndCheck(owner, runId, action, effect) => LoadKeeps(w, owner, runId, action, effect);
    case SwapIn(owner) => SwapKeeps(w, owner);
    case _ => OthersKeep(w, s);
  }

  /** So does every interleaving, from an empty database on. */
  lemma {:induction false} RunsAreLinear(steps: seq<Step>)
    ensures Good(Run(FRESH, steps))
  {
    if steps != [] {
      RunsAreLinear(steps[..|steps| - 1]);
      StepKeeps(Run(FRESH, steps[..|steps| - 1]), steps[|steps| - 1]);
    }
  }

  // --- What was confirmed ---

  predicate Confirms(a: Action, key: string) {
    (a.Advance? || a.Revise? || a.Complete?) && key in a.news
  }

  /** What the last call that won for a run and confirmed a key said of it. */
  function LastConfirmed(steps: seq<Step>, runId: string, key: string): Option<Value> {
    if steps == [] then None
    else
      var before, last := Run(FRESH, steps[..|steps| - 1]), steps[|steps| - 1];
      if last.SwapIn? && Wins(before, last.owner) && before.pending[last.owner].previous.runId == runId
         && Confirms(before.pending[last.owner].action, key) then
        Some(before.pending[last.owner].action.news[key])
      else LastConfirmed(steps[..|steps| - 1], runId, key)
  }

  /** In every interleaving, a run's confirmed values are those that were confirmed last, and there are no others. */
  lemma {:induction false} ConfirmedIsLast(steps: seq<Step>, runId: string, key: string)
    ensures var rows := Run(FRESH, steps).rows;
      && (runId !in rows ==> LastConfirmed(steps, runId, key) == None)
      && (runId in rows && key in rows[runId].checkpoint.confirmed ==>
            LastConfirmed(steps, runId, key) == Some(rows[runId].checkpoint.confirmed[key]))
      && (runId in rows && key !in rows[runId].checkpoint.confirmed ==> LastConfirmed(steps, runId, key) == None)
  {
    hide Do, Good, Wins;
    if steps != [] {
      var front, last := steps[..|steps| - 1], steps[|steps| - 1];
      ConfirmedIsLast(front, runId, key);
      RunsAreLinear(front);
      ConfirmedByStep(Run(FRESH, front), last, runId, key);
    }
  }

  function ValueAt(rows: Rows, runId: string, key: string): Option<Value> {
    if runId in rows && key in rows[runId].checkpoint.confirmed then Some(rows[runId].checkpoint.confirmed[key])
    else None
  }

  lemma ConfirmedByStep(w: World, s: Step, runId: string, key: string)
    requires Good(w)
    ensures runId !in Do(w, s).rows ==> runId !in w.rows
    ensures s.SwapIn? && Wins(w, s.owner) && w.pending[s.owner].previous.runId == runId ==> runId in w.rows
    ensures ValueAt(Do(w, s).rows, runId, key) ==
      if s.SwapIn? && Wins(w, s.owner) && w.pending[s.owner].previous.runId == runId
         && Confirms(w.pending[s.owner].action, key) then Some(w.pending[s.owner].action.news[key])
      else ValueAt(w.rows, runId, key)
  {
    hide Transition, Latest, AllLatest, DistinctIds, Follows, IdInUse;
    if s.SwapIn? && Wins(w, s.owner) {
      WonRows(w, s.owner);
      assert SawHistory(w.history, w.pending[s.owner]);
      TransitionIs(w.pending[s.owner].action, w.pending[s.owner].previous);
    }
  }

  // --- What a linear history says ---

  function Retries(h: seq<Checkpoint>, j: nat): nat
    requires j < |h|
  {
    if j == 0 then 0
    else Retries(h, j - 1) + if h[j - 1].status.Failed? && h[j].status.Running? then 1 else 0
  }

  /** Between any two checkpoints of one run: no stage is skipped or undone, nothing confirmed is dropped, and
      nothing ends twice. */
  lemma {:induction false} HistoryLaws(runId: string, h: seq<Checkpoint>, i: nat, j: nat)
    requires Linear(runId, h) && i <= j < |h|
    ensures h[j].runId == h[i].runId && h[j].checkpointId == h[i].checkpointId
    ensures h[j].repositoryDigest == h[i].repositoryDigest
    ensures Position(h[i].stage) <= Position(h[j].stage) <= Position(h[i].stage) + (j - i)
    ensures h[i].confirmed.Keys <= h[j].confirmed.Keys
    ensures Terminal(h[i].status) ==> i == j == |h| - 1
    ensures h[j].status.Completed? ==> h[j].stage.Verify?
    ensures h[j].attempt - h[i].attempt == Retries(h, j) - Retries(h, i)
    decreases j - i
  {
    hide Follows;
    if i < |h| - 1 { FollowsIs(h[i], h[i + 1]); }
    if i < j {
      HistoryLaws(runId, h, i, j - 1);
      FollowsIs(h[j - 1], h[j]);
    } else if j > 0 {
      FollowsIs(h[j - 1], h[j]);
    }
  }

  /** A run has been through every stage up to the one it is in. */
  lemma {:induction false} EveryStageWasVisited(runId: string, h: seq<Checkpoint>, j: nat, s: Stage) returns (k: nat)
    requires Linear(runId, h) && j < |h| && Position(s) <= Position(h[j].stage)
    ensures k <= j && h[k].stage == s
  {
    if h[j].stage == s { return j; }
    FollowsIs(h[j - 1], h[j]);
    k := EveryStageWasVisited(runId, h, j - 1, s);
  }

  ghost predicate Visited(h: seq<Checkpoint>, s: Stage) {
    exists k :: 0 <= k < |h| && h[k].stage == s
  }

  /** In every interleaving, a completed run has been through all nine stages, and is never written again. */
  lemma CompletedRunsAreWhole(steps: seq<Step>, runId: string, more: seq<Step>)
    requires runId in Run(FRESH, steps).rows && Run(FRESH, steps).rows[runId].checkpoint.status.Completed?
    ensures var w := Run(FRESH, steps);
      && w.rows[runId].checkpoint.stage.Verify? && w.rows[runId].checkpoint.revision >= 10
      && runId in w.history && forall s: Stage :: Visited(w.history[runId], s)
    ensures var w' := Run(Run(FRESH, steps), more);
      runId in w'.rows && w'.rows[runId].checkpoint == Run(FRESH, steps).rows[runId].checkpoint
  {
    hide Linear, Run, DistinctIds, AllSaw;
    var w := Run(FRESH, steps);
    RunsAreLinear(steps);
    assert Latest(runId, w.rows[runId].checkpoint, w.history[runId]);
    WholeHistory(runId, w.history[runId]);
    TerminalRowsStay(w, runId, more);
  }

  lemma WholeHistory(runId: string, h: seq<Checkpoint>)
    requires Linear(runId, h) && h[|h| - 1].status.Completed?
    ensures h[|h| - 1].stage.Verify? && h[|h| - 1].revision >= 10
    ensures forall s: Stage :: Visited(h, s)
  {
    HistoryLaws(runId, h, 0, |h| - 1);
    AllVisited(runId, h);
    CompletedIsLate(runId, h);
    LatestRevision(runId, h);
  }

  lemma AllVisited(runId: string, h: seq<Checkpoint>)
    requires Linear(runId, h) && h[|h| - 1].stage.Verify?
    ensures forall s: Stage :: Visited(h, s)
  {
    assert h != [];
    hide Linear, Follows;
    forall s: Stage ensures Visited(h, s) {
      VerifyIsLast(s);
      var k := EveryStageWasVisited(runId, h, |h| - 1, s);
    }
  }

  lemma VerifyIsLast(s: Stage)
    ensures Position(s) <= Position(Verify)
  {
  }

  // Eight advances, and then the completion.
  lemma CompletedIsLate(runId: string, h: seq<Checkpoint>)
    requires Linear(runId, h) && h[|h| - 1].status.Completed?
    ensures |h| >= 10
  {
    assert |h| >= 2 && Follows(h[|h| - 2], h[|h| - 1]);
    LastStepStays(h[|h| - 2], h[|h| - 1]);
    FollowsIs(h[|h| - 2], h[|h| - 1]);
    HistoryLaws(runId, h, 0, |h| - 2);
    assert h[0].stage.Inspect?;
    hide Follows, Linear;
  }

  lemma LastStepStays(c: Checkpoint, d: Checkpoint)
    requires Follows(c, d) && d.status.Completed?
    ensures c.stage == d.stage
  {
    FollowsIs(c, d);
  }

  // What one step can do to a row that is there.
  lemma RowAfterStep(w: World, s: Step, runId: string)
    requires Good(w) && runId in w.rows
    ensures runId in Do(w, s).rows
    ensures var c, d := w.rows[runId].checkpoint, Do(w, s).rows[runId].checkpoint;
      d == c || (Follows(c, d) && s.SwapIn? && Wins(w, s.owner))
  {
    hide Follows, AllLatest, DistinctIds, AllSaw, IdInUse;
    if s.SwapIn? && Wins(w, s.owner) { WonRows(w, s.owner); }
  }

  /** A cancelled or completed checkpoint is never replaced, whatever calls are still under way. */
  lemma {:induction false} TerminalRowsStay(w: World, runId: string, more: seq<Step>)
    requires Good(w) && runId in w.rows && Terminal(w.rows[runId].checkpoint.status)
    ensures Good(Run(w, more)) && runId in Run(w, more).rows
    ensures Run(w, more).rows[runId].checkpoint == w.rows[runId].checkpoint
  {
    hide Good, Follows, Do;
    if more != [] {
      var before, s := Run(w, more[..|more| - 1]), more[|more| - 1];
      TerminalRowsStay(w, runId, more[..|more| - 1]);
      StepKeeps(before, s);
      RowAfterStep(before, s, runId);
      if Follows(before.rows[runId].checkpoint, Do(before, s).rows[runId].checkpoint) {
        FollowsIs(before.rows[runId].checkpoint, Do(before, s).rows[runId].checkpoint);
      }
    }
  }

  /** A call that loses leaves the database exactly as it found it. */
  lemma LosersChangeNothing(w: World, owner: Owner)
    requires !Wins(w, owner)
    ensures Do(w, SwapIn(owner)).rows == w.rows && Do(w, SwapIn(owner)).history == w.history
  {
  }

  /** Of two calls that loaded the same checkpoint, at most one wins, whatever happens in between. */
  lemma OneWinnerPerCheckpoint(w: World, first: Owner, second: Owner, between: seq<Step>)
    requires Good(w) && first in w.pending && second in w.pending && first != second
    requires w.pending[first].previous == w.pending[second].previous
    requires Wins(w, first)
    requires var w' := Run(Do(w, SwapIn(first)), between);
      second in w'.pending && w'.pending[second] == w.pending[second]
    ensures !Wins(Run(Do(w, SwapIn(first)), between), second)
  {
    hide Good, Follows, Wins, Run, Do;
    var p := w.pending[first];
    var r, won := p.previous.runId, Do(w, SwapIn(first));
    WonRows(w, first);
    FollowsIs(p.previous, p.current);
    SwapKeeps(w, first);
    RevisionsGrow(won, r, between);
    WinsIff(Run(won, between), second);
  }

  lemma {:induction false} RevisionsGrow(w: World, runId: string, more: seq<Step>)
    requires Good(w) && runId in w.rows
    ensures Good(Run(w, more)) && runId in Run(w, more).rows
    ensures Run(w, more).rows[runId].checkpoint.revision >= w.rows[runId].checkpoint.revision
  {
    hide Good, Follows, Do;
    if more != [] {
      var before, s := Run(w, more[..|more| - 1]), more[|more| - 1];
      RevisionsGrow(w, runId, more[..|more| - 1]);
      StepKeeps(before, s);
      RowAfterStep(before, s, runId);
      if Follows(before.rows[runId].checkpoint, Do(before, s).rows[runId].checkpoint) {
        FollowsIs(before.rows[runId].checkpoint, Do(before, s).rows[runId].checkpoint);
      }
    }
  }

  /** But the loser's side effect may have run: here two owners both run theirs, and one checkpoint is written. */
  lemma LosersMayHaveActed(runId: string, id: string, digest: string, first: string, second: string)
    ensures var go := Action.Advance(Inventory, map[]);
      var w := Run(FRESH, [Begin(runId, id, digest), LoadAndCheck(1, runId, go, Some(first)),
                           LoadAndCheck(2, runId, go, Some(second)), SwapIn(1), SwapIn(2)]);
      && w.effects == [(1, first), (2, second)]
      && w.pending == map[] && runId in w.rows && w.rows[runId].checkpoint.revision == 2
  {
    hide Do;
    var go := Action.Advance(Inventory, map[]);
    var s0, s1, s2 :=
      Begin(runId, id, digest), LoadAndCheck(1, runId, go, Some(first)), LoadAndCheck(2, runId, go, Some(second));
    var c := Started(runId, id, digest);
    BothLoad(runId, id, digest, first, second);
    BothSwap(Do(Do(Do(FRESH, s0), s1), s2), c, c.(stage := Inventory, revision := 2), go, runId);
    RunOfFive(FRESH, s0, s1, s2, SwapIn(1), SwapIn(2));
  }

  lemma BothLoad(runId: string, id: string, digest: string, first: string, second: string)
    ensures var go, c := Action.Advance(Inventory, map[]), Started(runId, id, digest);
      var p := Pending(c, c.(stage := Inventory, revision := 2), go);
      Do(Do(Do(FRESH, Begin(runId, id, digest)), LoadAndCheck(1, runId, go, Some(first))),
        LoadAndCheck(2, runId, go, Some(second)))
      == World(map[runId := Row(c, NO_PROGRESS)], map[1 := p, 2 := p], [(1, first), (2, second)], map[runId := [c]])
  {
    var go, c := Action.Advance(Inventory, map[]), Started(runId, id, digest);
    assert c.confirmed + map[] == c.confirmed;
    var w1 := Do(FRESH, Begin(runId, id, digest));
    assert w1 == World(map[runId := Row(c, NO_PROGRESS)], map[], [], map[runId := [c]]);
    assert Prepared(w1.rows, runId, go) == Ok((c, c.(stage := Inventory, revision := 2)));
  }

  lemma BothSwap(w: World, c: Checkpoint, d: Checkpoint, go: Action, runId: string)
    requires w.rows == map[runId := Row(c, NO_PROGRESS)] && w.history == map[runId := [c]]
    requires w.pending == map[1 := Pending(c, d, go), 2 := Pending(c, d, go)]
    requires d.runId == runId && d.revision == c.revision + 1
    ensures var w' := Do(Do(w, SwapIn(1)), SwapIn(2));
      w'.effects == w.effects && w'.pending == map[] && w'.rows == map[runId := Row(d, NO_PROGRESS)]
  {
    var won := Do(w, SwapIn(1));
    assert won.rows == map[runId := Row(d, NO_PROGRESS)] && won.pending == map[2 := Pending(c, d, go)];
  }

  lemma RunOfFive(w: World, a: Step, b: Step, c: Step, d: Step, e: Step)
    ensures Run(w, [a, b, c, d, e]) == Do(Do(Do(Do(Do(w, a), b), c), d), e)
  {
    hide Do;
    assert [a, b, c, d, e][..4] == [a, b, c, d] && [a, b, c, d][..3] == [a, b, c];
    assert [a, b, c][..2] == [a, b] && [a, b][..1] == [a] && [a][..0] == [];
    assert Run(w, []) == w;
    assert Run(w, [a]) == Do(w, a);
    assert Run(w, [a, b]) == Do(Do(w, a), b);
    assert Run(w, [a, b, c]) == Do(Do(Do(w, a), b), c);
    assert Run(w, [a, b, c, d]) == Do(Do(Do(Do(w, a), b), c), d);
  }
}
