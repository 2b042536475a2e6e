/** Phase-by-phase execution with a durable checkpoint: every session resumes where the last one was recorded. */
module TaskRunner {
  import opened Wrappers
  import opened Scenarios

  datatype TaskPlan = TaskPlan(taskId: string, phases: seq<TaskPhase>)

  datatype RunStatus = Running | AwaitingApproval | Invalidated | Completed

  datatype PhaseResult = PhaseResult(phaseId: PhaseId, completed: bool, met: set<string>, facts: seq<string>)

  datatype Checkpoint = Checkpoint(
    taskId: string, status: RunStatus, threadId: string, head: string, blueprint: string,
    nextIndex: nat, nextId: Option<PhaseId>, completedIds: seq<PhaseId>, results: seq<PhaseResult>,
    facts: seq<string>, exposure: Option<string>, error: bool)

  datatype RunError =
    | NoCheckpoint
    | WrongTask
    | ThreadFailed
    | CapsuleFailed
    | ExposureFailed
    | PhaseFailed
    | NotVerified
    | Crashed
    | OutcomeLost

  /** What a session meets: the repository at each look, the approver, the model, and when the process dies. */
  datatype Session = Session(
    heads: nat -> string, blueprints: nat -> string, approves: nat -> bool, compiles: nat -> bool,
    exposes: nat -> Option<string>, threads: nat -> Option<string>, executes: nat -> Option<PhaseResult>,
    records: bool, crashes: nat -> bool)

  /** What happened, in order. Recorded(i) is the moment the checkpoint that includes phase i is on disk. */
  datatype Event = Fresh | Approved(index: nat) | Executed(index: nat) | Recorded(index: nat) | OutcomeRecorded

  predicate Verifies(phase: TaskPhase, r: PhaseResult) {
    r.phaseId == phase.id && r.completed && phase.conditions <= r.met
  }

  // tuple(dict.fromkeys(xs))
  function Dedup(xs: seq<string>): seq<string> {
    if xs == [] then []
    else
      var front, last := Dedup(xs[..|xs| - 1]), xs[|xs| - 1];
      if last in front then front else front + [last]
  }

  function AllFacts(results: seq<PhaseResult>): seq<string> {
    if results == [] then [] else AllFacts(results[..|results| - 1]) + results[|results| - 1].facts
  }

  function NextId(plan: TaskPlan, index: nat): Option<PhaseId> {
    if index < |plan.phases| then Some(plan.phases[index].id) else None
  }

  /** A checkpoint of this plan: its completed phases are the plan's first ones, each with a result that verifies it. */
  ghost predicate Fits(plan: TaskPlan, c: Checkpoint) {
    && c.taskId == plan.taskId && c.nextIndex <= |plan.phases| && c.nextId == NextId(plan, c.nextIndex)
    && |c.completedIds| == |c.results| == c.nextIndex
    && (forall i :: 0 <= i < c.nextIndex ==>
      c.completedIds[i] == plan.phases[i].id
      && Verifies(plan.phases[i], c.results[i]))
    && c.facts == Dedup(AllFacts(c.results))
    && (c.status.Completed? ==> c.nextIndex == |plan.phases|)
  }

  // --- The log ---

  /** How many phases were recorded since the last fresh start. */
  function Progress(log: seq<Event>): nat {
    if log == [] then 0
    else
      match log[|log| - 1]
      case Fresh => 0
      case Recorded(_) => Progress(log[..|log| - 1]) + 1
      case _ => Progress(log[..|log| - 1])
  }

  predicate EndsIn(log: seq<Event>, e: Event) {
    log != [] && log[|log| - 1] == e
  }

  /** A phase runs when all earlier ones are recorded, and right after its approval if it needs one. */
  predicate InPlace(plan: TaskPlan, before: seq<Event>, e: Event) {
    match e
    case Executed(j) =>
      j < |plan.phases| && j == Progress(before) && (plan.phases[j].requiresApproval ==> EndsIn(before, Approved(j)))
    case Recorded(j) => j == Progress(before) && EndsIn(before, Executed(j))
    case OutcomeRecorded => Progress(before) == |plan.phases|
    case _ => true
  }

  ghost predicate Ordered(plan: TaskPlan, log: seq<Event>) {
    forall i :: 0 <= i < |log| ==> InPlace(plan, log[..i], log[i])
  }

  /** The saved checkpoint, if it is this plan's, fits it and agrees with the log. */
  ghost predicate Consistent(plan: TaskPlan, saved: Option<Checkpoint>, log: seq<Event>) {
    && Ordered(plan, log)
    && (saved.Some? && saved.value.taskId == plan.taskId ==>
        Fits(plan, saved.value) && saved.value.nextIndex == Progress(log))
  }

  lemma OrderedAppends(plan: TaskPlan, log: seq<Event>, e: Event)
    requires Ordered(plan, log) && InPlace(plan, log, e)
    ensures Ordered(plan, log + [e])
    ensures Progress(log + [e]) == if e.Fresh? then 0 else if e.Recorded? then Progress(log) + 1 else Progress(log)
  {
    hide InPlace;
    var more := log + [e];
    assert more[..|log|] == log;
    forall i | 0 <= i < |log| ensures more[..i] == log[..i] && more[i] == log[i] {}
  }

  lemma {:induction false} DedupAgain(xs: seq<string>, ys: seq<string>)
    ensures Dedup(Dedup(xs) + ys) == Dedup(xs + ys)
  {
    if ys == [] {
      assert Dedup(xs) + ys == Dedup(xs) && xs + ys == xs;
      DedupTwice(xs);
    } else {
      var front := ys[..|ys| - 1];
      DedupAgain(xs, front);
      assert (Dedup(xs) + ys)[..|Dedup(xs) + ys| - 1] == Dedup(xs) + front;
      assert (xs + ys)[..|xs + ys| - 1] == xs + front;
    }
  }

  lemma {:induction false} DedupTwice(xs: seq<string>)
    ensures Dedup(Dedup(xs)) == Dedup(xs)
  {
    if xs != [] {
      DedupTwice(xs[..|xs| - 1]);
      var front, last := Dedup(xs[..|xs| - 1]), xs[|xs| - 1];
      if last !in front { assert (front + [last])[..|front|] == front; }
    }
  }

  lemma FitsNext(plan: TaskPlan, c: Checkpoint, r: PhaseResult)
    requires Fits(plan, c) && c.nextIndex < |plan.phases| && Verifies(plan.phases[c.nextIndex], r)
    requires !c.status.Completed?
    ensures Fits(plan, Advanced(plan, c, r))
  {
    var more := c.results + [r];
    assert more[..|more| - 1] == c.results;
    DedupAgain(AllFacts(c.results), r.facts);
  }

  /** The checkpoint once the next phase has returned r. */
  function Advanced(plan: TaskPlan, c: Checkpoint, r: PhaseResult): Checkpoint
    requires c.nextIndex < |plan.phases|
  {
    c.(completedIds := c.completedIds + [plan.phases[c.nextIndex].id], results := c.results + [r],
       facts := Dedup(c.facts + r.facts), nextIndex := c.nextIndex + 1, nextId := NextId(plan, c.nextIndex + 1))
  }

  /** What a session adds to the log: approvals the approver gave, and phases that ran on the repository it opened
      with. */
  ghost predicate Warranted(s: Session, was: seq<Event>, log: seq<Event>) {
    && was <= log
    && forall i :: |was| <= i < |log| ==>
         && (log[i].Approved? ==> s.approves(log[i].index))
         && (log[i].Executed? ==>
           s.heads(log[i].index + 1) == s.heads(0)
           && s.blueprints(log[i].index + 1) == s.blueprints(0))
  }

  lemma WarrantedChains(s: Session, a: seq<Event>, b: seq<Event>, c: seq<Event>)
    requires Warranted(s, a, b) && Warranted(s, b, c)
    ensures Warranted(s, a, c)
  {
  }

  // The repository is not what the checkpoint was compiled for.
  predicate Stale(s: Session, c: Checkpoint) {
    s.heads(c.nextIndex + 1) != c.head || s.blueprints(c.nextIndex + 1) != c.blueprint
  }

  predicate Refused(plan: TaskPlan, s: Session, c: Checkpoint)
    requires c.nextIndex < |plan.phases|
  {
    plan.phases[c.nextIndex].requiresApproval && !s.approves(c.nextIndex)
  }

  // There is a checkpoint, and it was saved for this plan's id.
  predicate CanResume(plan: TaskPlan, saved: Option<Checkpoint>) {
    saved.Some? && saved.value.taskId == plan.taskId
  }

  class TaskRunner {
    // Whether a hard routing gateway is configured.
    const hard: bool
    // The checkpoint file.
    var saved: Option<Checkpoint>
    var clock: nat
    ghost var log: seq<Event>

    constructor (hard: bool, saved: Option<Checkpoint>)
      ensures this.hard == hard && this.saved == saved && log == []
    {
      this.hard, this.saved, clock, log := hard, saved, 0, [];
    }

    ghost predicate Immortal(s: Session) {
      forall n :: !s.crashes(n)
    }

    // The process may die between any two steps.
    method Survive(s: Session) returns (alive: bool)
      modifies this`clock
      ensures Immortal(s) ==> alive
    {
      alive := !s.crashes(clock);
      clock := clock + 1;
    }

    // Write a temporary file and move it into place: all or nothing.
    method Save(s: Session, c: Checkpoint, ghost note: seq<Event>) returns (alive: bool)
      modifies this`saved, this`log, this`clock
      ensures (saved == Some(c) && log == old(log) + note) || (!alive && saved == old(saved) && log == old(log))
      ensures alive ==> saved == Some(c)
      ensures Immortal(s) ==> alive
    {
      alive := Survive(s);
      if !alive { return; }
      saved := Some(c);
      log := log + note;
      alive := Survive(s);
    }

    method Open(plan: TaskPlan, resume: bool, s: Session) returns (r: Result<Checkpoint, RunError>)
      requires plan.phases != [] && Consistent(plan, saved, log)
      modifies this
      ensures Consistent(plan, saved, log) && Warranted(s, old(log), log)
      ensures r.Ok? ==> saved == Some(r.value) && r.value.taskId == plan.taskId && r.value.status.Running?
      ensures r.Ok? ==> r.value.head == s.heads(0) && r.value.blueprint == s.blueprints(0)
      ensures r.Ok? ==>
        if resume then old(saved).Some? && r.value.nextIndex == old(saved).value.nextIndex && log == old(log)
        else r.value.nextIndex == 0 && log == old(log) + [Fresh]
      ensures resume && (old(saved).None? || old(saved).value.taskId != plan.taskId) ==>
        r == Err(if old(saved).None? then NoCheckpoint else WrongTask) && saved == old(saved) && log == old(log)
      ensures Immortal(s) && (hard || s.threads(0).Some?) && (resume ==> CanResume(plan, old(saved))) ==> r.Ok?
    {
      hide Ordered;
      var checkpoint;
      if resume {
        if saved.None? { return Err(NoCheckpoint); }
        checkpoint := saved.value;
        if checkpoint.taskId != plan.taskId { return Err(WrongTask); }
        if !hard && s.threads(0).None? { return Err(ThreadFailed); }
        checkpoint :=
          checkpoint.(status := Running, threadId := if hard then checkpoint.threadId else s.threads(0).value,
                                  head := s.heads(0), blueprint := s.blueprints(0), error := false);
      } else {
        if !hard && s.threads(0).None? { return Err(ThreadFailed); }
        checkpoint :=
          Checkpoint(plan.taskId, Running, if hard then "" else s.threads(0).value, s.heads(0), s.blueprints(0),
                                 0, Some(plan.phases[0].id), [], [], [], None, false);
        assert Fits(plan, checkpoint);
      }
      ghost var note := if resume then [] else [Fresh];
      OrderedAppends(plan, log, Fresh);
      assert log + [] == log;
      var alive := Save(s, checkpoint, note);
      r := if alive then Ok(checkpoint) else Err(Crashed);
    }

    method Pause(s: Session, c: Checkpoint, status: RunStatus, index: nat, id: PhaseId, error: bool)
      returns (r: Result<Checkpoint, RunError>)
      modifies this`saved, this`log, this`clock
      ensures var paused := c.(status := status, nextIndex := index, nextId := Some(id), error := error);
        && log == old(log) && (saved == Some(paused) || (r.Err? && saved == old(saved)))
        && (r.Ok? ==> r.value == paused && saved == Some(r.value)) && (Immortal(s) ==> r.Ok?)
    {
      var paused := c.(status := status, nextIndex := index, nextId := Some(id), error := error);
      assert log + [] == log;
      var alive := Save(s, paused, []);
      r := if alive then Ok(paused) else Err(Crashed);
    }

    // With a hard gateway, each phase gets a thread of its own, saved before it is used.
    method Expose(plan: TaskPlan, s: Session, c: Checkpoint) returns (r: Result<Checkpoint, RunError>)
      requires c.nextIndex < |plan.phases| && Consistent(plan, saved, log) && saved == Some(c) && Fits(plan, c)
      modifies this`saved, this`log, this`clock
      ensures Consistent(plan, saved, log) && log == old(log)
      ensures r.Ok? ==> saved == Some(r.value) && Fits(plan, r.value) && r.value.nextIndex == c.nextIndex
      ensures r.Ok? ==>
        r.value.status == c.status && r.value.head == c.head && r.value.blueprint == c.blueprint
        && r.value.results == c.results
      ensures Immortal(s) && s.exposes(c.nextIndex).Some? && s.threads(c.nextIndex + 1).Some? ==> r.Ok?
      ensures Immortal(s) && hard && s.exposes(c.nextIndex).None? ==> r == Err(ExposureFailed)
      ensures Immortal(s) && hard && s.exposes(c.nextIndex).Some? && s.threads(c.nextIndex + 1).None? ==>
        r == Err(ThreadFailed)
      ensures Immortal(s) && !hard ==> r == Ok(c)
    {
      hide Ordered;
      if !hard { return Ok(c); }
      var exposure, thread := s.exposes(c.nextIndex), s.threads(c.nextIndex + 1);
      if exposure.None? { return Err(ExposureFailed); }
      if thread.None? { return Err(ThreadFailed); }
      var exposed := c.(threadId := thread.value, exposure := Some(exposure.value));
      assert log + [] == log;
      var alive := Save(s, exposed, []);
      r := if alive then Ok(exposed) else Err(Crashed);
    }

    // One turn of the phase loop: a pause, a recorded phase, or an error.
    method Advance(plan: TaskPlan, s: Session, c: Checkpoint) returns (r: Result<Checkpoint, RunError>)
      requires c.nextIndex < |plan.phases| && Consistent(plan, saved, log) && saved == Some(c) && Fits(plan, c)
      requires c.status.Running?
      requires c.head == s.heads(0) && c.blueprint == s.blueprints(0)
      modifies this`saved, this`log, this`clock
      ensures Consistent(plan, saved, log) && Warranted(s, old(log), log)
      ensures r.Ok? ==> saved == Some(r.value) && Fits(plan, r.value)
      ensures Stale(s, c) || Refused(plan, s, c) ==> log == old(log)
      ensures r.Ok? && Stale(s, c) ==> r.value.status.Invalidated? && r.value.nextIndex == c.nextIndex
      ensures r.Ok? && !Stale(s, c) && Refused(plan, s, c) ==>
        r.value.status.AwaitingApproval?
        && r.value.nextIndex == c.nextIndex
      ensures r.Ok? && !Stale(s, c) && !Refused(plan, s, c) ==>
        && r.value.status.Running? && r.value.nextIndex == c.nextIndex + 1 && r.value.head == c.head
          && r.value.blueprint == c.blueprint
        && s.executes(c.nextIndex).Some? && r.value.results == c.results + [s.executes(c.nextIndex).value]
      // That is: paused if the repository has changed, or else if an approval is asked for and not given; and a phase
      // is recorded only with a result of its own that is complete and meets all its conditions.
      ensures r.Ok? ==>
        (r.value.status == Invalidated <==>
          s.heads(c.nextIndex + 1) != s.heads(0) || s.blueprints(c.nextIndex + 1) != s.blueprints(0))
      ensures r.Ok? && r.value.status != Invalidated ==>
        (r.value.status == AwaitingApproval <==>
          plan.phases[c.nextIndex].requiresApproval && !s.approves(c.nextIndex))
      ensures r.Ok? && r.value.status != Invalidated && r.value.status != AwaitingApproval ==>
        && r.value.status == Running && r.value.nextIndex == c.nextIndex + 1 && s.executes(c.nextIndex).Some?
        && var result := s.executes(c.nextIndex).value;
           && r.value.results == c.results + [result]
           && result.phaseId == plan.phases[c.nextIndex].id && result.completed
           && forall condition <- plan.phases[c.nextIndex].conditions :: condition in result.met
      // When the process lives, a pause is recorded, and what fails is told apart.
      ensures Immortal(s) && (Stale(s, c) || Refused(plan, s, c)) ==> r.Ok?
      ensures !Stale(s, c) && !Refused(plan, s, c) && !s.compiles(c.nextIndex) ==>
        r == Err(CapsuleFailed) && log == old(log) && saved == old(saved)
      ensures Immortal(s) && !Stale(s, c) && !Refused(plan, s, c) && s.compiles(c.nextIndex) ==>
        Ends(s, plan.phases[c.nextIndex], c.nextIndex, r)
      ensures Immortal(s) && Serves(s, plan, c.nextIndex) ==> r.Ok?
    {
      hide Ordered;
      var index := c.nextIndex;
      var phase := plan.phases[index];
      if s.heads(index + 1) != c.head || s.blueprints(index + 1) != c.blueprint {
        r := Pause(s, c, Invalidated, index, phase.id, true);
        return;
      }
      if phase.requiresApproval && !s.approves(index) {
        r := Pause(s, c, AwaitingApproval, index, phase.id, false);
        return;
      }
      if !s.compiles(index) { return Err(CapsuleFailed); }
      r := Execute(plan, s, c);
    }

    // The phase itself: a thread for it, its turn, the check of its result, and the record.
    method Execute(plan: TaskPlan, s: Session, c: Checkpoint) returns (r: Result<Checkpoint, RunError>)
      requires c.nextIndex < |plan.phases| && Consistent(plan, saved, log) && saved == Some(c) && Fits(plan, c)
      requires c.status.Running?
      requires c.head == s.heads(0) && c.blueprint == s.blueprints(0) && !Stale(s, c) && !Refused(plan, s, c)
      modifies this`saved, this`log, this`clock
      ensures Consistent(plan, saved, log) && Warranted(s, old(log), log)
      ensures r.Ok? ==> saved == Some(r.value) && Fits(plan, r.value)
      ensures r.Ok? ==>
        r.value.status.Running? && r.value.nextIndex == c.nextIndex + 1 && r.value.head == c.head
        && r.value.blueprint == c.blueprint
      ensures r.Ok? ==>
        s.executes(c.nextIndex).Some? && r.value.results == c.results + [s.executes(c.nextIndex).value]
        && Verifies(plan.phases[c.nextIndex], s.executes(c.nextIndex).value)
      ensures Immortal(s) ==> Ends(s, plan.phases[c.nextIndex], c.nextIndex, r)
      ensures Immortal(s) && Serves(s, plan, c.nextIndex) ==> r.Ok?
    {
      hide Ordered, Progress;
      var index := c.nextIndex;
      var phase := plan.phases[index];
      var exposed := Expose(plan, s, c);
      if exposed.Err? { return exposed; }
      var alive := Survive(s);
      if !alive { return Err(Crashed); }
      NoteExecution(plan, s, index);
      if s.executes(index).None? { return Err(PhaseFailed); }
      var result := s.executes(index).value;
      if !(result.phaseId == phase.id && result.completed && phase.conditions <= result.met) {
        return Err(NotVerified);
      }
      hide Warranted;
      ghost var before := log;
      r := Record(plan, s, exposed.value, result);
      WarrantedChains(s, old(log), before, log);
    }

    method Record(plan: TaskPlan, s: Session, c: Checkpoint, result: PhaseResult)
      returns (r: Result<Checkpoint, RunError>)
      requires c.nextIndex < |plan.phases| && Consistent(plan, saved, log) && saved == Some(c) && Fits(plan, c)
      requires c.status.Running?
      requires Verifies(plan.phases[c.nextIndex], result) && EndsIn(log, Executed(c.nextIndex))
      modifies this`saved, this`log, this`clock
      ensures Consistent(plan, saved, log) && Warranted(s, old(log), log)
      ensures r.Ok? ==> saved == Some(r.value) && Fits(plan, r.value) && r == Ok(Advanced(plan, c, result))
      ensures Immortal(s) ==> r.Ok?
    {
      hide Ordered, Progress;
      FitsNext(plan, c, result);
      OrderedAppends(plan, log, Recorded(c.nextIndex));
      var next := Advanced(plan, c, result);
      var alive := Save(s, next, [Recorded(c.nextIndex)]);
      r := if alive then Ok(next) else Err(Crashed);
    }

    ghost method NoteExecution(plan: TaskPlan, s: Session, index: nat)
      requires Ordered(plan, log) && index < |plan.phases| && index == Progress(log)
      requires s.heads(index + 1) == s.heads(0) && s.blueprints(index + 1) == s.blueprints(0)
      requires plan.phases[index].requiresApproval ==> s.approves(index)
      modifies this`log
      ensures Ordered(plan, log) && Progress(log) == Progress(old(log)) && EndsIn(log, Executed(index))
      ensures Warranted(s, old(log), log)
    {
      hide Ordered;
      if plan.phases[index].requiresApproval {
        OrderedAppends(plan, log, Approved(index));
        log := log + [Approved(index)];
      }
      OrderedAppends(plan, log, Executed(index));
      log := log + [Executed(index)];
    }

    // How a phase ends in a process that lives: no exposure or thread, no result, one that does not verify, or done.
    ghost predicate Ends(s: Session, phase: TaskPhase, k: nat, r: Result<Checkpoint, RunError>) {
      if hard && s.exposes(k).None? then r == Err(ExposureFailed)
      else if hard && s.threads(k + 1).None? then r == Err(ThreadFailed)
      else if s.executes(k).None? then r == Err(PhaseFailed)
      else
        var result := s.executes(k).value;
        if result.phaseId == phase.id && result.completed
          && forall condition <- phase.conditions :: condition in result.met
          then r.Ok?
        else r == Err(NotVerified)
    }

    // Everything a phase needs from the session.
    ghost predicate Serves(s: Session, plan: TaskPlan, k: nat)
      requires k < |plan.phases|
    {
      && s.heads(k + 1) == s.heads(0) && s.blueprints(k + 1) == s.blueprints(0) && s.approves(k) && s.compiles(k)
      && s.exposes(k).Some? && s.threads(k + 1).Some? && s.executes(k).Some?
        && Verifies(plan.phases[k], s.executes(k).value)
    }

    /** One session, fresh or resumed: whatever happens in it, the checkpoint still fits the plan and the log stays
        in order. */
    method Run(plan: TaskPlan, resume: bool, s: Session) returns (r: Result<Checkpoint, RunError>)
      requires plan.phases != [] && Consistent(plan, saved, log)
      modifies this
      ensures Consistent(plan, saved, log) && Warranted(s, old(log), log)
      ensures r.Ok? ==> saved == Some(r.value) && Fits(plan, r.value) && !r.value.status.Running?
      ensures r.Ok? && r.value.status.AwaitingApproval? ==>
        r.value.nextIndex < |plan.phases| && plan.phases[r.value.nextIndex].requiresApproval
          && !s.approves(r.value.nextIndex)
      ensures r.Ok? && r.value.status.Invalidated? ==>
        s.heads(r.value.nextIndex + 1) != s.heads(0) || s.blueprints(r.value.nextIndex + 1) != s.blueprints(0)
      // A session in which everything goes well completes the plan.
      ensures
        (&& Immortal(s) && s.threads(0).Some? && s.records
         && (forall k :: 0 <= k < |plan.phases| ==> Serves(s, plan, k))
         && (resume ==> CanResume(plan, old(saved)))) ==>
          r.Ok? && r.value.status.Completed?
    {
      hide Ordered, Fits, Warranted;
      var start := Open(plan, resume, s);
      if start.Err? { return start; }
      var checkpoint := start.value;
      FitsBounds(plan, checkpoint);
      while checkpoint.nextIndex < |plan.phases|
        invariant Consistent(plan, saved, log) && saved == Some(checkpoint) && Fits(plan, checkpoint)
        invariant checkpoint.status.Running?
        invariant Warranted(s, old(log), log)
        invariant checkpoint.nextIndex <= |plan.phases|
        invariant checkpoint.head == s.heads(0) && checkpoint.blueprint == s.blueprints(0)
        decreases |plan.phases| - checkpoint.nextIndex
      {
        assert Serves(s, plan, checkpoint.nextIndex) ==> !Stale(s, checkpoint) && !Refused(plan, s, checkpoint);
        ghost var before := log;
        var advanced := Advance(plan, s, checkpoint);
        WarrantedChains(s, old(log), before, log);
        if advanced.Err? { return advanced; }
        checkpoint := advanced.value;
        FitsBounds(plan, checkpoint);
        if !checkpoint.status.Running? { return Ok(checkpoint); }
      }
      ghost var before := log;
      r := Finish(plan, s, checkpoint);
      WarrantedChains(s, old(log), before, log);
    }

    method Finish(plan: TaskPlan, s: Session, c: Checkpoint) returns (r: Result<Checkpoint, RunError>)
      requires Consistent(plan, saved, log) && saved == Some(c) && Fits(plan, c) && c.nextIndex == |plan.phases|
      modifies this`saved, this`log, this`clock
      ensures Consistent(plan, saved, log) && Warranted(s, old(log), log)
      ensures r.Ok? ==>
        saved == Some(r.value) && Fits(plan, r.value) && r.value.status.Completed?
        && log == old(log) + [OutcomeRecorded]
      ensures Immortal(s) && s.records ==> r.Ok?
    {
      hide Ordered;
      var completed := c.(status := Completed);
      assert log + [] == log;
      var alive := Save(s, completed, []);
      if !alive { return Err(Crashed); }
      if !s.records { return Err(OutcomeLost); }
      OrderedAppends(plan, log, OutcomeRecorded);
      log := log + [OutcomeRecorded];
      r := Ok(completed);
    }
  }

  lemma FitsBounds(plan: TaskPlan, c: Checkpoint)
    requires Fits(plan, c)
    ensures c.nextIndex <= |plan.phases|
  {
  }

  /** Any sequence of sessions of one plan, however each of them ends. */
  method RunSessions(runner: TaskRunner, plan: TaskPlan, script: seq<(bool, Session)>)
    requires plan.phases != [] && runner.saved.None? && runner.log == []
    modifies runner
    ensures Consistent(plan, runner.saved, runner.log)
  {
    for n := 0 to |script|
      invariant Consistent(plan, runner.saved, runner.log)
    {
      var _ := runner.Run(plan, script[n].0, script[n].1);
    }
  }

  // --- What the log says ---

  ghost predicate NoFreshBetween(log: seq<Event>, from: nat, to: nat)
    requires to <= |log|
  {
    forall i :: from < i < to ==> !log[i].Fresh?
  }

  /** Whatever runs, every earlier phase was recorded before, since the last fresh start. */
  lemma {:induction false} EarlierWereRecorded(plan: TaskPlan, log: seq<Event>, n: nat, k: nat) returns (at: nat)
    requires Ordered(plan, log) && n <= |log| && k < Progress(log[..n])
    ensures at < n && log[at] == Recorded(k) && NoFreshBetween(log, at, n)
  {
    var e := log[n - 1];
    assert log[..n][..n - 1] == log[..n - 1];
    assert InPlace(plan, log[..n - 1], e);
    if e == Recorded(k) {
      at := n - 1;
    } else {
      at := EarlierWereRecorded(plan, log, n - 1, k);
    }
  }

  /** And it was recorded right after it ran, which was right after its approval, if it needed one. */
  lemma RecordedAfterRun(plan: TaskPlan, log: seq<Event>, at: nat, k: nat)
    requires Ordered(plan, log) && at < |log| && log[at] == Recorded(k)
    ensures at >= 1 && log[at - 1] == Executed(k) && k < |plan.phases|
    ensures plan.phases[k].requiresApproval ==> at >= 2 && log[at - 2] == Approved(k)
  {
    assert InPlace(plan, log[..at], log[at]);
    assert InPlace(plan, log[..at - 1], log[at - 1]);
  }

  lemma {:induction false} ProgressGrows(log: seq<Event>, a: nat, b: nat)
    requires a <= b <= |log| && forall i :: a <= i < b ==> !log[i].Fresh?
    ensures Progress(log[..a]) <= Progress(log[..b])
  {
    if a < b {
      ProgressGrows(log, a, b - 1);
      assert log[..b][..b - 1] == log[..b - 1];
    }
  }

  /** A phase may run more than once, but between two fresh starts it is recorded only once. */
  lemma RecordedOnce(plan: TaskPlan, log: seq<Event>, a: nat, b: nat, k: nat)
    requires Ordered(plan, log) && a < b < |log| && log[a] == Recorded(k) && log[b] == Recorded(k)
    ensures !NoFreshBetween(log, a, b)
  {
    assert InPlace(plan, log[..a], log[a]) && InPlace(plan, log[..b], log[b]);
    assert log[..a + 1][..a] == log[..a];
    if NoFreshBetween(log, a, b) { ProgressGrows(log, a + 1, b); }
  }

  /** In any run of a plan compiled from any request, whatever the model says of it: when implement runs, a required
      approval was given and carried out, and a required rollback was prepared, since the last fresh start. */
  lemma ImplementIsAuthorised(r: ScenarioRequest, model: Option<RiskLevel>, conditions: PhaseId -> set<string>,
                              taskId: string,
                              saved: Option<Checkpoint>, log: seq<Event>, n: nat, j: nat)
    requires Consistent(TaskPlan(taskId, PlanOf(r, model, conditions)), saved, log)
    requires n < |log| && log[n] == Executed(j)
    requires j < |PlanOf(r, model, conditions)| && PlanOf(r, model, conditions)[j].id == Implement
    ensures var phases, risk := PlanOf(r, model, conditions), Validated(Classify(r), model).risk;
      && (risk.requiresApproval ==> exists at: nat, k: nat ::
            2 <= at < n && log[at] == Recorded(k) && log[at - 1] == Executed(k) && log[at - 2] == Approved(k)
              && NoFreshBetween(log, at, n)
            && k < |phases| && phases[k].id == Approval)
      && (risk.rollbackRequired ==> exists at: nat, k: nat ::
            1 <= at < n && log[at] == Recorded(k) && log[at - 1] == Executed(k) && NoFreshBetween(log, at, n)
            && k < |phases| && phases[k].id == Rollback)
  {
    hide Classify, Validated, PhaseIds, Fits, NoFreshBetween, Progress, Ordered;
    var c := Validated(Classify(r), model);
    var plan := TaskPlan(taskId, PlanOf(r, model, conditions));
    var ids := PhaseIds(c);
    assert plan.phases == PhasesOf(ids, conditions);
    ImplementIsGuarded(r, model);
    ExecutedIsNext(plan, log, n, j);
    if c.risk.requiresApproval {
      var k := EarlierPhase(plan, log, n, j, ids, Approval);
      var at := EarlierWereRecorded(plan, log, n, k);
      RecordedAfterRun(plan, log, at, k);
    }
    if c.risk.rollbackRequired {
      var k := EarlierPhase(plan, log, n, j, ids, Rollback);
      var at := EarlierWereRecorded(plan, log, n, k);
      RecordedAfterRun(plan, log, at, k);
    }
  }

  lemma ExecutedIsNext(plan: TaskPlan, log: seq<Event>, n: nat, j: nat)
    requires Ordered(plan, log) && n < |log| && log[n] == Executed(j)
    ensures j == Progress(log[..n])
  {
    assert InPlace(plan, log[..n], log[n]);
  }

  lemma EarlierPhase(plan: TaskPlan, log: seq<Event>, n: nat, j: nat, ids: seq<PhaseId>, id: PhaseId) returns (k: nat)
    requires |ids| == |plan.phases| && j < |ids| && n <= |log| && j == Progress(log[..n]) && id in ids[..j]
    ensures k < j && ids[k] == id
  {
    k :| 0 <= k < j && ids[..j][k] == id;
  }

  /** A completed checkpoint has every phase, in order, each with a result that verifies it. */
  lemma CompletedIsWhole(plan: TaskPlan, saved: Option<Checkpoint>, log: seq<Event>)
    requires Consistent(plan, saved, log) && saved.Some? && saved.value.taskId == plan.taskId
    requires saved.value.status.Completed?
    ensures var c := saved.value;
      && |c.completedIds| == |c.results| == |plan.phases| && c.nextId.None?
      && forall i :: 0 <= i < |plan.phases| ==>
        && c.completedIds[i] == c.results[i].phaseId == plan.phases[i].id && c.results[i].completed
        && forall condition <- plan.phases[i].conditions :: condition in c.results[i].met
    ensures forall k :: 0 <= k < |plan.phases| ==> Recorded(k) in log
  {
    assert log[..|log|] == log;
    forall k | 0 <= k < |plan.phases| ensures Recorded(k) in log {
      var at := EarlierWereRecorded(plan, log, |log|, k);
    }
  }

  lemma {:induction false} DedupIs(xs: seq<string>)
    ensures forall x :: x in Dedup(xs) <==> x in xs
    ensures forall i, j :: 0 <= i < j < |Dedup(xs)| ==> Dedup(xs)[i] != Dedup(xs)[j]
  {
    if xs != [] {
      DedupIs(xs[..|xs| - 1]);
      assert xs == xs[..|xs| - 1] + [xs[|xs| - 1]];
    }
  }

  /** They are in the order in which they first came: what is confirmed later only goes behind. */
  lemma {:induction false} FactsOnlyGrow(results: seq<PhaseResult>, n: nat)
    requires n <= |results|
    ensures Dedup(AllFacts(results[..n])) <= Dedup(AllFacts(results))
    decreases |results| - n
  {
    if n == |results| {
      assert results[..n] == results;
    } else {
      FactsOnlyGrow(results, n + 1);
      assert results[..n + 1][..n] == results[..n];
      DedupGrows(AllFacts(results[..n]), results[n].facts);
    }
  }

  lemma {:induction false} DedupGrows(xs: seq<string>, ys: seq<string>)
    ensures Dedup(xs) <= Dedup(xs + ys)
  {
    if ys == [] {
      assert xs + ys == xs;
    } else {
      DedupGrows(xs, ys[..|ys| - 1]);
      assert (xs + ys)[..|xs + ys| - 1] == xs + ys[..|ys| - 1];
    }
  }

  /** The confirmed facts are those of all results, each once. */
  lemma FactsAreTheirs(plan: TaskPlan, c: Checkpoint, fact: string)
    requires Fits(plan, c)
    ensures fact in c.facts <==> exists i :: 0 <= i < |c.results| && fact in c.results[i].facts
    ensures forall i, j :: 0 <= i < j < |c.facts| ==> c.facts[i] != c.facts[j]
  {
    DedupIs(AllFacts(c.results));
    AllFactsAre(c.results, fact);
  }

  lemma {:induction false} AllFactsAre(results: seq<PhaseResult>, fact: string)
    ensures fact in AllFacts(results) <==> exists i :: 0 <= i < |results| && fact in results[i].facts
  {
    if results != [] {
      var front := results[..|results| - 1];
      AllFactsAre(front, fact);
      if fact in AllFacts(front) {
        var i :| 0 <= i < |front| && fact in front[i].facts;
        assert fact in results[i].facts;
      }
      if i :| 0 <= i < |results| && fact in results[i].facts { if i < |front| { assert fact in front[i].facts; } }
    }
  }
}
