/** Every reachable state of the client: whose response completes which request, and what the first error does. */
module JsonRpcTheorems {
  import opened Wrappers
  import opened AgentsMd
  import opened JsonLines
  import opened JsonRpc

  /** One step of any task that shares the client; between two steps any other task may run. */
  datatype Step =
    | Start
    | Request
    | Wake(id: Id)
    | GiveUp(id: Id)
    | Route(message: Json)
    | Fail(error: RpcError)
    | Close

  function Do(s: State, step: Step): State {
    match step
    case Start => s.(started := true)
    case Request => if s.started && Usable(s).None? then Registered(s) else s
    case Wake(id) => if id in s.pending && s.pending[id].woken then Dropped(s, id) else s
    case GiveUp(id) => Dropped(s, id)
    case Route(message) => if Routed(s, message).Some? then Routed(s, message).value else s
    case Fail(e) => Failed(s, e)
    case Close => s.(closing := true)
  }

  function Run(s: State, steps: seq<Step>): State {
    if steps == [] then s else Do(Run(s, steps[..|steps| - 1]), steps[|steps| - 1])
  }

  // --- What every step keeps ---

  ghost predicate SlotIsSound(slot: Slot) {
    (!slot.woken ==> slot == WAITING) && (slot.woken ==> slot.result.Some? || slot.error.Some?)
  }

  ghost predicate Good(s: State) {
    && s.nextId >= 1
    && (forall id <- s.pending.Keys :: id.IntId? && 1 <= id.n < s.nextId && SlotIsSound(s.pending[id]))
    && (s.terminal.Some? ==> forall id <- s.pending.Keys :: s.pending[id].woken && s.pending[id].error.Some?)
  }

  lemma StepKeeps(s: State, step: Step)
    requires Good(s)
    ensures Good(Do(s, step))
  {
    match step
    case Route(message) => if Routed(s, message).Some? { RoutedIs(s, message); }
    case _ =>
  }

  // The id a message answers, if it is a response to a request that is waiting.
  function Answers(s: State, message: Json): Option<Id> {
    if message.Obj? && "method" !in message.members && "id" in message.members && AsId(message.members["id"]).Some?
       && AsId(message.members["id"]).value in s.pending
    then AsId(message.members["id"])
    else None
  }

  /** A message changes at most the one slot it answers; a response nobody waits for changes nothing. */
  lemma RoutedIs(s: State, message: Json)
    requires Routed(s, message).Some?
    ensures var s' := Routed(s, message).value;
      && s'.pending.Keys == s.pending.Keys && s'.nextId == s.nextId && s'.terminal == s.terminal
        && s'.closing == s.closing
      && (forall id <- s.pending.Keys :: Answers(s, message) != Some(id) ==> s'.pending[id] == s.pending[id])
      && (Answers(s, message).Some? ==>
            Answered(s.pending[Answers(s, message).value], message.members) ==
              Some(s'.pending[Answers(s, message).value]))
      && (Answers(s, message).None? && message.Obj? && "method" !in message.members ==> s' == s)
  {
  }

  lemma {:induction false} RunsAreGood(steps: seq<Step>)
    ensures Good(Run(INITIAL, steps))
  {
    hide Good, Do;
    if steps == [] {
      InitialIsGood();
    } else {
      RunsAreGood(steps[..|steps| - 1]);
      StepKeeps(Run(INITIAL, steps[..|steps| - 1]), steps[|steps| - 1]);
    }
  }

  lemma InitialIsGood()
    ensures Good(INITIAL)
  {
  }

  // --- Ids ---

  /** The ids handed out, in order. */
  function Issued(steps: seq<Step>): seq<Id> {
    if steps == [] then []
    else
      var before := Run(INITIAL, steps[..|steps| - 1]);
      if steps[|steps| - 1].Request? && before.started && Usable(before).None?
      then Issued(steps[..|steps| - 1]) + [IntId(before.nextId)]
      else Issued(steps[..|steps| - 1])
  }

  /** No id is handed out twice: they are 1, 2, 3 and so on. */
  lemma {:induction false} IdsAreNeverReused(steps: seq<Step>)
    ensures |Issued(steps)| == Run(INITIAL, steps).nextId - 1
    ensures forall i :: 0 <= i < |Issued(steps)| ==> Issued(steps)[i] == IntId(i + 1)
  {
    if steps != [] {
      var front, last := steps[..|steps| - 1], steps[|steps| - 1];
      IdsAreNeverReused(front);
      var before := Run(INITIAL, front);
      if last.Route? && Routed(before, last.message).Some? { RoutedIs(before, last.message); }
    }
  }

  // --- Whose response ---

  /** Step i brought the result v for the waiting request id. */
  predicate BringsResult(steps: seq<Step>, i: nat, id: Id, v: Json)
    requires i < |steps|
  {
    && steps[i].Route? && Answers(Run(INITIAL, steps[..i]), steps[i].message) == Some(id)
    && "error" !in steps[i].message.members && "result" in steps[i].message.members
      && steps[i].message.members["result"] == v
  }

  predicate BringsError(steps: seq<Step>, i: nat, id: Id, e: RpcError)
    requires i < |steps|
  {
    && steps[i].Route? && Answers(Run(INITIAL, steps[..i]), steps[i].message) == Some(id)
    && var m := steps[i].message.members;
       if "error" in m then AsRemoteError(m["error"]) == Some(e) else "result" !in m && e == Malformed
  }

  predicate Ends(steps: seq<Step>, i: nat, e: RpcError)
    requires i < |steps|
  {
    steps[i] == Fail(e) && Run(INITIAL, steps[..i]).terminal.None?
  }

  ghost predicate Explained(steps: seq<Step>, id: Id, slot: Slot) {
    && (slot.result.Some? ==> exists i :: 0 <= i < |steps| && BringsResult(steps, i, id, slot.result.value))
    && (slot.error.Some? ==>
          exists i :: 0 <= i < |steps|
            && (BringsError(steps, i, id, slot.error.value) || Ends(steps, i, slot.error.value)))
  }

  lemma StillExplained(steps: seq<Step>, step: Step, id: Id, slot: Slot)
    requires Explained(steps, id, slot)
    ensures Explained(steps + [step], id, slot)
  {
    hide Answers, Run, AsRemoteError;
    var more := steps + [step];
    if slot.result.Some? {
      var i :| 0 <= i < |steps| && BringsResult(steps, i, id, slot.result.value);
      assert more[..i] == steps[..i] && BringsResult(more, i, id, slot.result.value);
    }
    if slot.error.Some? {
      var i :| 0 <= i < |steps| && (BringsError(steps, i, id, slot.error.value) || Ends(steps, i, slot.error.value));
      assert more[..i] == steps[..i];
      assert BringsError(more, i, id, slot.error.value) || Ends(more, i, slot.error.value);
    }
  }

  /** What a waiter finds in its slot was brought by a response with its own id, or by the error that ended the
      transport. */
  lemma {:induction false} SlotsAreExplained(steps: seq<Step>, id: Id)
    requires id in Run(INITIAL, steps).pending
    ensures Explained(steps, id, Run(INITIAL, steps).pending[id])
  {
    hide Explained, Do;
    if steps != [] {
      var front, last := steps[..|steps| - 1], steps[|steps| - 1];
      assert steps == front + [last];
      var before, after := Run(INITIAL, front), Run(INITIAL, steps);
      assert after == Do(before, last);
      if id !in before.pending {
        NewSlotsWait(before, last, id);
        NothingToExplain(steps, id);
      } else {
        SlotsAreExplained(front, id);
        StillExplained(front, last, id, before.pending[id]);
        if after.pending[id] != before.pending[id] { ChangeIsExplained(front, last, id); }
      }
    }
  }

  lemma NewSlotsWait(s: State, step: Step, id: Id)
    requires id !in s.pending && id in Do(s, step).pending
    ensures Do(s, step).pending[id] == WAITING
  {
    if step.Route? && Routed(s, step.message).Some? { RoutedIs(s, step.message); }
  }

  lemma NothingToExplain(steps: seq<Step>, id: Id)
    ensures Explained(steps, id, WAITING)
  {
  }

  lemma ChangeIsExplained(front: seq<Step>, last: Step, id: Id)
    requires var before, after := Run(INITIAL, front), Do(Run(INITIAL, front), last);
      id in before.pending && id in after.pending && after.pending[id] != before.pending[id]
    requires Explained(front + [last], id, Run(INITIAL, front).pending[id])
    ensures Explained(front + [last], id, Do(Run(INITIAL, front), last).pending[id])
  {
    var steps := front + [last];
    var before := Run(INITIAL, front);
    assert steps[..|front|] == front && steps[|front|] == last;
    match last
    case Route(message) =>
      RoutedIs(before, message);
      assert Answers(before, message) == Some(id);
      var slot := Do(before, last).pending[id];
      if slot.result != before.pending[id].result { assert BringsResult(steps, |front|, id, slot.result.value); }
      if slot.error != before.pending[id].error { assert BringsError(steps, |front|, id, slot.error.value); }
    case Fail(e) => assert Ends(steps, |front|, e);
    case _ => GrowsOnly(before, last, id);
  }

  lemma GrowsOnly(s: State, step: Step, id: Id)
    requires !step.Route? && !step.Fail? && id in s.pending && id in Do(s, step).pending
    ensures Do(s, step).pending[id] == s.pending[id] || (step.Request? && id == IntId(s.nextId))
  {
  }

  /** A request returns a result only if a response with its own id brought it, in whatever order responses arrive. */
  lemma ResultsAreTheirOwn(steps: seq<Step>, id: Id)
    requires id in Run(INITIAL, steps).pending && Run(INITIAL, steps).pending[id].woken
    ensures match Outcome(Run(INITIAL, steps).pending[id])
      case Ok(v) => exists i :: 0 <= i < |steps| && BringsResult(steps, i, id, v)
      case Err(e) => exists i :: 0 <= i < |steps| && (BringsError(steps, i, id, e) || Ends(steps, i, e))
  {
    hide BringsResult, BringsError, Ends, Run;
    RunsAreGood(steps);
    SlotsAreExplained(steps, id);
  }

  // --- What a response does ---

  // A response to request n that carries outcome: its result, its error object, or neither.
  ghost predicate Carries(message: Json, n: int, outcome: Result<Json, RpcError>) {
    && message.Obj? && "method" !in message.members && "id" in message.members && message.members["id"] == Int(n)
    && var m := message.members;
       match outcome
       case Ok(v) => "error" !in m && "result" in m && m["result"] == v
       case Err(Remote(code, text, data)) =>
         && "error" in m && m["error"].Obj?
         && var e := m["error"].members;
            && "code" in e && e["code"] == Int(code) && "message" in e && e["message"] == Str(text)
            && (data.None? ==> "data" !in e) && (data.Some? ==> "data" in e && e["data"] == data.value)
       case Err(Malformed) => "error" !in m && "result" !in m
       case _ => false
  }

  /** A response wakes the request it is for, and that returns what the response carries: its result, the code, message
      and data of its error, or that it was malformed. Only an error that came before a result keeps its place. And
      nothing else changes. */
  lemma ResponseArrives(s: State, message: Json, n: int, outcome: Result<Json, RpcError>)
    requires IntId(n) in s.pending && Carries(message, n, outcome)
    ensures var s', id := Do(s, Route(message)), IntId(n);
      && id in s'.pending && s'.pending[id].woken
      && Outcome(s'.pending[id]) ==
           (if outcome.Ok? && s.pending[id].error.Some? then Err(s.pending[id].error.value) else outcome)
      && s'.pending.Keys == s.pending.Keys && (forall k <- s.pending.Keys :: k != id ==> s'.pending[k] == s.pending[k])
      && s' == s.(pending := s'.pending)
  {
  }

  /** Every response to a request that is there carries something, unless its error object is malformed; then it is a
      malformed message. */
  lemma CarriesSomethingIff(s: State, message: Json, n: int)
    requires IntId(n) in s.pending
    requires message.Obj? && "method" !in message.members && "id" in message.members
      && message.members["id"] == Int(n)
    ensures Routed(s, message).Some? <==> exists outcome :: Carries(message, n, outcome)
    ensures (exists outcome :: Carries(message, n, outcome)) <==>
      ("error" in message.members ==>
         var e := message.members["error"];
         e.Obj? && "code" in e.members && e.members["code"].Int? && "message" in e.members && e.members["message"].Str?)
    ensures Routed(s, message).None? ==> Do(s, Route(message)) == s
  {
    var m := message.members;
    if "error" !in m {
      var outcome := if "result" in m then Ok(m["result"]) else Err(Malformed);
      assert Carries(message, n, outcome);
    } else if m["error"].Obj? && "code" in m["error"].members && m["error"].members["code"].Int?
           && "message" in m["error"].members && m["error"].members["message"].Str? {
      var e := m["error"].members;
      var data := if "data" in e then Some(e["data"]) else None;
      assert Carries(message, n, Err(Remote(e["code"].i, e["message"].s, data)));
    }
  }

  /** A response to anybody else changes nothing, and one with an id that is neither a number nor a text is
      malformed. */
  lemma StrayResponses(s: State, message: Json)
    requires Good(s) && message.Obj? && "method" !in message.members && "id" in message.members
    ensures var id := message.members["id"];
      && (id.Str? || (id.Int? && IntId(id.i) !in s.pending) ==> Routed(s, message) == Some(s))
      && (!id.Str? && !id.Int? ==> Routed(s, message).None?)
  {
  }

  /** What the server sends of its own goes to one of the two queues, behind what is there; anything else is
      malformed. */
  lemma ServerMessages(s: State, message: Json)
    requires message.Obj? && "method" in message.members
    ensures var m := message.members;
      var params := if "params" in m then m["params"] else Null;
      && (m["method"].Str? && "id" !in m ==>
            Routed(s, message) == Some(s.(notifications := s.notifications + [Notification(m["method"].s, params)])))
      && (m["method"].Str? && "id" in m && m["id"].Int? ==>
            Routed(s, message) == Some(s.(serverRequests := s.serverRequests +
              [ServerRequest(IntId(m["id"].i), m["method"].s, params)])))
      && (m["method"].Str? && "id" in m && m["id"].Str? ==>
            Routed(s, message) == Some(s.(serverRequests := s.serverRequests +
              [ServerRequest(StrId(m["id"].s), m["method"].s, params)])))
      && (!m["method"].Str? || ("id" in m && !m["id"].Int? && !m["id"].Str?) ==> Routed(s, message).None?)
  {
  }

  lemma NeitherIsMalformed(s: State, message: Json)
    requires message.Obj? ==> "method" !in message.members && "id" !in message.members
    ensures Routed(s, message).None?
  {
  }

  /** A new request waits under the next number, as long as the client is started, not closing and its transport has
      not failed. */
  lemma RequestIs(s: State)
    requires Good(s)
    ensures var s' := Do(s, Request);
      if s.started && !s.closing && s.terminal.None? then
        && IntId(s.nextId) !in s.pending && s'.nextId == s.nextId + 1
        && s'.pending == s.pending[IntId(s.nextId) := Slot(None, None, false)]
        && s' == s.(nextId := s'.nextId, pending := s'.pending)
      else s' == s
  {
  }

  /** Whoever returns is forgotten, whether woken or out of time, and nobody else is; starting and closing touch no
      request. */
  lemma ReturningForgets(s: State, id: Id)
    ensures var woken, late := Do(s, Wake(id)), Do(s, GiveUp(id));
      && late == s.(pending := late.pending) && woken == s.(pending := woken.pending)
      && (forall k :: k in late.pending <==> k in s.pending && k != id)
      && (forall k :: k in woken.pending <==> k in s.pending && !(k == id && s.pending[id].woken))
      && (forall k <- late.pending.Keys :: late.pending[k] == s.pending[k])
      && (forall k <- woken.pending.Keys :: woken.pending[k] == s.pending[k])
    ensures Do(s, Start) == s.(started := true) && Do(s, Close) == s.(closing := true)
  {
  }

  /** The first failure is what everybody returns who has not returned yet. */
  lemma FailureArrives(s: State, e: RpcError)
    ensures var s' := Do(s, Fail(e));
      if s.terminal.Some? then s' == s
      else
        && s'.terminal == Some(e) && s'.pending.Keys == s.pending.Keys
        && (forall id <- s.pending.Keys :: s'.pending[id].woken && Outcome(s'.pending[id]) == Err(e))
        && s' == s.(terminal := Some(e), pending := s'.pending)
  {
  }

  // A step that neither ends the wait of n nor brings it anything.
  predicate Apart(step: Step, n: int) {
    match step
    case Wake(id) => id != IntId(n)
    case GiveUp(id) => id != IntId(n)
    case Route(Obj(m)) => "method" in m || "id" !in m || m["id"] != Int(n)
    case Fail(_) => false
    case _ => true
  }

  /** Over whole runs: a request whose response has come, and that neither gives up nor is answered again, returns
      exactly what the response carried if it wakes before the transport fails. */
  lemma {:induction false} ResponseIsReturned(steps: seq<Step>, i: nat, n: int, outcome: Result<Json, RpcError>)
    requires i < |steps| && IntId(n) in Run(INITIAL, steps[..i]).pending
    requires !Run(INITIAL, steps[..i]).pending[IntId(n)].woken
    requires steps[i].Route? && Carries(steps[i].message, n, outcome)
    requires forall j :: i < j < |steps| ==> Apart(steps[j], n)
    ensures var s := Run(INITIAL, steps);
      IntId(n) in s.pending && s.pending[IntId(n)].woken && Outcome(s.pending[IntId(n)]) == outcome
  {
    hide Do, Good, Carries, Apart;
    var front, last := steps[..|steps| - 1], steps[|steps| - 1];
    if i == |front| {
      RunsAreGood(front);
      WaitsForFirst(Run(INITIAL, front), last.message, n, outcome);
    } else {
      assert front[..i] == steps[..i];
      ResponseIsReturned(front, i, n, outcome);
      RunsAreGood(front);
      ApartLeavesIt(Run(INITIAL, front), last, n);
    }
  }

  lemma WaitsForFirst(s: State, message: Json, n: int, outcome: Result<Json, RpcError>)
    requires Good(s) && IntId(n) in s.pending && !s.pending[IntId(n)].woken && Carries(message, n, outcome)
    ensures var s', id := Do(s, Route(message)), IntId(n);
      id in s'.pending && s'.pending[id].woken && Outcome(s'.pending[id]) == outcome
  {
    hide Do, Carries;
    ResponseArrives(s, message, n, outcome);
  }

  lemma ApartLeavesIt(s: State, step: Step, n: int)
    requires Good(s) && IntId(n) in s.pending && Apart(step, n)
    ensures IntId(n) in Do(s, step).pending && Do(s, step).pending[IntId(n)] == s.pending[IntId(n)]
  {
    if step.Route? && Routed(s, step.message).Some? { RoutedIs(s, step.message); }
  }

  // --- The first error ---

  /** The first terminal error is the last: it never changes, every waiter has been woken, and no new one can
      register. */
  lemma {:induction false} TerminalIsPermanent(s: State, more: seq<Step>)
    requires Good(s) && s.terminal.Some?
    ensures Run(s, more).terminal == s.terminal && Run(s, more).nextId == s.nextId
    ensures Run(s, more).pending.Keys <= s.pending.Keys
    ensures forall id <- Run(s, more).pending.Keys ::
      Run(s, more).pending[id].woken
      && Outcome(Run(s, more).pending[id]).Err?
  {
    TerminalStays(s, more);
  }

  lemma {:induction false} TerminalStays(s: State, more: seq<Step>)
    requires Good(s) && s.terminal.Some?
    ensures Run(s, more).terminal == s.terminal && Run(s, more).nextId == s.nextId && Good(Run(s, more))
    ensures Run(s, more).pending.Keys <= s.pending.Keys
  {
    if more != [] {
      var front, last := more[..|more| - 1], more[|more| - 1];
      TerminalStays(s, front);
      StepKeeps(Run(s, front), last);
      if last.Route? && Routed(Run(s, front), last.message).Some? { RoutedIs(Run(s, front), last.message); }
    }
  }

  /** What has arrived survives a failure only if an earlier one ended the transport already: a result whose waiter
      has not returned yet is lost. */
  lemma ArrivalSurvivesIff(s: State, id: Id, e: RpcError)
    requires Good(s) && id in s.pending && s.pending[id].woken
    ensures Outcome(Failed(s, e).pending[id]) == Outcome(s.pending[id]) <==>
      s.terminal.Some? || Outcome(s.pending[id]) == Err(e)
    ensures s.terminal.None? && Outcome(s.pending[id]).Ok? ==> Outcome(Failed(s, e).pending[id]) == Err(e)
  {
  }

  // --- The end of the stream ---

  /** Other tasks take steps of their own; once the terminal error is set, they keep it. */
  ghost predicate Orderly(others: Others) {
    forall n, s :: Good(s) ==> Good(others(n, s)) && (s.terminal.Some? ==> others(n, s).terminal == s.terminal)
  }

  // None of them reports an error of its own.
  ghost predicate Mute(others: Others) {
    forall n, s :: others(n, s).terminal == s.terminal
  }

  /** When a message is malformed: whatever the state, or because the request that it answers waits and its error
      object is malformed. */
  lemma MalformedIff(s: State, message: Json)
    ensures Routed(s, message).None? <==>
      || Routed(INITIAL, message).None?
      || (&& Answers(s, message).Some? && "error" in message.members
          && AsRemoteError(message.members["error"]).None?)
  {
  }

  /** How a reader can end. When a full line was malformed where it stood, or the stream ended with nothing malformed
      in its tail while the client was not closing, the terminal error is set and all who wait are woken; otherwise
      the reader leaves it unset. */
  lemma ReaderReportsIff(s: State, parse: Parser, stream: Bytes, exit: RpcError, others: Others)
    requires Good(s) && Orderly(others)
    ensures var (s', end) := ReadAll(s, parse, stream, exit, others);
      && Good(s')
      && (end.Broke? <==> !RoutedLines(others(0, s), parse, Handed(stream), others, 0).1)
      && (end.Broke? || end.Exited? ==> s'.terminal.Some? && forall id <- s'.pending.Keys :: s'.pending[id].woken)
      && (s.terminal.None? && Mute(others) ==> (s'.terminal.Some? <==> end.Broke? || end.Exited?))
      && (s.terminal.Some? ==> s'.terminal == s.terminal)
  {
    hide RoutedLine, Blank, Pieces, Tail, SlotIsSound;
    RoutedLinesKeep(others(0, s), parse, Handed(stream), others, 0);
    var (routed, ok) := RoutedLines(others(0, s), parse, Handed(stream), others, 0);
    RoutedLineKeeps(routed, parse, Tail(stream));
    StepKeeps(routed, Fail(Malformed));
    if ok {
      var last := if Blank(Tail(stream)) then Some(routed) else RoutedLine(routed, parse, Tail(stream));
      if last.Some? {
        var late := others(|Handed(stream)| + 2, others(|Handed(stream)| + 1, last.value));
        StepKeeps(late, Fail(exit));
      }
    }
  }

  lemma RoutedLineKeeps(s: State, parse: Parser, line: Bytes)
    requires Good(s)
    ensures RoutedLine(s, parse, line).Some? ==>
      Good(RoutedLine(s, parse, line).value) && RoutedLine(s, parse, line).value.terminal == s.terminal
  {
    if RoutedLine(s, parse, line).Some? {
      StepKeeps(s, Route(parse(line).value));
      RoutedIs(s, parse(line).value);
    }
  }

  lemma {:induction false} RoutedLinesKeep(s: State, parse: Parser, lines: seq<Bytes>, others: Others, from: nat)
    requires Good(s) && Orderly(others)
    ensures var s' := RoutedLines(s, parse, lines, others, from).0;
      Good(s') && (s.terminal.Some? || Mute(others) ==> s'.terminal == s.terminal)
  {
    hide Good, RoutedLine;
    if lines != [] {
      RoutedLinesKeep(s, parse, lines[..|lines| - 1], others, from);
      RoutedLineKeeps(RoutedLines(s, parse, lines[..|lines| - 1], others, from).0, parse, lines[|lines| - 1]);
    }
  }

  /** At the end of a stream while closing, and after a malformed tail, no error of the transport reaches those who
      wait: they find in their slots what lines and other tasks brought, and nothing else. */
  lemma SomeEndsAreSilent(s: State, parse: Parser, stream: Bytes, exit: RpcError, others: Others)
    requires Good(s) && s.terminal.None? && Orderly(others) && Mute(others)
    requires RoutedLines(others(0, s), parse, Handed(stream), others, 0).1
    ensures var routed := RoutedLines(others(0, s), parse, Handed(stream), others, 0).0;
      var (s', end) := ReadAll(s, parse, stream, exit, others);
      && (Blank(Tail(stream)) && others(|Handed(stream)| + 1, routed).closing ==>
            end.Closed? && s' == others(|Handed(stream)| + 1, routed) && s'.terminal.None?)
      && (!Blank(Tail(stream)) && RoutedLine(routed, parse, Tail(stream)).None? ==>
            end.Escaped? && s' == routed && s'.terminal.None?)
  {
    hide Good, RoutedLine, Blank, Pieces, Tail;
    RoutedLinesKeep(others(0, s), parse, Handed(stream), others, 0);
  }
}
