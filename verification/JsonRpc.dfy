/** The JSON-RPC client: requests, their responses in any order, and the first error that ends it all. */
module JsonRpc {
  import opened Wrappers
  import opened AgentsMd
  import opened JsonLines

  datatype Json =
    | Null
    | Bool(b: bool)
    | Int(i: int)
    | Float(text: string)
    | Str(s: string)
    | List(items: seq<Json>)
    | Obj(members: map<string, Json>)

  datatype Id = IntId(n: int) | StrId(text: string)

  datatype RpcError = Malformed | Remote(code: int, message: string, data: Option<Json>) | ProcessExit | Eof | TimedOut

  // A request that waits for its response; woken is its event.
  datatype Slot = Slot(result: Option<Json>, error: Option<RpcError>, woken: bool)

  datatype Notification = Notification(method_: string, params: Json)

  datatype ServerRequest = ServerRequest(id: Id, method_: string, params: Json)

  datatype State = State(
    started: bool, closing: bool, nextId: nat, pending: map<Id, Slot>, terminal: Option<RpcError>,
    notifications: seq<Notification>, serverRequests: seq<ServerRequest>)

  const INITIAL := State(false, false, 1, map[], None, [], [])

  const WAITING := Slot(None, None, false)

  // --- Values ---

  // bool is not an int here, and neither is a float.
  function AsId(v: Json): Option<Id> {
    match v
    case Int(n) => Some(IntId(n))
    case Str(s) => Some(StrId(s))
    case _ => None
  }

  function AsRemoteError(v: Json): Option<RpcError> {
    if v.Obj? && "code" in v.members && v.members["code"].Int?
       && "message" in v.members && v.members["message"].Str? then
      Some(Remote(v.members["code"].i, v.members["message"].s,
                  if "data" in v.members then Some(v.members["data"]) else None))
    else None
  }

  function Member(m: map<string, Json>, key: string): Json {
    if key in m then m[key] else Null
  }

  // --- One message ---

  /** What a response does to the slot it is for; None if its error object is malformed. */
  function Answered(slot: Slot, m: map<string, Json>): Option<Slot> {
    if "error" in m then
      match AsRemoteError(m["error"])
      case None => None
      case Some(e) => Some(slot.(error := Some(e), woken := true))
    else if "result" in m then Some(slot.(result := Some(m["result"]), woken := true))
    else Some(slot.(error := Some(Malformed), woken := true))
  }

  /** What one message does; None if it is malformed. */
  function Routed(s: State, message: Json): Option<State> {
    if !message.Obj? then None
    else
      var m := message.members;
      if "method" in m then
        if !m["method"].Str? then None
        else if "id" !in m then
          Some(s.(notifications := s.notifications + [Notification(m["method"].s, Member(m, "params"))]))
        else if AsId(m["id"]).None? then None
        else
          var request := ServerRequest(AsId(m["id"]).value, m["method"].s, Member(m, "params"));
          Some(s.(serverRequests := s.serverRequests + [request]))
      else if "id" in m then
        if AsId(m["id"]).None? then None
        else
          var id := AsId(m["id"]).value;
          if id !in s.pending then Some(s)
          else
            match Answered(s.pending[id], m)
            case None => None
            case Some(slot) => Some(s.(pending := s.pending[id := slot]))
      else None
  }

  // A line that is not JSON parses to nothing.
  type Parser = Bytes -> Option<Json>

  function RoutedLine(s: State, parse: Parser, line: Bytes): Option<State> {
    match parse(line)
    case None => None
    case Some(message) => Routed(s, message)
  }

  // --- The other steps ---

  function Usable(s: State): Option<RpcError> {
    if s.terminal.Some? then s.terminal else if s.closing then Some(Eof) else None
  }

  function FailAll(pending: map<Id, Slot>, e: RpcError): map<Id, Slot> {
    map id <- pending.Keys :: pending[id].(error := Some(e), woken := true)
  }

  function Failed(s: State, e: RpcError): State {
    if s.terminal.Some? then s
    else s.(terminal := Some(e), pending := FailAll(s.pending, e))
  }

  function Registered(s: State): State {
    s.(nextId := s.nextId + 1, pending := s.pending[IntId(s.nextId) := WAITING])
  }

  function Dropped(s: State, id: Id): State {
    s.(pending := s.pending - {id})
  }

  // What a woken waiter returns.
  function Outcome(slot: Slot): Result<Json, RpcError> {
    if slot.error.Some? then Err(slot.error.value)
    else Ok(if slot.result.Some? then slot.result.value else Null)
  }

  // --- The reader ---

  /** All that the other tasks do to the client between the reader's n-th line and the next. */
  type Others = (nat, State) -> State

  /** Lines routed one after the other, up to the first malformed one, with the other tasks' work after each. */
  function RoutedLines(s: State, parse: Parser, lines: seq<Bytes>, others: Others, from: nat): (State, bool) {
    if lines == [] then (s, true)
    else
      var (before, ok) := RoutedLines(s, parse, lines[..|lines| - 1], others, from);
      if !ok then (before, false)
      else
        match RoutedLine(before, parse, lines[|lines| - 1])
        case None => (before, false)
        case Some(after) => (others(from + |lines|, after), true)
  }

  datatype End = Closed | Exited | Broke | Escaped

  /** The lines a reader hands to the router, whatever happens to the client meanwhile: they depend on the bytes
      alone. */
  function Handed(stream: Bytes): seq<Bytes> { NonBlank(Pieces(stream)) }

  /** All a reader does with a stream that ends: route its lines, then its tail, then report how the process exited,
      unless the client is closing. A malformed tail escapes: it is raised where nothing catches it, and no end is
      reported. */
  function ReadAll(s: State, parse: Parser, stream: Bytes, exit: RpcError, others: Others): (State, End) {
    var (routed, ok) := RoutedLines(others(0, s), parse, Handed(stream), others, 0);
    var n := |Handed(stream)|;
    if !ok then (Failed(routed, Malformed), Broke)
    else
      var last := if Blank(Tail(stream)) then Some(routed) else RoutedLine(routed, parse, Tail(stream));
      if last.None? then (routed, Escaped)
      else
        var s' := others(n + 1, last.value);
        if s'.closing then (s', Closed) else (Failed(others(n + 2, s'), exit), Exited)
  }

  lemma {:induction false} RoutedLinesOfConcat(s: State, parse: Parser, xs: seq<Bytes>, ys: seq<Bytes>, others: Others,
                                               from: nat)
    ensures var (t, ok) := RoutedLines(s, parse, xs, others, from);
      RoutedLines(s, parse, xs + ys, others, from) ==
        if ok then RoutedLines(t, parse, ys, others, from + |xs|) else (t, false)
  {
    hide RoutedLine;
    if ys == [] {
      assert xs + ys == xs;
    } else {
      RoutedLinesOfConcat(s, parse, xs, ys[..|ys| - 1], others, from);
      assert (xs + ys)[..|xs + ys| - 1] == xs + ys[..|ys| - 1];
    }
  }

  class JsonRpcClient {
    var started: bool
    var closing: bool
    var nextId: nat
    var pending: map<Id, Slot>
    var terminal: Option<RpcError>
    var notifications: seq<Notification>
    var serverRequests: seq<ServerRequest>
    const parse: Parser

    constructor (parse: Parser)
      ensures this.parse == parse && Now() == INITIAL
    {
      this.parse := parse;
      started, closing, nextId, pending, terminal, notifications, serverRequests :=
        false, false, 1, map[], None, [], [];
    }

    function Now(): State
      reads this
    {
      State(started, closing, nextId, pending, terminal, notifications, serverRequests)
    }

    method Start() returns (ok: bool)
      modifies this`started
      ensures Now() == old(Now()).(started := true) && ok == !old(started)
    {
      ok := !started;
      started := true;
    }

    // The first half of a request: everything up to the wait.
    method Register(sendFails: Option<RpcError>) returns (r: Result<Id, RpcError>)
      requires started
      modifies this
      ensures old(terminal).Some? ==> r == Err(old(terminal).value)
      ensures old(terminal).None? && old(closing) ==> r == Err(Eof)
      ensures r.Ok? ==>
        && old(terminal).None? && !old(closing) && sendFails.None? && r.value == IntId(old(nextId))
        && r.value in pending && !pending[r.value].woken && nextId == old(nextId) + 1
      ensures Usable(old(Now())).Some? ==> r == Err(Usable(old(Now())).value) && Now() == old(Now())
      ensures Usable(old(Now())).None? && sendFails.None? ==>
        r == Ok(IntId(old(nextId)))
        && Now() == Registered(old(Now()))
      ensures Usable(old(Now())).None? && sendFails.Some? ==>
        r == Err(sendFails.value)
          && Now() == Dropped(Failed(Registered(old(Now())), sendFails.value), IntId(old(nextId)))
    {
      if terminal.Some? { return Err(terminal.value); }
      if closing { return Err(Eof); }
      var id := IntId(nextId);
      nextId := nextId + 1;
      pending := pending[id := WAITING];
      if sendFails.Some? {
        Fail(sendFails.value);
        pending := pending - {id};
        return Err(sendFails.value);
      }
      r := Ok(id);
    }

    // The second half: the waiter woke, or its time ran out.
    method Finish(id: Id, timedOut: bool) returns (r: Result<Json, RpcError>)
      requires id in pending && (timedOut || pending[id].woken)
      modifies this`pending
      ensures Now() == Dropped(old(Now()), id)
      ensures r == if timedOut then Err(TimedOut) else Outcome(old(pending[id]))
      ensures !timedOut && old(pending[id]).error.Some? ==> r == Err(old(pending[id]).error.value)
      ensures !timedOut && old(pending[id]).error.None? && old(pending[id]).result.Some? ==>
        r == Ok(old(pending[id]).result.value)
      ensures pending == old(pending) - {id}
    {
      var slot := pending[id];
      pending := pending - {id};
      if timedOut { return Err(TimedOut); }
      if slot.error.Some? { return Err(slot.error.value); }
      r := Ok(if slot.result.Some? then slot.result.value else Null);
    }

    method RouteResponse(id: Id, m: map<string, Json>) returns (ok: bool)
      modifies this`pending
      ensures id !in old(pending) ==> ok && Now() == old(Now())
      ensures id in old(pending) ==>
        var slot := Answered(old(pending)[id], m);
        ok == slot.Some? && Now() == if ok then old(Now()).(pending := old(pending)[id := slot.value]) else old(Now())
      // A waiter is woken with the result, with the error, or with the news that there is neither.
      ensures id in old(pending) && old(pending)[id] == WAITING && "error" !in m ==>
        && ok && pending[id].woken
        && Outcome(pending[id]) == if "result" in m then Ok(m["result"]) else Err(Malformed)
      ensures id in old(pending) && old(pending)[id] == WAITING && "error" in m ==>
        var e := m["error"];
        if e.Obj? && "code" in e.members && e.members["code"].Int?
           && "message" in e.members && e.members["message"].Str? then
          var data := if "data" in e.members then Some(e.members["data"]) else None;
          ok && pending[id].woken
            && Outcome(pending[id]) == Err(Remote(e.members["code"].i, e.members["message"].s, data))
        else !ok && pending == old(pending)
    {
      if id !in pending { return true; }
      var slot := pending[id];
      if "error" in m {
        var e := AsRemoteError(m["error"]);
        if e.None? { return false; }
        slot := slot.(error := e);
      } else if "result" in m {
        slot := slot.(result := Some(m["result"]));
      } else {
        slot := slot.(error := Some(Malformed));
      }
      pending := pending[id := slot.(woken := true)];
      ok := true;
    }

    method RouteLine(line: Bytes) returns (ok: bool)
      modifies this
      ensures var after := RoutedLine(old(Now()), parse, line);
        ok == after.Some? && Now() == if ok then after.value else old(Now())
    {
      var message := parse(line);
      if message.None? || !message.value.Obj? { return false; }
      var m := message.value.members;
      if "method" in m {
        if !m["method"].Str? { return false; }
        if "id" !in m {
          notifications := notifications + [Notification(m["method"].s, Member(m, "params"))];
          return true;
        }
        var id := AsId(m["id"]);
        if id.None? { return false; }
        serverRequests := serverRequests + [ServerRequest(id.value, m["method"].s, Member(m, "params"))];
        return true;
      }
      if "id" !in m { return false; }
      var id := AsId(m["id"]);
      if id.None? { return false; }
      ok := RouteResponse(id.value, m);
    }

    method Fail(e: RpcError)
      modifies this`terminal, this`pending
      ensures Now() == Failed(old(Now()), e)
    {
      if terminal.Some? { return; }
      terminal := Some(e);
      var rest := pending.Keys;
      ghost var was := pending;
      while rest != {}
        invariant rest <= was.Keys == pending.Keys && terminal == Some(e)
        invariant forall id <- was.Keys :: pending[id] == if id in rest then was[id]
          else was[id].(error := Some(e), woken := true)
        decreases rest
      {
        var id :| id in rest;
        pending := pending[id := pending[id].(error := Some(e), woken := true)];
        rest := rest - {id};
      }
      assert pending == FailAll(was, e);
    }

    method Close()
      requires started
      modifies this`closing
      ensures Now() == old(Now()).(closing := true)
    {
      closing := true;
    }

    // What the other tasks do while the reader waits.
    method Meanwhile(others: Others, n: nat)
      modifies this
      ensures Now() == others(n, old(Now()))
    {
      var s := others(n, Now());
      started, closing, nextId, pending := s.started, s.closing, s.nextId, s.pending;
      terminal, notifications, serverRequests := s.terminal, s.notifications, s.serverRequests;
    }

    // One line, and what the other tasks do after it.
    method HandOver(line: Bytes, others: Others, n: nat, ghost was: State, ghost head: seq<Bytes>) returns (ok: bool)
      requires n == |head| + 1 && RoutedLines(was, parse, head, others, 0) == (Now(), true)
      modifies this
      ensures RoutedLines(was, parse, head + [line], others, 0) == (Now(), ok)
    {
      hide RoutedLine, RoutedLines;
      RoutedNext(was, parse, head, line, others);
      ok := RouteLine(line);
      if ok { Meanwhile(others, n); }
    }

    // The lines that are complete in the buffer, routed as they are cut off.
    method DrainBuffer(buffer: Bytes, others: Others, n: nat, ghost was: State, ghost head: seq<Bytes>)
      returns (rest: Bytes, ok: bool, m: nat)
      requires n == |head| && RoutedLines(was, parse, head, others, 0) == (Now(), true)
      modifies this
      ensures RoutedLines(was, parse, head + Handed(buffer), others, 0) == (Now(), ok)
      ensures ok ==> rest == Tail(buffer) && m == |head + Handed(buffer)|
    {
      hide RoutedLine, RoutedLines, Blank, NonBlank;
      rest, m := buffer, n;
      ghost var cut: seq<Bytes> := [];
      NothingHanded(head);
      while '\n' in rest
        invariant cut + Pieces(rest) == Pieces(buffer) && Tail(rest) == Tail(buffer)
        invariant RoutedLines(was, parse, head + NonBlank(cut), others, 0) == (Now(), true)
        invariant m == |head + NonBlank(cut)|
        decreases |rest|
      {
        var (line, remainder) := Partition(rest);
        assert cut + ([line] + Pieces(remainder)) == cut + [line] + Pieces(remainder);
        SplitLines(head, cut, line, Pieces(remainder));
        rest := remainder;
        if !Blank(line) {
          ok := HandOver(line, others, m + 1, was, head + NonBlank(cut));
          if !ok {
            RoutedLinesOfConcat(was, parse, head + NonBlank(cut) + [line], NonBlank(Pieces(remainder)), others, 0);
            return;
          }
          m := m + 1;
        }
        cut := cut + [line];
      }
      assert cut + Pieces(rest) == cut;
      ok := true;
    }

    /** The whole reader: any chunks, then the end of the stream, with any work of other tasks in between. */
    method ReadStdout(chunks: seq<Bytes>, exit: RpcError, others: Others) returns (end: End)
      modifies this
      ensures (Now(), end) == ReadAll(old(Now()), parse, Concat(chunks), exit, others)
    {
      hide RoutedLine, RoutedLines, Blank, NonBlank, Pieces;
      NothingSeen();
      NothingRouted(others(0, Now()), parse, others);
      var buffer: Bytes, routed: nat := "", 0;
      Meanwhile(others, 0);
      ghost var was, seen := Now(), "";
      for n := 0 to |chunks|
        invariant seen == Concat(chunks[..n]) && buffer == Tail(seen) && '\n' !in buffer
        invariant routed == |Handed(seen)| && RoutedLines(was, parse, Handed(seen), others, 0) == (Now(), true)
      {
        assert chunks[..n + 1][..n] == chunks[..n];
        CutOfConcat(seen, chunks[n]);
        CutKeepsAll(seen + chunks[n]);
        NonBlankOfConcat(Pieces(seen), Pieces(buffer + chunks[n]));
        var ok;
        buffer, ok, routed := DrainBuffer(buffer + chunks[n], others, routed, was, Handed(seen));
        seen := seen + chunks[n];
        if !ok {
          StaysBroken(was, parse, chunks, n + 1, others);
          Fail(Malformed);
          return Broke;
        }
      }
      assert chunks[..|chunks|] == chunks;
      if !Blank(buffer) {
        var ok := RouteLine(buffer);
        if !ok { return Escaped; }
      }
      Meanwhile(others, routed + 1);
      if closing { return Closed; }
      Meanwhile(others, routed + 2);
      Fail(exit);
      end := Exited;
    }
  }

  lemma NothingHanded(head: seq<Bytes>)
    ensures head + NonBlank([]) == head
  {
  }

  lemma NothingSeen()
    ensures Handed("") == [] && Tail("") == ""
  {
  }

  lemma NothingRouted(s: State, parse: Parser, others: Others)
    ensures RoutedLines(s, parse, [], others, 0) == (s, true)
  {
  }

  lemma SplitLines(head: seq<Bytes>, cut: seq<Bytes>, line: Bytes, rest: seq<Bytes>)
    ensures head + NonBlank(cut + [line]) == if Blank(line) then head + NonBlank(cut)
      else (head + NonBlank(cut)) + [line]
    ensures NonBlank(cut + [line] + rest) == NonBlank(cut + [line]) + NonBlank(rest)
    ensures head + NonBlank(cut + [line] + rest) == (head + NonBlank(cut + [line])) + NonBlank(rest)
  {
    hide NonBlank, Blank;
    NonBlankOfConcat(cut, [line]);
    NonBlankOfConcat(cut + [line], rest);
    NonBlankOne(line);
    if Blank(line) { assert NonBlank(cut) + NonBlank([line]) == NonBlank(cut); }
    Associative(head, NonBlank(cut), NonBlank([line]));
    Associative(head, NonBlank(cut + [line]), NonBlank(rest));
  }

  lemma NonBlankOne(line: Bytes)
    ensures NonBlank([line]) == if Blank(line) then [] else [line]
  {
    assert [line][1..] == [];
    assert [line] + [] == [line];
  }

  lemma Associative(a: seq<Bytes>, b: seq<Bytes>, c: seq<Bytes>)
    ensures a + (b + c) == (a + b) + c
  {
  }

  lemma RoutedNext(s: State, parse: Parser, lines: seq<Bytes>, line: Bytes, others: Others)
    ensures var (t, ok) := RoutedLines(s, parse, lines, others, 0);
      RoutedLines(s, parse, lines + [line], others, 0) ==
        if !ok || RoutedLine(t, parse, line).None? then (t, false)
        else (others(|lines| + 1, RoutedLine(t, parse, line).value), true)
  {
    hide RoutedLine;
    assert (lines + [line])[..|lines|] == lines;
  }

  // Once a line was malformed, the chunks that follow it make no difference.
  lemma {:induction false} StaysBroken(s: State, parse: Parser, chunks: seq<Bytes>, n: nat, others: Others)
    requires n <= |chunks| && !RoutedLines(s, parse, Handed(Concat(chunks[..n])), others, 0).1
    ensures RoutedLines(s, parse, Handed(Concat(chunks)), others, 0)
      == RoutedLines(s, parse, Handed(Concat(chunks[..n])), others, 0)
    decreases |chunks| - n
  {
    hide RoutedLine, Blank;
    if n == |chunks| {
      assert chunks[..n] == chunks;
    } else {
      assert chunks[..n + 1][..n] == chunks[..n];
      var seen := Concat(chunks[..n]);
      CutOfConcat(seen, chunks[n]);
      NonBlankOfConcat(Pieces(seen), Pieces(Tail(seen) + chunks[n]));
      RoutedLinesOfConcat(s, parse, Handed(seen), NonBlank(Pieces(Tail(seen) + chunks[n])), others, 0);
      StaysBroken(s, parse, chunks, n + 1, others);
    }
  }
}
