/** The managed block of AGENTS.md: writing it, and stripping it again before the sources are hashed. */
module AgentsMd {
  import opened Wrappers

  // A file's bytes, one character each.
  type Bytes = string

  const BEGIN_MARKER: Bytes := "<!-- local-skill-orchestrator:begin -->"
  const END_MARKER: Bytes := "<!-- local-skill-orchestrator:end -->"

  const LF: Bytes := "\n"
  const CRLF: Bytes := "\r\n"

  datatype MergeError = MalformedMarkers

  // --- Searching ---

  predicate At(s: Bytes, i: int, m: Bytes) {
    0 <= i && i + |m| <= |s| && s[i..i + |m|] == m
  }

  ghost predicate Contains(s: Bytes, m: Bytes) {
    exists i :: At(s, i, m)
  }

  // bytes.find
  function Find(s: Bytes, m: Bytes, start: nat): (r: int)
    ensures r < 0 ==> forall i :: start <= i ==> !At(s, i, m)
    ensures r >= 0 ==> start <= r && At(s, r, m) && forall i :: start <= i < r ==> !At(s, i, m)
    decreases |s| - start
  {
    if start + |m| > |s| then -1
    else if At(s, start, m) then start
    else Find(s, m, start + 1)
  }

  function Positions(s: Bytes, m: Bytes, start: nat): (r: seq<int>)
    requires m != ""
    ensures forall i :: 0 <= i < |r| ==> At(s, r[i], m) && start <= r[i]
    decreases |s| - start
  {
    var p := Find(s, m, start);
    if p < 0 then [] else [p] + Positions(s, m, p + |m|)
  }

  method FindPositions(s: Bytes, m: Bytes) returns (positions: seq<int>)
    requires m != ""
    ensures positions == Positions(s, m, 0)
  {
    hide Positions, At;
    positions := [];
    var start := 0;
    while true
      invariant 0 <= start
      invariant positions + Positions(s, m, start) == Positions(s, m, 0)
      decreases |s| - start
    {
      var position := Find(s, m, start);
      PositionsStep(s, m, start);
      if position < 0 {
        assert positions + [] == positions;
        return;
      }
      assert positions + ([position] + Positions(s, m, position + |m|))
        == positions + [position] + Positions(s, m, position + |m|);
      positions := positions + [position];
      start := position + |m|;
    }
  }

  lemma PositionsStep(s: Bytes, m: Bytes, start: nat)
    requires m != ""
    ensures var p := Find(s, m, start);
      if p < 0 then Positions(s, m, start) == []
      else start <= p && p + |m| <= |s| && Positions(s, m, start) == [p] + Positions(s, m, p + |m|)
  {
  }

  // --- Newlines ---

  predicate IsNewline(c: char) { c == '\r' || c == '\n' }

  // bytes.rstrip(b"\r\n")
  function RStrip(s: Bytes): Bytes {
    if s != "" && IsNewline(s[|s| - 1]) then RStrip(s[..|s| - 1]) else s
  }

  function RStripLf(s: Bytes): Bytes {
    if s != "" && s[|s| - 1] == '\n' then RStripLf(s[..|s| - 1]) else s
  }

  // The replacements of newlines, all in one shape.
  function Translate(s: Bytes, joinPairs: bool, cr: Bytes, lf: Bytes): Bytes {
    if s == "" then ""
    else if joinPairs && |s| > 1 && s[0] == '\r' && s[1] == '\n' then lf + Translate(s[2..], joinPairs, cr, lf)
    else if s[0] == '\r' then cr + Translate(s[1..], joinPairs, cr, lf)
    else if s[0] == '\n' then lf + Translate(s[1..], joinPairs, cr, lf)
    else [s[0]] + Translate(s[1..], joinPairs, cr, lf)
  }

  function CrLfToLf(s: Bytes): Bytes { Translate(s, true, "\r", "\n") }

  function CrToLf(s: Bytes): Bytes { Translate(s, false, "\n", "\n") }

  function LfTo(s: Bytes, newline: Bytes): Bytes { Translate(s, false, "\r", newline) }

  function NewlineFor(s: Bytes): Bytes {
    if Find(s, CRLF, 0) >= 0 then CRLF else LF
  }

  // --- Writing the block ---

  function Body(managed: Bytes): Bytes {
    RStripLf(CrToLf(CrLfToLf(managed)))
  }

  function ManagedBlock(managed: Bytes, newline: Bytes): Bytes {
    var body := Body(managed);
    if body != "" then BEGIN_MARKER + newline + LfTo(body, newline) + newline + END_MARKER + newline
    else BEGIN_MARKER + newline + END_MARKER + newline
  }

  function Merge(existing: Option<Bytes>, managed: Bytes): Result<Bytes, MergeError> {
    var original := if existing.Some? then existing.value else "";
    var newline := NewlineFor(original);
    var block := ManagedBlock(managed, newline);
    var begins, ends := Positions(original, BEGIN_MARKER, 0), Positions(original, END_MARKER, 0);
    if begins == [] && ends == [] then
      if original == "" then Ok(block)
      else
        var separator := if IsNewline(original[|original| - 1]) then newline else newline + newline;
        Ok(original + separator + block)
    else if |begins| != 1 || |ends| != 1 || begins[0] >= ends[0] then
      Err(MalformedMarkers)
    else
      Ok(original[..begins[0]] + RStrip(block) + original[ends[0] + |END_MARKER|..])
  }

  // --- Stripping it ---

  function SkipNewline(s: Bytes): Bytes {
    if CRLF <= s then s[2..]
    else if s != "" && IsNewline(s[0]) then s[1..]
    else s
  }

  // What of AGENTS.md is hashed as a source.
  function SourceContent(content: Bytes): Bytes {
    var newline := NewlineFor(content);
    var begin, end := Find(content, BEGIN_MARKER, 0), Find(content, END_MARKER, 0);
    if begin < 0 && end < 0 then RStrip(content) + newline
    else if begin < 0 || end < begin || Find(content, BEGIN_MARKER, begin + 1) >= 0 then content
    else
      RStrip(RStrip(content[..begin]) + SkipNewline(content[end + |END_MARKER|..])) + newline
  }

  // bytes.strip() leaves nothing
  predicate Blank(s: Bytes) {
    forall c <- s :: c == ' ' || c == '\t' || c == '\n' || c == '\r' || c as int == 11 || c as int == 12
  }
}
