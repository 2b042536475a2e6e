/** Stripping undoes merging, and merging again replaces the block and nothing else. */
module AgentsMdTheorems {
  import opened Wrappers
  import opened AgentsMd

  ghost predicate MarkerFree(s: Bytes) {
    !Contains(s, BEGIN_MARKER) && !Contains(s, END_MARKER)
  }

  // A marker opens with its only '<' and holds no newline.
  ghost predicate MarkerShaped(m: Bytes) {
    && m != "" && m[0] == '<'
    && (forall i :: 1 <= i < |m| ==> m[i] != '<')
    && (forall i :: 0 <= i < |m| ==> !IsNewline(m[i]))
  }

  lemma MarkersAreShaped()
    ensures MarkerShaped(BEGIN_MARKER) && MarkerShaped(END_MARKER)
    ensures !(BEGIN_MARKER <= END_MARKER) && !(END_MARKER <= BEGIN_MARKER)
    ensures BEGIN_MARKER[|BEGIN_MARKER| - 1] == '>' && END_MARKER[|END_MARKER| - 1] == '>'
  {
    assert BEGIN_MARKER[30] != END_MARKER[30];
  }

  // A block with the text x between its markers, and what stands around it.
  function Around(a: Bytes, x: Bytes, b: Bytes): Bytes {
    a + BEGIN_MARKER + x + END_MARKER + b
  }

  /** s is made of a, a block around x, and b, and has no other marker anywhere. */
  ghost predicate Parts(s: Bytes, a: Bytes, x: Bytes, b: Bytes) {
    && s == Around(a, x, b)
    && MarkerFree(a) && MarkerFree(x) && MarkerFree(b)
  }

  ghost predicate WellFormed(s: Bytes) {
    MarkerFree(s) || exists a, x, b :: Parts(s, a, x, b)
  }

  // --- Where markers can be ---

  lemma AtInPrefix(s: Bytes, t: Bytes, i: int, m: Bytes)
    requires i + |m| <= |s|
    ensures At(s + t, i, m) <==> At(s, i, m)
  {
    if 0 <= i { assert (s + t)[i..i + |m|] == s[i..i + |m|]; }
  }

  lemma AtInSuffix(s: Bytes, t: Bytes, i: int, m: Bytes)
    requires i >= |s|
    ensures At(s + t, i, m) <==> At(t, i - |s|, m)
  {
    if i + |m| <= |s + t| { assert (s + t)[i..i + |m|] == t[i - |s|..i - |s| + |m|]; }
  }

  lemma AtChar(s: Bytes, i: int, m: Bytes, j: int)
    requires At(s, i, m) && i <= j < i + |m|
    ensures s[j] == m[j - i]
  {
    assert s[i..i + |m|][j - i] == s[j];
  }

  lemma PrefixesOfOne(w: Bytes, b: Bytes, m: Bytes)
    requires At(w + b, 0, m)
    ensures m <= w || w <= m
  {
    if |m| <= |w| {
      assert (w + b)[..|m|] == w[..|m|];
    } else {
      assert (w + b)[..|m|][..|w|] == w;
    }
  }

  // An occurrence that starts before a '<' ends before it.
  lemma StopsAtBracket(s: Bytes, i: int, k: int, m: Bytes)
    requires MarkerShaped(m) && At(s, i, m) && i < k < |s| && s[k] == '<'
    ensures i + |m| <= k
  {
    if k < i + |m| { AtChar(s, i, m, k); }
  }

  /** Two markers' occurrences never overlap. */
  lemma NoOverlap(s: Bytes, i: int, m: Bytes, j: int, n: Bytes)
    requires MarkerShaped(m) && MarkerShaped(n) && At(s, i, m) && At(s, j, n) && i < j
    ensures i + |m| <= j
  {
    AtChar(s, j, n, j);
    StopsAtBracket(s, i, j, m);
  }

  // In A + w + B, where w is one marker, a marker occurs in A, at w, or in B.
  lemma OnlyAround(a: Bytes, w: Bytes, b: Bytes, i: int, m: Bytes)
    requires MarkerShaped(w) && MarkerShaped(m) && (m == w || (!(m <= w) && !(w <= m)))
    ensures At(a + w + b, i, m) <==>
      At(a, i, m) || (i == |a| && m == w) || At(b, i - |a| - |w|, m)
  {
    var s := a + w + b;
    assert s == a + (w + b);
    if i < |a| {
      if i + |m| <= |a| { AtInPrefix(a, w + b, i, m); }
      else if At(s, i, m) { assert s[|a|] == '<'; StopsAtBracket(s, i, |a|, m); }
    } else if i == |a| {
      AtInSuffix(a, w + b, i, m);
      if At(w + b, 0, m) { PrefixesOfOne(w, b, m); }
      if m == w { assert (w + b)[..|m|] == w; }
    } else if i < |a| + |w| {
      assert s[i] == w[i - |a|];
      assert !At(b, i - |a| - |w|, m) && !At(a, i, m);
      if At(s, i, m) { AtChar(s, i, m, i); }
    } else {
      AtInSuffix(a + w, b, i, m);
    }
  }

  /** In a file made of such parts, the markers are where they should be and nowhere else. */
  lemma PartsPositions(s: Bytes, a: Bytes, x: Bytes, b: Bytes)
    requires Parts(s, a, x, b)
    ensures forall i :: At(s, i, BEGIN_MARKER) <==> i == |a|
    ensures forall i :: At(s, i, END_MARKER) <==> i == |a| + |BEGIN_MARKER| + |x|
  {
    hide BEGIN_MARKER, END_MARKER;
    MarkersAreShaped();
    var rest := x + END_MARKER + b;
    assert s == a + BEGIN_MARKER + rest;
    forall i ensures At(s, i, BEGIN_MARKER) <==> i == |a| {
      OnlyAround(a, BEGIN_MARKER, rest, i, BEGIN_MARKER);
      OnlyAround(x, END_MARKER, b, i - |a| - |BEGIN_MARKER|, BEGIN_MARKER);
    }
    forall i ensures At(s, i, END_MARKER) <==> i == |a| + |BEGIN_MARKER| + |x| {
      OnlyAround(a, BEGIN_MARKER, rest, i, END_MARKER);
      OnlyAround(x, END_MARKER, b, i - |a| - |BEGIN_MARKER|, END_MARKER);
    }
  }

  lemma SingletonPositions(s: Bytes, m: Bytes, p: int)
    requires MarkerShaped(m) && forall i :: At(s, i, m) <==> i == p
    ensures Positions(s, m, 0) == [p]
    ensures Find(s, m, 0) == p && forall k: nat :: k > p ==> Find(s, m, k) < 0
  {
    assert At(s, p, m);
    assert Positions(s, m, p + |m|) == [];
  }

  lemma FreeHasNoPositions(s: Bytes, m: Bytes)
    requires m != "" && !Contains(s, m)
    ensures Positions(s, m, 0) == [] && Find(s, m, 0) < 0
  {
  }

  /** A file with one ordered pair of markers is made of such parts. */
  lemma PartsOf(s: Bytes) returns (a: Bytes, x: Bytes, b: Bytes)
    requires var begins, ends := Positions(s, BEGIN_MARKER, 0), Positions(s, END_MARKER, 0);
      |begins| == 1 && |ends| == 1 && begins[0] < ends[0]
    ensures Parts(s, a, x, b)
    ensures |a| == Positions(s, BEGIN_MARKER, 0)[0] && |a| + |BEGIN_MARKER| + |x| == Positions(s, END_MARKER, 0)[0]
  {
    hide BEGIN_MARKER, END_MARKER;
    MarkersAreShaped();
    var p, q := Positions(s, BEGIN_MARKER, 0)[0], Positions(s, END_MARKER, 0)[0];
    NoOverlap(s, p, BEGIN_MARKER, q, END_MARKER);
    OneOccurrence(s, BEGIN_MARKER);
    OneOccurrence(s, END_MARKER);
    a, x, b := s[..p], s[p + |BEGIN_MARKER|..q], s[q + |END_MARKER|..];
    CutAt(s, p, q);
    PiecesAreFree(s, p, q);
  }

  lemma PiecesAreFree(s: Bytes, p: int, q: int)
    requires 0 <= p && p + |BEGIN_MARKER| <= q && q + |END_MARKER| <= |s|
    requires forall i :: At(s, i, BEGIN_MARKER) ==> i == p
    requires forall i :: At(s, i, END_MARKER) ==> i == q
    ensures MarkerFree(s[..p]) && MarkerFree(s[p + |BEGIN_MARKER|..q]) && MarkerFree(s[q + |END_MARKER|..])
  {
    assert BEGIN_MARKER != "" && END_MARKER != "" by { MarkersAreShaped(); }
    hide BEGIN_MARKER, END_MARKER, MarkerFree, At;
    PieceIsFree(s, 0, p, p, q);
    PieceIsFree(s, p + |BEGIN_MARKER|, q, p, q);
    PieceIsFree(s, q + |END_MARKER|, |s|, p, q);
    assert s[0..p] == s[..p] && s[q + |END_MARKER|..|s|] == s[q + |END_MARKER|..];
  }

  lemma CutAt(s: Bytes, p: int, q: int)
    requires At(s, p, BEGIN_MARKER) && At(s, q, END_MARKER) && p + |BEGIN_MARKER| <= q
    ensures s == s[..p] + BEGIN_MARKER + s[p + |BEGIN_MARKER|..q] + END_MARKER + s[q + |END_MARKER|..]
  {
    hide BEGIN_MARKER, END_MARKER;
    FiveSlices(s, p, p + |BEGIN_MARKER|, q, q + |END_MARKER|);
  }

  lemma FiveSlices(s: Bytes, a: int, b: int, c: int, d: int)
    requires 0 <= a <= b <= c <= d <= |s|
    ensures s == s[..a] + s[a..b] + s[b..c] + s[c..d] + s[d..]
  {
  }

  lemma OneOccurrence(s: Bytes, m: Bytes)
    requires MarkerShaped(m) && |Positions(s, m, 0)| == 1
    ensures forall i :: At(s, i, m) ==> i == Positions(s, m, 0)[0]
  {
    var p := Positions(s, m, 0)[0];
    assert Positions(s, m, p + |m|) == [];
    forall i | At(s, i, m) ensures i == p {
      if i > p { NoOverlap(s, p, m, i, m); }
    }
  }

  // A stretch that touches neither of the two markers holds none.
  lemma PieceIsFree(s: Bytes, from: int, to: int, p: int, q: int)
    requires 0 <= from <= to <= |s|
    requires forall i :: At(s, i, BEGIN_MARKER) ==> i == p
    requires forall i :: At(s, i, END_MARKER) ==> i == q
    requires p < from || to <= p
    requires q < from || to <= q
    ensures MarkerFree(s[from..to])
  {
    MarkersAreShaped();
    forall i ensures !At(s[from..to], i, BEGIN_MARKER) && !At(s[from..to], i, END_MARKER) {
      AtInSlice(s, from, to, i, BEGIN_MARKER);
      AtInSlice(s, from, to, i, END_MARKER);
    }
  }

  lemma AtInSlice(s: Bytes, from: int, to: int, i: int, m: Bytes)
    requires 0 <= from <= to <= |s| && m != ""
    ensures At(s[from..to], i, m) ==> At(s, from + i, m) && from <= from + i < to
  {
    if At(s[from..to], i, m) {
      var t := s[from..to];
      assert forall k :: 0 <= k < |t| ==> t[k] == s[from + k];
      assert t[i..i + |m|] == s[from + i..from + i + |m|];
    }
  }

  // --- Newlines and markers do not mix ---

  ghost predicate NewlinesOnly(s: Bytes) {
    forall c <- s :: IsNewline(c)
  }

  ghost predicate NewlineFree(s: Bytes) {
    forall c <- s :: !IsNewline(c)
  }

  lemma ContainsStep(c: char, s: Bytes, m: Bytes)
    ensures Contains([c] + s, m) <==> m <= [c] + s || Contains(s, m)
  {
    var t := [c] + s;
    if m <= t { assert At(t, 0, m); }
    if Contains(s, m) {
      var i :| At(s, i, m);
      AtInSuffix([c], s, i + 1, m);
    }
    if Contains(t, m) {
      var i :| At(t, i, m);
      if i == 0 { assert m == t[..|m|]; } else { AtInSuffix([c], s, i, m); }
    }
  }

  lemma {:induction false} NewlinesInFront(n: Bytes, s: Bytes, m: Bytes)
    requires NewlinesOnly(n) && NewlineFree(m) && m != ""
    ensures Contains(n + s, m) <==> Contains(s, m)
  {
    if n == "" {
      assert n + s == s;
    } else {
      NewlinesInFront(n[1..], s, m);
      assert n + s == [n[0]] + (n[1..] + s);
      ContainsStep(n[0], n[1..] + s, m);
      assert m[0] in m && n[0] in n;
    }
  }

  lemma NewlinesBehind(s: Bytes, n: Bytes, m: Bytes)
    requires NewlinesOnly(n) && NewlineFree(m) && m != ""
    ensures Contains(s + n, m) <==> Contains(s, m)
  {
    if Contains(s, m) {
      var i :| At(s, i, m);
      AtInPrefix(s, n, i, m);
    }
    if Contains(s + n, m) {
      var i :| At(s + n, i, m);
      if i + |m| <= |s| {
        AtInPrefix(s, n, i, m);
      } else {
        AtChar(s + n, i, m, i + |m| - 1);
        assert (s + n)[i + |m| - 1] in n;
      }
    }
  }

  lemma {:induction false} TranslateHead(s: Bytes, joinPairs: bool, cr: Bytes, lf: Bytes, m: Bytes)
    requires NewlinesOnly(cr) && NewlinesOnly(lf) && cr != "" && lf != "" && NewlineFree(m)
    ensures m <= Translate(s, joinPairs, cr, lf) <==> m <= s
    decreases |s|
  {
    if s != "" && m != "" {
      assert m[0] in m;
      if IsNewline(s[0]) {
        assert cr[0] in cr && lf[0] in lf;
        assert Translate(s, joinPairs, cr, lf)[0] == cr[0] || Translate(s, joinPairs, cr, lf)[0] == lf[0];
      } else {
        TranslateHead(s[1..], joinPairs, cr, lf, m[1..]);
        PrefixStep(m, s);
        PrefixStep(m, Translate(s, joinPairs, cr, lf));
        assert Translate(s, joinPairs, cr, lf)[1..] == Translate(s[1..], joinPairs, cr, lf);
      }
    }
  }

  lemma PrefixStep(m: Bytes, s: Bytes)
    requires m != "" && s != ""
    ensures m <= s <==> m[0] == s[0] && m[1..] <= s[1..]
  {
    if m[0] == s[0] && m[1..] <= s[1..] {
      assert m == [m[0]] + m[1..] && s == [s[0]] + s[1..];
    }
  }

  /** Replacing newlines by newlines neither makes nor breaks a marker. */
  lemma {:induction false} TranslateKeeps(s: Bytes, joinPairs: bool, cr: Bytes, lf: Bytes, m: Bytes)
    requires NewlinesOnly(cr) && NewlinesOnly(lf) && cr != "" && lf != "" && NewlineFree(m) && m != ""
    ensures Contains(Translate(s, joinPairs, cr, lf), m) <==> Contains(s, m)
    decreases |s|
  {
    if s == "" {
    } else if joinPairs && |s| > 1 && s[0] == '\r' && s[1] == '\n' {
      TranslateKeeps(s[2..], joinPairs, cr, lf, m);
      NewlinesInFront(lf, Translate(s[2..], joinPairs, cr, lf), m);
      NewlinesInFront(s[..2], s[2..], m);
      assert s == s[..2] + s[2..];
    } else {
      TranslateKeeps(s[1..], joinPairs, cr, lf, m);
      assert s == [s[0]] + s[1..];
      ContainsStep(s[0], s[1..], m);
      if IsNewline(s[0]) {
        NewlinesInFront([s[0]], s[1..], m);
        NewlinesInFront(cr, Translate(s[1..], joinPairs, cr, lf), m);
        NewlinesInFront(lf, Translate(s[1..], joinPairs, cr, lf), m);
      } else {
        ContainsStep(s[0], Translate(s[1..], joinPairs, cr, lf), m);
        TranslateHead(s, joinPairs, cr, lf, m);
      }
    }
  }

  lemma {:induction false} RStripLfIs(s: Bytes) returns (n: Bytes)
    ensures s == RStripLf(s) + n && NewlinesOnly(n)
  {
    if s != "" && s[|s| - 1] == '\n' {
      var k := RStripLfIs(s[..|s| - 1]);
      n := k + "\n";
      assert s == s[..|s| - 1] + "\n";
    } else {
      n := "";
      assert s == RStripLf(s) + n;
    }
  }

  lemma {:induction false} RStripIs(s: Bytes) returns (n: Bytes)
    ensures s == RStrip(s) + n && NewlinesOnly(n)
  {
    if s != "" && IsNewline(s[|s| - 1]) {
      var k := RStripIs(s[..|s| - 1]);
      n := k + [s[|s| - 1]];
      assert s == s[..|s| - 1] + [s[|s| - 1]];
    } else {
      n := "";
      assert s == RStrip(s) + n;
    }
  }

  lemma {:induction false} RStripAppended(s: Bytes, n: Bytes)
    requires NewlinesOnly(n)
    ensures RStrip(s + n) == RStrip(s)
  {
    if n == "" {
      assert s + n == s;
    } else {
      var c := n[|n| - 1];
      assert c in n;
      assert (s + n)[..|s + n| - 1] == s + n[..|n| - 1];
      assert forall d <- n[..|n| - 1] :: d in n;
      RStripAppended(s, n[..|n| - 1]);
    }
  }

  lemma RStripTwice(s: Bytes)
    ensures RStrip(RStrip(s)) == RStrip(s)
  {
    var n := RStripIs(s);
    RStripAppended(RStrip(s), n);
  }

  // --- The block ---

  // What stands between the markers.
  function Inside(managed: Bytes, newline: Bytes): Bytes {
    if Body(managed) != "" then newline + LfTo(Body(managed), newline) + newline else newline
  }

  lemma MarkersAreNewlineFree()
    ensures NewlineFree(BEGIN_MARKER) && NewlineFree(END_MARKER) && BEGIN_MARKER != "" && END_MARKER != ""
  {
    MarkersAreShaped();
  }

  lemma InsideKeeps(managed: Bytes, newline: Bytes, m: Bytes)
    requires newline == LF || newline == CRLF
    requires NewlineFree(m) && m != ""
    ensures Contains(Inside(managed, newline), m) <==> Contains(managed, m)
  {
    TranslateKeeps(managed, true, "\r", "\n", m);
    TranslateKeeps(CrLfToLf(managed), false, "\n", "\n", m);
    var n := RStripLfIs(CrToLf(CrLfToLf(managed)));
    NewlinesBehind(Body(managed), n, m);
    TranslateKeeps(Body(managed), false, "\r", newline, m);
    var text := LfTo(Body(managed), newline);
    NewlinesInFront(newline, text, m);
    NewlinesBehind(newline + text, newline, m);
    NewlinesInFront(newline, "", m);
    assert newline + "" == newline;
    assert !Contains("", m);
  }

  /** The text between the markers holds a marker if and only if the managed text does. */
  lemma InsideIsFreeIff(managed: Bytes, newline: Bytes)
    requires newline == LF || newline == CRLF
    ensures MarkerFree(Inside(managed, newline)) <==> MarkerFree(managed)
  {
    MarkersAreNewlineFree();
    InsideKeeps(managed, newline, BEGIN_MARKER);
    InsideKeeps(managed, newline, END_MARKER);
  }

  lemma BlockIs(managed: Bytes, newline: Bytes)
    requires newline == LF || newline == CRLF
    ensures ManagedBlock(managed, newline) == BEGIN_MARKER + Inside(managed, newline) + END_MARKER + newline
    ensures RStrip(ManagedBlock(managed, newline)) == BEGIN_MARKER + Inside(managed, newline) + END_MARKER
  {
    BlockUnfolds(managed, newline);
    EndsInBracket(BEGIN_MARKER + Inside(managed, newline));
    hide BEGIN_MARKER, END_MARKER, Inside, ManagedBlock;
    RStripAppended(BEGIN_MARKER + Inside(managed, newline) + END_MARKER, newline);
  }

  lemma BlockUnfolds(managed: Bytes, newline: Bytes)
    ensures ManagedBlock(managed, newline) == BEGIN_MARKER + Inside(managed, newline) + END_MARKER + newline
  {
    hide BEGIN_MARKER, END_MARKER, Body, LfTo;
    Regrouped(BEGIN_MARKER, newline, LfTo(Body(managed), newline), END_MARKER);
  }

  lemma Regrouped(p: Bytes, n: Bytes, t: Bytes, q: Bytes)
    ensures p + n + t + n + q + n == p + (n + t + n) + q + n
  {
  }

  lemma EndsInBracket(s: Bytes)
    ensures s + END_MARKER != "" && (s + END_MARKER)[|s + END_MARKER| - 1] == '>'
  {
    MarkersAreShaped();
  }

  // --- The newline a file is taken to use ---

  lemma NewlineForIs(s: Bytes)
    ensures NewlineFor(s) == CRLF <==> Contains(s, CRLF)
    ensures NewlineFor(s) == LF <==> !Contains(s, CRLF)
  {
  }

  lemma PairInConcat(a: Bytes, b: Bytes)
    ensures Contains(a + b, CRLF) <==>
      Contains(a, CRLF) || Contains(b, CRLF) || (a != "" && b != "" && a[|a| - 1] == '\r' && b[0] == '\n')
  {
    var s := a + b;
    if Contains(a, CRLF) { var i :| At(a, i, CRLF); AtInPrefix(a, b, i, CRLF); }
    if Contains(b, CRLF) { var i :| At(b, i, CRLF); AtInSuffix(a, b, i + |a|, CRLF); }
    if a != "" && b != "" && a[|a| - 1] == '\r' && b[0] == '\n' { assert At(s, |a| - 1, CRLF); }
    if Contains(s, CRLF) {
      var i :| At(s, i, CRLF);
      if i + 2 <= |a| { AtInPrefix(a, b, i, CRLF); }
      else if i >= |a| { AtInSuffix(a, b, i, CRLF); }
      else { AtChar(s, i, CRLF, i); AtChar(s, i, CRLF, i + 1); }
    }
  }

  lemma NoCarriageReturnNoPair(s: Bytes)
    requires '\r' !in s
    ensures !Contains(s, CRLF)
  {
    if Contains(s, CRLF) { var i :| At(s, i, CRLF); AtChar(s, i, CRLF, i); }
  }

  lemma {:induction false} TranslatedHasNoCarriageReturn(s: Bytes, joinPairs: bool, cr: Bytes)
    requires '\r' !in s || cr == "\n"
    ensures '\r' !in Translate(s, joinPairs, cr, "\n")
    decreases |s|
  {
    if s == "" {
    } else if joinPairs && |s| > 1 && s[0] == '\r' && s[1] == '\n' {
      TranslatedHasNoCarriageReturn(s[2..], joinPairs, cr);
    } else {
      TranslatedHasNoCarriageReturn(s[1..], joinPairs, cr);
    }
  }

  lemma InsideWithLf(managed: Bytes)
    ensures '\r' !in Inside(managed, LF)
  {
    TranslatedHasNoCarriageReturn(CrLfToLf(managed), false, "\n");
    var n := RStripLfIs(CrToLf(CrLfToLf(managed)));
    TranslatedHasNoCarriageReturn(Body(managed), false, "\r");
  }

  // The block itself shows the newline it was written with.
  lemma BlockShowsNewline(managed: Bytes, newline: Bytes)
    requires newline == LF || newline == CRLF
    ensures var core := BEGIN_MARKER + Inside(managed, newline) + END_MARKER;
      && core[0] == '<' && core[|core| - 1] == '>'
      && (Contains(core, CRLF) <==> newline == CRLF)
  {
    MarkersAreShaped();
    var inside := Inside(managed, newline);
    var core := BEGIN_MARKER + inside + END_MARKER;
    if newline == CRLF {
      assert inside[..2] == CRLF;
      assert At(inside, 0, CRLF);
      PairInConcat(BEGIN_MARKER, inside);
      PairInConcat(BEGIN_MARKER + inside, END_MARKER);
    } else {
      InsideWithLf(managed);
      assert '\r' !in BEGIN_MARKER && '\r' !in END_MARKER;
      NoCarriageReturnNoPair(core);
    }
  }

  // --- Merging and stripping, in terms of the parts ---

  /** The one shape of file whose newline choice the merge flips: a lone CR at its end, and no CRLF anywhere. */
  predicate FlipsNewline(original: Bytes) {
    && Find(original, BEGIN_MARKER, 0) < 0 && Find(original, END_MARKER, 0) < 0
    && original != "" && original[|original| - 1] == '\r'
    && Find(original, CRLF, 0) < 0
  }

  function Separator(original: Bytes): Bytes {
    if original == "" then ""
    else if IsNewline(original[|original| - 1]) then NewlineFor(original)
    else NewlineFor(original) + NewlineFor(original)
  }

  lemma Glued(a: Bytes, x: Bytes, b: Bytes)
    ensures a + (BEGIN_MARKER + x + END_MARKER + b) == Around(a, x, b)
    ensures a + (BEGIN_MARKER + x + END_MARKER) + b == Around(a, x, b)
  {
    hide BEGIN_MARKER, END_MARKER;
  }

  // What Merge does with a file that has no marker, and with one that has a pair of them.
  lemma MergeUnfolds(original: Bytes, managed: Bytes)
    ensures var newline := NewlineFor(original);
      var begins, ends := Positions(original, BEGIN_MARKER, 0), Positions(original, END_MARKER, 0);
      && (begins == [] && ends == [] ==>
          Merge(Some(original), managed) == Ok(original + Separator(original) + ManagedBlock(managed, newline)))
      && (|begins| == 1 && |ends| == 1 && begins[0] < ends[0] ==>
          Merge(Some(original), managed)
          == Ok(original[..begins[0]] + RStrip(ManagedBlock(managed, newline)) + original[ends[0] + |END_MARKER|..]))
      && (!(begins == [] && ends == []) && !(|begins| == 1 && |ends| == 1 && begins[0] < ends[0]) ==>
          Merge(Some(original), managed).Err?)
  {
    hide ManagedBlock, Find, Inside, NewlineFor, RStrip;
    if original == "" {
      assert "" + "" + ManagedBlock(managed, NewlineFor("")) == ManagedBlock(managed, NewlineFor(""));
    }
  }

  lemma MergeIntoFree(original: Bytes, managed: Bytes)
    requires MarkerFree(original)
    ensures var newline := NewlineFor(original);
      Merge(Some(original), managed) == Ok(Around(original + Separator(original), Inside(managed, newline), newline))
  {
    assert BEGIN_MARKER != "" && END_MARKER != "" by { MarkersAreShaped(); }
    hide Merge, ManagedBlock, Inside, NewlineFor, Around, RStrip, Separator;
    FreeHasNoPositions(original, BEGIN_MARKER);
    FreeHasNoPositions(original, END_MARKER);
    NewlineForIs(original);
    MergeUnfolds(original, managed);
    BlockIs(managed, NewlineFor(original));
    Glued(original + Separator(original), Inside(managed, NewlineFor(original)), NewlineFor(original));
  }

  lemma MergeIntoParts(original: Bytes, a: Bytes, x: Bytes, b: Bytes, managed: Bytes)
    requires Parts(original, a, x, b)
    ensures Merge(Some(original), managed) == Ok(Around(a, Inside(managed, NewlineFor(original)), b))
  {
    hide Merge, ManagedBlock, Inside, NewlineFor, Around, RStrip, Separator, Positions, Find;
    MarkersAreShaped();
    PartsPositions(original, a, x, b);
    SingletonPositions(original, BEGIN_MARKER, |a|);
    SingletonPositions(original, END_MARKER, |a| + |BEGIN_MARKER| + |x|);
    NewlineForIs(original);
    MergeUnfolds(original, managed);
    BlockIs(managed, NewlineFor(original));
    PiecesOf(a, x, b);
    Glued(a, Inside(managed, NewlineFor(original)), b);
  }

  lemma PiecesOf(a: Bytes, x: Bytes, b: Bytes)
    ensures var s := Around(a, x, b);
      s[..|a|] == a && s[|a| + |BEGIN_MARKER| + |x| + |END_MARKER|..] == b
  {
    hide BEGIN_MARKER, END_MARKER;
  }

  lemma StripOfParts(s: Bytes, a: Bytes, x: Bytes, b: Bytes)
    requires Parts(s, a, x, b)
    ensures SourceContent(s) == RStrip(RStrip(a) + SkipNewline(b)) + NewlineFor(s)
  {
    MarkersAreShaped();
    PartsPositions(s, a, x, b);
    SingletonPositions(s, BEGIN_MARKER, |a|);
    SingletonPositions(s, END_MARKER, |a| + |BEGIN_MARKER| + |x|);
    PiecesOf(a, x, b);
    hide Find, Positions, RStrip, NewlineFor, SkipNewline;
  }

  lemma StripOfFree(s: Bytes)
    requires MarkerFree(s)
    ensures SourceContent(s) == RStrip(s) + NewlineFor(s)
  {
    MarkersAreShaped();
    FreeHasNoPositions(s, BEGIN_MARKER);
    FreeHasNoPositions(s, END_MARKER);
  }

  lemma FreeAppended(s: Bytes, n: Bytes)
    requires MarkerFree(s) && NewlinesOnly(n)
    ensures MarkerFree(s + n)
  {
    MarkersAreNewlineFree();
    NewlinesBehind(s, n, BEGIN_MARKER);
    NewlinesBehind(s, n, END_MARKER);
  }

  // The merged file of a marker-free original, in parts.
  lemma MergedFreeParts(original: Bytes, managed: Bytes)
    requires MarkerFree(original) && MarkerFree(managed)
    ensures var newline := NewlineFor(original);
      Parts(Around(original + Separator(original), Inside(managed, newline), newline),
            original + Separator(original), Inside(managed, newline), newline)
  {
    var newline := NewlineFor(original);
    InsideIsFreeIff(managed, newline);
    FreeAppended(original, Separator(original));
    assert MarkerFree("") by { MarkersAreShaped(); }
    FreeAppended("", newline);
    assert "" + newline == newline;
  }

  lemma MergedPartsParts(original: Bytes, a: Bytes, x: Bytes, b: Bytes, managed: Bytes)
    requires Parts(original, a, x, b) && MarkerFree(managed)
    ensures var inside := Inside(managed, NewlineFor(original)); Parts(Around(a, inside, b), a, inside, b)
  {
    InsideIsFreeIff(managed, NewlineFor(original));
  }

  lemma PartsDoNotFlip(original: Bytes, a: Bytes, x: Bytes, b: Bytes)
    requires Parts(original, a, x, b)
    ensures !FlipsNewline(original) && !MarkerFree(original)
  {
    MarkersAreShaped();
    PartsPositions(original, a, x, b);
    SingletonPositions(original, BEGIN_MARKER, |a|);
    assert At(original, |a|, BEGIN_MARKER);
  }

  // Around an existing block, the newline choice survives the merge.
  lemma PartsKeepNewline(original: Bytes, a: Bytes, x: Bytes, b: Bytes, managed: Bytes)
    requires Parts(original, a, x, b)
    ensures NewlineFor(Around(a, Inside(managed, NewlineFor(original)), b)) == NewlineFor(original)
  {
    var newline := NewlineFor(original);
    var inside := Inside(managed, newline);
    BlockShowsNewline(managed, newline);
    PairAround(a, inside, b);
    PairAround(a, x, b);
    NewlineForIs(original);
    NewlineForIs(Around(a, inside, b));
  }

  // A CRLF in such a file is in one of the three pieces.
  lemma PairAround(a: Bytes, x: Bytes, b: Bytes)
    ensures Contains(Around(a, x, b), CRLF) <==>
      Contains(a, CRLF) || Contains(BEGIN_MARKER + x + END_MARKER, CRLF) || Contains(b, CRLF)
  {
    var core := BEGIN_MARKER + x + END_MARKER;
    MarkersAreShaped();
    assert core[0] == '<' && core[|core| - 1] == '>';
    assert Around(a, x, b) == a + core + b;
    PairInConcat(a, core);
    PairInConcat(a + core, b);
  }

  // After a marker-free original, it survives unless the original ends in a lone CR.
  lemma FreeKeepsNewlineIff(original: Bytes, managed: Bytes)
    requires MarkerFree(original)
    ensures var newline := NewlineFor(original);
      NewlineFor(Around(original + Separator(original), Inside(managed, newline), newline)) == newline <==>
        !FlipsNewline(original)
  {
    var newline := NewlineFor(original);
    var a := original + Separator(original);
    BlockShowsNewline(managed, newline);
    PairAround(a, Inside(managed, newline), newline);
    PairInConcat(original, Separator(original));
    NewlineForIs(original);
    NewlineForIs(Around(a, Inside(managed, newline), newline));
    MarkersAreShaped();
    FreeHasNoPositions(original, BEGIN_MARKER);
    FreeHasNoPositions(original, END_MARKER);
    if newline == LF {
      NoCarriageReturnNoPair(LF);
      NoCarriageReturnNoPair(Separator(original));
    }
  }

  // --- The theorems ---

  /** Merging accepts exactly the files with no marker, or with one block. */
  lemma MergeAcceptsIff(original: Bytes, managed: Bytes)
    ensures Merge(Some(original), managed).Ok? <==> WellFormed(original)
  {
    MarkersAreShaped();
    var begins, ends := Positions(original, BEGIN_MARKER, 0), Positions(original, END_MARKER, 0);
    if MarkerFree(original) {
      MergeIntoFree(original, managed);
    } else if a, x, b :| Parts(original, a, x, b) {
      MergeIntoParts(original, a, x, b, managed);
    } else {
      if |begins| == 1 && |ends| == 1 && begins[0] < ends[0] { var a, x, b := PartsOf(original); }
      NoPositionsMeansFree(original, BEGIN_MARKER);
      NoPositionsMeansFree(original, END_MARKER);
    }
  }

  lemma NoPositionsMeansFree(s: Bytes, m: Bytes)
    requires m != ""
    ensures Positions(s, m, 0) == [] <==> !Contains(s, m)
  {
    if Contains(s, m) { var i :| At(s, i, m); }
  }

  /** Stripping undoes merging, for every file it accepts, unless the merge flips the file's newline. */
  lemma StripUndoesMergeIff(original: Bytes, managed: Bytes)
    requires WellFormed(original) && MarkerFree(managed)
    ensures Merge(Some(original), managed).Ok?
    ensures SourceContent(Merge(Some(original), managed).value) == SourceContent(original) <==> !FlipsNewline(original)
  {
    if MarkerFree(original) {
      StripUndoesFirstMerge(original, managed);
    } else {
      var a, x, b :| Parts(original, a, x, b);
      StripUndoesLaterMerge(original, a, x, b, managed);
    }
  }

  lemma StripUndoesFirstMerge(original: Bytes, managed: Bytes)
    requires MarkerFree(original) && MarkerFree(managed)
    ensures Merge(Some(original), managed).Ok?
    ensures var merged := Merge(Some(original), managed).value;
      SourceContent(merged) == RStrip(original) + NewlineFor(merged)
    ensures SourceContent(Merge(Some(original), managed).value) == SourceContent(original) <==> !FlipsNewline(original)
  {
    hide Around, Inside, Merge, SourceContent, FlipsNewline, MarkerFree, NewlineFor, RStrip, Find;
    var newline := NewlineFor(original);
    var a, inside := original + Separator(original), Inside(managed, newline);
    var merged := Around(a, inside, newline);
    MergeIntoFree(original, managed);
    MergedFreeParts(original, managed);
    StripOfParts(merged, a, inside, newline);
    StripOfFree(original);
    FreeKeepsNewlineIff(original, managed);
    NewlineForIs(original);
    SeparatorIsNewlines(original);
    RStripAppended(original, Separator(original));
    RStripTwice(original);
    assert SkipNewline(newline) == "";
    assert RStrip(original) + "" == RStrip(original);
    NewlinesTell(RStrip(original), NewlineFor(merged), newline);
  }

  lemma SeparatorIsNewlines(original: Bytes)
    ensures NewlinesOnly(Separator(original))
  {
  }

  lemma StripUndoesLaterMerge(original: Bytes, a: Bytes, x: Bytes, b: Bytes, managed: Bytes)
    requires Parts(original, a, x, b) && MarkerFree(managed)
    ensures Merge(Some(original), managed).Ok?
    ensures SourceContent(Merge(Some(original), managed).value) == SourceContent(original) && !FlipsNewline(original)
  {
    hide Around, Inside, Merge, SourceContent, FlipsNewline, Parts, NewlineFor, RStrip, Find;
    var inside := Inside(managed, NewlineFor(original));
    MergeIntoParts(original, a, x, b, managed);
    MergedPartsParts(original, a, x, b, managed);
    StripOfParts(Around(a, inside, b), a, inside, b);
    StripOfParts(original, a, x, b);
    PartsKeepNewline(original, a, x, b, managed);
    PartsDoNotFlip(original, a, x, b);
  }

  lemma NewlinesTell(s: Bytes, n: Bytes, k: Bytes)
    ensures s + n == s + k <==> n == k
  {
    if s + n == s + k { assert n == (s + n)[|s|..] == (s + k)[|s|..] == k; }
  }

  /** A file that holds nothing but the block counts as no source at all, just like the file it replaced. */
  lemma BlockAloneIsBlank(managed: Bytes)
    requires MarkerFree(managed)
    ensures Merge(None, managed) == Merge(Some(""), managed) && Merge(None, managed).Ok?
    ensures Blank(SourceContent(Merge(None, managed).value)) && Blank(SourceContent(""))
  {
    MarkersAreShaped();
    assert MarkerFree("");
    StripOfFree("");
    StripUndoesFirstMerge("", managed);
  }

  /** A merge leaves one block, which a merge accepts again, if and only if the managed text holds no marker. */
  lemma MergedIsWellFormedIff(original: Bytes, managed: Bytes)
    requires WellFormed(original)
    ensures Merge(Some(original), managed).Ok?
    ensures WellFormed(Merge(Some(original), managed).value) <==> MarkerFree(managed)
  {
    hide Around, Inside, Merge, NewlineFor, Find;
    var newline := NewlineFor(original);
    NewlineForIs(original);
    if MarkerFree(original) {
      MergeIntoFree(original, managed);
      if MarkerFree(managed) { MergedFreeParts(original, managed); }
      else { TwoOfAKind(original + Separator(original), managed, newline, newline); }
    } else {
      var a, x, b :| Parts(original, a, x, b);
      MergeIntoParts(original, a, x, b, managed);
      if MarkerFree(managed) { MergedPartsParts(original, a, x, b, managed); }
      else { TwoOfAKind(a, managed, newline, b); }
    }
  }

  // The block's own markers are there whatever stands between them.
  lemma BlockMarkers(a: Bytes, x: Bytes, b: Bytes)
    ensures At(Around(a, x, b), |a|, BEGIN_MARKER)
    ensures At(Around(a, x, b), |a| + |BEGIN_MARKER| + |x|, END_MARKER)
    ensures forall i, m :: At(x, i, m) ==> At(Around(a, x, b), |a| + |BEGIN_MARKER| + i, m)
  {
    hide BEGIN_MARKER, END_MARKER, At;
    ThreeWays(a, BEGIN_MARKER, x, END_MARKER, b);
    AtStart(BEGIN_MARKER);
    AtStart(END_MARKER);
    AtMiddle(a, BEGIN_MARKER, x + END_MARKER + b, 0, BEGIN_MARKER);
    AtMiddle(a + BEGIN_MARKER + x, END_MARKER, b, 0, END_MARKER);
    forall i, m | At(x, i, m) ensures At(Around(a, x, b), |a| + |BEGIN_MARKER| + i, m) {
      AtMiddle(a + BEGIN_MARKER, x, END_MARKER + b, i, m);
    }
  }

  lemma AtStart(m: Bytes)
    ensures At(m, 0, m)
  {
  }

  lemma ThreeWays(a: Bytes, m: Bytes, x: Bytes, n: Bytes, b: Bytes)
    ensures a + m + x + n + b == a + m + (x + n + b) == (a + m) + x + (n + b)
  {
  }

  lemma AtMiddle(a: Bytes, x: Bytes, b: Bytes, i: int, m: Bytes)
    requires At(x, i, m)
    ensures At(a + x + b, |a| + i, m)
  {
    AtInSuffix(a, x, |a| + i, m);
    AtInPrefix(a + x, b, |a| + i, m);
  }

  lemma TwoOfAKind(a: Bytes, managed: Bytes, newline: Bytes, b: Bytes)
    requires (newline == LF || newline == CRLF) && !MarkerFree(managed)
    ensures !WellFormed(Around(a, Inside(managed, newline), b))
  {
    var inside := Inside(managed, newline);
    var merged := Around(a, inside, b);
    InsideIsFreeIff(managed, newline);
    BlockMarkers(a, inside, b);
    MarkersAreShaped();
    hide Around, Inside;
    if a', x', b' :| Parts(merged, a', x', b') {
      PartsPositions(merged, a', x', b');
      assert false;
    }
  }

  /** Merging twice comes to merging once with the last text, again unless the newline flips. */
  lemma LastMergeWinsIff(original: Bytes, first: Bytes, last: Bytes)
    requires WellFormed(original) && MarkerFree(first)
    ensures Merge(Some(original), first).Ok? && Merge(Some(original), last).Ok?
    ensures Merge(Some(Merge(Some(original), first).value), last) == Merge(Some(original), last) <==>
      !FlipsNewline(original)
  {
    hide Around, Inside, Merge, NewlineFor, Find, FlipsNewline;
    var newline := NewlineFor(original);
    NewlineForIs(original);
    if MarkerFree(original) {
      MergeIntoFree(original, first);
      MergeIntoFree(original, last);
      MergedFreeParts(original, first);
      var a := original + Separator(original);
      var merged := Around(a, Inside(first, newline), newline);
      NewlineForIs(merged);
      MergeIntoParts(merged, a, Inside(first, newline), newline, last);
      FreeKeepsNewlineIff(original, first);
      if NewlineFor(merged) != newline { InsideTells(a, last, NewlineFor(merged), newline, newline); }
    } else {
      var a, x, b :| Parts(original, a, x, b);
      MergeIntoParts(original, a, x, b, first);
      MergeIntoParts(original, a, x, b, last);
      MergedPartsParts(original, a, x, b, first);
      MergeIntoParts(Around(a, Inside(first, newline), b), a, Inside(first, newline), b, last);
      PartsKeepNewline(original, a, x, b, first);
      PartsDoNotFlip(original, a, x, b);
    }
  }

  // Blocks written with different newlines differ right after the opening marker.
  lemma InsideTells(a: Bytes, managed: Bytes, n: Bytes, k: Bytes, b: Bytes)
    requires (n == LF && k == CRLF) || (n == CRLF && k == LF)
    ensures Around(a, Inside(managed, n), b) != Around(a, Inside(managed, k), b)
  {
    hide BEGIN_MARKER, END_MARKER;
    var i := |a + BEGIN_MARKER|;
    assert Around(a, Inside(managed, n), b)[i] == Inside(managed, n)[0] == n[0];
    assert Around(a, Inside(managed, k), b)[i] == Inside(managed, k)[0] == k[0];
  }

  /** Every byte outside the block is kept, in order, and the block is the only one. */
  lemma OutsideIsKept(original: Bytes, managed: Bytes)
    requires WellFormed(original) && MarkerFree(managed)
    ensures Merge(Some(original), managed).Ok?
    ensures var merged := Merge(Some(original), managed).value;
      if MarkerFree(original) then
        exists a, x, b :: Parts(merged, a, x, b) && original <= a && NewlinesOnly(a[|original|..]) && NewlinesOnly(b)
      else
        exists a, x, x', b :: Parts(original, a, x, b) && Parts(merged, a, x', b)
  {
    hide Around, Inside, Merge, NewlineFor, Find;
    var newline := NewlineFor(original);
    NewlineForIs(original);
    if MarkerFree(original) {
      MergeIntoFree(original, managed);
      MergedFreeParts(original, managed);
      SeparatorIsNewlines(original);
      assert (original + Separator(original))[|original|..] == Separator(original);
    } else {
      var a, x, b :| Parts(original, a, x, b);
      MergeIntoParts(original, a, x, b, managed);
      MergedPartsParts(original, a, x, b, managed);
    }
  }

  // --- What is written, line by line ---

  /** The lines of a text, whatever ends them; the last one is not ended. */
  function Lines(s: Bytes): (lines: seq<Bytes>)
    ensures lines != []
  {
    if s == "" then [""]
    else if |s| > 1 && s[0] == '\r' && s[1] == '\n' then [""] + Lines(s[2..])
    else if IsNewline(s[0]) then [""] + Lines(s[1..])
    else [[s[0]] + Lines(s[1..])[0]] + Lines(s[1..])[1..]
  }

  // Without the empty lines at the end.
  function Trimmed(lines: seq<Bytes>): seq<Bytes> {
    if lines != [] && lines[|lines| - 1] == "" then Trimmed(lines[..|lines| - 1]) else lines
  }

  // Each line, ended.
  function Ended(lines: seq<Bytes>, newline: Bytes): Bytes {
    if lines == [] then "" else Ended(lines[..|lines| - 1], newline) + lines[|lines| - 1] + newline
  }

  // Lines with newlines between them.
  function Joined(lines: seq<Bytes>, newline: Bytes): Bytes {
    if lines == [] then ""
    else if |lines| == 1 then lines[0]
    else lines[0] + newline + Joined(lines[1..], newline)
  }

  lemma {:induction false} LinesAreNewlineFree(s: Bytes)
    ensures forall line <- Lines(s) :: NewlineFree(line)
  {
    if s != "" {
      if |s| > 1 && s[0] == '\r' && s[1] == '\n' {
        LinesAreNewlineFree(s[2..]);
      } else {
        LinesAreNewlineFree(s[1..]);
        var rest := Lines(s[1..]);
        assert rest[0] in rest && forall line <- rest[1..] :: line in rest;
      }
    }
  }

  // Both replacements at once.
  lemma {:induction false} ReplacedIsJoined(s: Bytes)
    ensures CrToLf(CrLfToLf(s)) == Joined(Lines(s), LF)
  {
    if s == "" {
    } else if |s| > 1 && s[0] == '\r' && s[1] == '\n' {
      ReplacedIsJoined(s[2..]);
      ReplacedStep('\n', CrLfToLf(s[2..]));
      assert CrLfToLf(s) == ['\n'] + CrLfToLf(s[2..]);
      JoinedStep(Lines(s[2..]));
    } else {
      ReplacedIsJoined(s[1..]);
      ReplacedStep(s[0], CrLfToLf(s[1..]));
      assert CrLfToLf(s) == [s[0]] + CrLfToLf(s[1..]);
      if IsNewline(s[0]) { JoinedStep(Lines(s[1..])); } else { JoinedLonger(s[0], Lines(s[1..])); }
    }
  }

  lemma ReplacedStep(c: char, s: Bytes)
    ensures CrToLf([c] + s) == [if IsNewline(c) then '\n' else c] + CrToLf(s)
  {
    assert ([c] + s)[1..] == s;
  }

  lemma JoinedStep(lines: seq<Bytes>)
    requires lines != []
    ensures Joined([""] + lines, LF) == ['\n'] + Joined(lines, LF)
  {
    assert ([""] + lines)[1..] == lines;
  }

  lemma JoinedLonger(c: char, lines: seq<Bytes>)
    requires lines != []
    ensures Joined([[c] + lines[0]] + lines[1..], LF) == [c] + Joined(lines, LF)
  {
    var more := [[c] + lines[0]] + lines[1..];
    assert more[1..] == lines[1..];
    if |lines| > 1 {
      assert [c] + (lines[0] + LF + Joined(lines[1..], LF)) == [c] + lines[0] + LF + Joined(lines[1..], LF);
    }
  }

  lemma {:induction false} JoinedAppends(lines: seq<Bytes>, line: Bytes, newline: Bytes)
    requires lines != []
    ensures Joined(lines + [line], newline) == Joined(lines, newline) + newline + line
  {
    if |lines| == 1 {
      assert (lines + [line])[1..] == [line];
    } else {
      JoinedAppends(lines[1..], line, newline);
      assert (lines + [line])[1..] == lines[1..] + [line];
      assert lines[0] + newline + (Joined(lines[1..], newline) + newline + line)
        == (lines[0] + newline + Joined(lines[1..], newline)) + newline + line;
    }
  }

  lemma {:induction false} JoinedIsEnded(lines: seq<Bytes>, newline: Bytes)
    requires lines != []
    ensures Joined(lines, newline) + newline == Ended(lines, newline)
  {
    var front, last := lines[..|lines| - 1], lines[|lines| - 1];
    assert lines == front + [last];
    if front != [] {
      JoinedIsEnded(front, newline);
      JoinedAppends(front, last, newline);
      assert Joined(front, newline) + newline + last + newline == (Joined(front, newline) + newline) + last + newline;
    } else {
      assert "" + last + newline == last + newline && Ended(front, newline) == "";
    }
  }

  // Newlines at the end go with the empty lines they end.
  lemma {:induction false} StrippedIsTrimmed(lines: seq<Bytes>)
    requires forall line <- lines :: NewlineFree(line)
    ensures RStripLf(Joined(lines, LF)) == Joined(Trimmed(lines), LF)
  {
    if lines != [] {
      var front, last := lines[..|lines| - 1], lines[|lines| - 1];
      var s := Joined(lines, LF);
      assert lines == front + [last] && last in lines;
      if front != [] { JoinedAppends(front, last, LF); }
      if last == "" {
        assert forall line <- front :: line in lines;
        StrippedIsTrimmed(front);
        if front != [] { assert s == Joined(front, LF) + "\n" && s[..|s| - 1] == Joined(front, LF); }
      } else {
        assert s[|s| - 1] == last[|last| - 1] && last[|last| - 1] in last;
      }
    }
  }

  lemma {:induction false} LfToOfConcat(s: Bytes, t: Bytes, newline: Bytes)
    ensures LfTo(s + t, newline) == LfTo(s, newline) + LfTo(t, newline)
  {
    if s == "" {
      assert s + t == t;
    } else {
      LfToOfConcat(s[1..], t, newline);
      assert (s + t)[1..] == s[1..] + t;
    }
  }

  lemma {:induction false} LfToOfLine(s: Bytes, newline: Bytes)
    requires NewlineFree(s)
    ensures LfTo(s, newline) == s
  {
    if s != "" {
      LfToOfLine(s[1..], newline);
      assert s == [s[0]] + s[1..] && s[0] in s;
    }
  }

  lemma {:induction false} LfToOfJoined(lines: seq<Bytes>, newline: Bytes)
    requires forall line <- lines :: NewlineFree(line)
    ensures LfTo(Joined(lines, LF), newline) == Joined(lines, newline)
  {
    hide LfTo;
    if lines != [] {
      assert lines[0] in lines;
      LfToOfLine(lines[0], newline);
      if |lines| > 1 {
        LfToOfJoined(lines[1..], newline);
        LfToOfConcat(lines[0] + LF, Joined(lines[1..], LF), newline);
        LfToOfConcat(lines[0], LF, newline);
        assert LfTo(LF, newline) == newline by { NewlineAlone(newline); }
      }
    } else {
      assert LfTo("", newline) == "" by { NewlineAlone(newline); }
    }
  }

  lemma NewlineAlone(newline: Bytes)
    ensures LfTo(LF, newline) == newline && LfTo("", newline) == ""
  {
    assert LF != "" && LF[0] == '\n' && LF[1..] == "";
    assert Translate(LF, false, "\r", newline) == newline + Translate(LF[1..], false, "\r", newline);
    assert newline + "" == newline;
  }

  lemma {:induction false} TrimmedIsFree(lines: seq<Bytes>)
    requires forall line <- lines :: NewlineFree(line)
    ensures forall line <- Trimmed(lines) :: NewlineFree(line)
    ensures Joined(Trimmed(lines), LF) == "" <==> Trimmed(lines) == []
  {
    if lines != [] {
      var front, last := lines[..|lines| - 1], lines[|lines| - 1];
      assert lines == front + [last];
      if last == "" { TrimmedIsFree(front); }
      else if front != [] { JoinedAppends(front, last, LF); }
    }
  }

  /** Between the markers stand the lines of the managed text, each on a line of its own; empty ones at the end are left
      out. */
  lemma InsideIs(managed: Bytes, newline: Bytes)
    ensures Inside(managed, newline) == newline + Ended(Trimmed(Lines(managed)), newline)
  {
    var lines := Lines(managed);
    LinesAreNewlineFree(managed);
    ReplacedIsJoined(managed);
    StrippedIsTrimmed(lines);
    TrimmedIsFree(lines);
    assert Body(managed) == Joined(Trimmed(lines), LF);
    hide Lines, Trimmed, LfTo, Body, Joined, CrToLf, CrLfToLf, RStripLf;
    if Trimmed(lines) != [] {
      LfToOfJoined(Trimmed(lines), newline);
      JoinedIsEnded(Trimmed(lines), newline);
      assert newline + Joined(Trimmed(lines), newline) + newline == newline
        + (Joined(Trimmed(lines), newline) + newline);
    } else {
      assert newline + "" == newline;
    }
  }

  /** A merge, from end to end. A file without markers keeps every byte and gets the block at its end, after an empty
      line; in a file with one block, what stands between the markers is replaced. The newline is the file's own. */
  lemma MergedIs(original: Bytes, managed: Bytes)
    ensures var n := if Contains(original, "\r\n") then "\r\n" else "\n";
      var block := BEGIN_MARKER + (n + Ended(Trimmed(Lines(managed)), n)) + END_MARKER;
      var gap := if original == "" then ""
        else if original[|original| - 1] == '\r' || original[|original| - 1] == '\n' then n else n + n;
      && (MarkerFree(original) ==> Merge(Some(original), managed) == Ok(original + gap + block + n))
      && forall a, x, b :: Parts(original, a, x, b) ==> Merge(Some(original), managed) == Ok(a + block + b)
  {
    var n := NewlineFor(original);
    var block := BEGIN_MARKER + (n + Ended(Trimmed(Lines(managed)), n)) + END_MARKER;
    NewlineForIs(original);
    InsideIs(managed, n);
    hide Merge, Inside, Ended, Trimmed, Lines, Parts;
    if MarkerFree(original) {
      MergeIntoFree(original, managed);
      Glued(original + Separator(original), Inside(managed, n), n);
    }
    forall a, x, b | Parts(original, a, x, b) ensures Merge(Some(original), managed) == Ok(a + block + b) {
      MergeIntoParts(original, a, x, b, managed);
      Glued(a, Inside(managed, n), b);
    }
  }

  ghost predicate EndsInText(s: Bytes) { s == "" || !IsNewline(s[|s| - 1]) }

  lemma {:induction false} RStripStops(s: Bytes)
    ensures EndsInText(RStrip(s))
  {
    if s != "" && IsNewline(s[|s| - 1]) { RStripStops(s[..|s| - 1]); }
  }

  // s is t without the newlines at its end.
  ghost predicate Stripped(s: Bytes, t: Bytes) { EndsInText(s) && s <= t && NewlinesOnly(t[|s|..]) }

  lemma RStripIsStripped(t: Bytes)
    ensures Stripped(RStrip(t), t)
  {
    RStripStops(t);
    var n := RStripIs(t);
    assert t[|RStrip(t)|..] == n;
  }

  /** What is hashed of a file: its text without the block, if it has one, and without the newline that ends the block;
      and one newline at the end, whatever stood there. Any other file with markers is hashed as it is. */
  lemma SourceIs(content: Bytes)
    ensures var n := if Contains(content, "\r\n") then "\r\n" else "\n";
      && (MarkerFree(content) ==>
            exists text :: Stripped(text, content) && SourceContent(content) == text + n)
      && (forall a, x, b :: Parts(content, a, x, b) ==>
            exists front, text ::
              && Stripped(front, a)
              && Stripped(text, front
                + b[if "\r\n" <= b then 2 else if b != "" && b[0] in {'\r', '\n'} then 1 else 0..])
              && SourceContent(content) == text + n)
    ensures !Contains(content, BEGIN_MARKER) && Contains(content, END_MARKER) ==> SourceContent(content) == content
    ensures Contains(content, BEGIN_MARKER) && !Contains(content, END_MARKER) ==> SourceContent(content) == content
  {
    NewlineForIs(content);
    OneKindIsKept(content);
    hide Parts, Stripped, SourceContent, RStrip, BEGIN_MARKER, END_MARKER;
    if MarkerFree(content) {
      StripOfFree(content);
      RStripIsStripped(content);
    }
    forall a, x, b | Parts(content, a, x, b)
      ensures exists front, text ::
        && Stripped(front, a)
        && Stripped(text, front + b[if "\r\n" <= b then 2 else if b != "" && b[0] in {'\r', '\n'} then 1 else 0..])
        && SourceContent(content) == text + NewlineFor(content)
    {
      StripOfParts(content, a, x, b);
      RStripIsStripped(a);
      RStripIsStripped(RStrip(a) + SkipNewline(b));
      SkippedIs(b);
    }
  }

  lemma SkippedIs(b: Bytes)
    ensures SkipNewline(b) == b[if "\r\n" <= b then 2 else if b != "" && b[0] in {'\r', '\n'} then 1 else 0..]
  {
  }

  lemma OneKindIsKept(content: Bytes)
    ensures !Contains(content, BEGIN_MARKER) && Contains(content, END_MARKER) ==> SourceContent(content) == content
    ensures Contains(content, BEGIN_MARKER) && !Contains(content, END_MARKER) ==> SourceContent(content) == content
  {
    hide BEGIN_MARKER, END_MARKER, RStrip, NewlineFor;
    MarkersAreShaped();
  }
}
