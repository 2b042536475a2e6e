/** The digest of a repository's sources: what src/vibe/inspect/repository.py feeds to SHA-256. */
module SourceDigest {
  import opened Wrappers
  import opened Ordering
  import opened Trees
  import opened AgentsMd
  import opened AgentsMdTheorems
  import ChangeSets

  /** A relative posix path and the bytes of the file there. */
  datatype Entry = Entry(path: Bytes, content: Bytes)

  datatype DigestError = TooLong

  const AGENTS: Bytes := "AGENTS.md"

  // --- Which files are sources ---

  predicate IsSourcePath(path: Bytes) {
    var parts := Split(path);
    && ".git" !in parts && parts[0] != ".ai-project"
    && !([".agents", "skills"] <= parts)
    && !(".vibe-init-checkpoints.sqlite3" <= parts[|parts| - 1])
  }

  /** Which files are no sources: those in or at anything called .git, in .ai-project or .agents/skills at the top, and
      the database of checkpoints with the files beside it. */
  lemma IsSourceIff(p: Path)
    requires p != [] && forall part <- p :: '/' !in part
    ensures !IsSourcePath(ChangeSets.Posix(p)) <==>
      || (exists i :: 0 <= i < |p| && p[i] == ".git")
      || p[0] == ".ai-project"
      || (|p| >= 2 && p[0] == ".agents" && p[1] == "skills")
      || (var name := p[|p| - 1]; var db := ".vibe-init-checkpoints.sqlite3"; |name| >= |db| && name[..|db|] == db)
  {
    ChangeSets.SplitOfPosix(p);
    if |p| >= 2 && p[0] == ".agents" && p[1] == "skills" { assert p[..2] == [".agents", "skills"]; }
  }

  function Normalised(e: Entry): Entry {
    if e.path == AGENTS then Entry(e.path, SourceContent(e.content)) else e
  }

  // An AGENTS.md with nothing of its own counts as no file at all.
  predicate Counts(e: Entry) {
    IsSourcePath(e.path) && !(e.path == AGENTS && Blank(SourceContent(e.content)))
  }

  function Counted(files: seq<Entry>): seq<Entry> {
    if files == [] then []
    else if Counts(files[0]) then [Normalised(files[0])] + Counted(files[1..])
    else Counted(files[1..])
  }

  function EntryKey(e: Entry): string { e.path }

  function IsSource(files: seq<Entry>): seq<Entry> {
    if files == [] then []
    else if IsSourcePath(files[0].path) then [files[0]] + IsSource(files[1..])
    else IsSource(files[1..])
  }

  // --- The stream ---

  const LIMIT: nat := 0x1_0000_0000_0000_0000

  function BigEndian(n: nat, width: nat): (r: Bytes)
    ensures |r| == width
  {
    if width == 0 then "" else BigEndian(n / 256, width - 1) + [(n % 256) as char]
  }

  function Frame(s: Bytes): Bytes { BigEndian(|s|, 8) + s }

  predicate Fits(e: Entry) { |e.path| < LIMIT && |e.content| < LIMIT }

  ghost predicate AllFit(entries: seq<Entry>) {
    forall e <- entries :: Fits(e)
  }

  function Stream(entries: seq<Entry>): Bytes {
    if entries == [] then ""
    else Stream(entries[..|entries| - 1]) + Frame(entries[|entries| - 1].path) + Frame(entries[|entries| - 1].content)
  }

  /** What is hashed of the files found, in whatever order they were found. */
  function Hashed(found: seq<Entry>): seq<Entry> {
    Counted(Sort(IsSource(found), ByKey(EntryKey)))
  }

  lemma {:induction false} CountedAppends(files: seq<Entry>, e: Entry)
    ensures Counted(files + [e]) == if Counts(e) then Counted(files) + [Normalised(e)] else Counted(files)
  {
    hide Counts, Normalised;
    if files == [] {
      assert files + [e] == [e] && [e][1..] == [];
    } else {
      assert (files + [e])[1..] == files[1..] + [e] && (files + [e])[0] == files[0];
      CountedAppends(files[1..], e);
      var head, rest := [Normalised(files[0])], Counted(files[1..]);
      assert head + (rest + [Normalised(e)]) == (head + rest) + [Normalised(e)];
    }
  }

  /** The loop that feeds the hash, one update after the other. */
  method FeedHash(files: seq<Entry>) returns (fed: Result<Bytes, DigestError>)
    requires forall e <- files :: IsSourcePath(e.path)
    ensures fed.Ok? <==> AllFit(Counted(files))
    ensures fed.Ok? ==> fed.value == Stream(Counted(files))
  {
    hide BigEndian, IsSourcePath, SourceContent, Blank, Counted;
    var stream := "";
    assert files[..0] == [] && Counted([]) == [] && Stream([]) == "" by { NothingCounted(); }
    for n := 0 to |files|
      invariant AllFit(Counted(files[..n]))
      invariant stream == Stream(Counted(files[..n]))
    {
      assert files[..n + 1] == files[..n] + [files[n]] && files[n] in files;
      CountedAppends(files[..n], files[n]);
      var relative, content := files[n].path, Normalised(files[n]).content;
      if relative == AGENTS && Blank(content) { continue; }
      ghost var next := Counted(files[..n + 1]);
      assert next[|next| - 1] == Normalised(files[n]) && next[..|next| - 1] == Counted(files[..n]);
      if |relative| >= LIMIT || |content| >= LIMIT {
        CountedPrefix(files, n + 1);
        assert Counted(files)[|next| - 1] == Normalised(files[n]);
        assert Normalised(files[n]) in Counted(files) && !Fits(Normalised(files[n]));
        return Err(TooLong);
      }
      assert Stream(next) == Stream(Counted(files[..n])) + Frame(relative) + Frame(content);
      Grouped(stream, BigEndian(|relative|, 8), relative, BigEndian(|content|, 8), content);
      stream := stream + BigEndian(|relative|, 8) + relative + BigEndian(|content|, 8) + content;
    }
    assert files[..|files|] == files;
    return Ok(stream);
  }

  lemma NothingCounted()
    ensures Counted([]) == []
  {
  }

  lemma Grouped(a: Bytes, b: Bytes, c: Bytes, d: Bytes, e: Bytes)
    ensures a + b + c + d + e == a + (b + c) + (d + e)
  {
  }

  lemma {:induction false} CountedPrefix(files: seq<Entry>, n: nat)
    requires n <= |files|
    ensures Counted(files[..n]) <= Counted(files)
    decreases |files| - n
  {
    if n < |files| {
      assert files[..n + 1] == files[..n] + [files[n]];
      CountedAppends(files[..n], files[n]);
      CountedPrefix(files, n + 1);
    } else {
      assert files[..n] == files;
    }
  }

  /** A length is written most significant byte first. */
  lemma {:induction false} BigEndianAt(n: nat, width: nat, k: nat)
    requires k < width
    ensures BigEndian(n, width)[width - 1 - k] as int == n / Power(k) % 256
  {
    if k > 0 {
      BigEndianAt(n / 256, width - 1, k - 1);
      DivideTwice(n, Power(k - 1));
    }
  }

  lemma DivideTwice(n: nat, m: nat)
    requires m > 0
    ensures n / 256 / m == n / (256 * m)
  {
    var q, r := n / (256 * m), n % (256 * m);
    assert n == 256 * m * q + r;
    assert 256 * (m * q) == 256 * m * q;
    assert n / 256 == m * q + r / 256;
    assert 0 <= r / 256 < m;
    QuotientIs(n / 256, m, q, r / 256);
  }

  lemma QuotientIs(n: nat, m: nat, q: nat, r: nat)
    requires n == m * q + r && r < m
    ensures n / m == q
  {
    var k, s := n / m, n % m;
    assert m * (k - q) == r - s;
    ZeroMultiple(m, k - q);
  }

  lemma ZeroMultiple(m: int, d: int)
    requires -m < m * d < m
    ensures d == 0
  {
  }

  /** What is fed of one file: the length of its path in eight bytes, the path, the length of its content, the content;
      and the files follow one another. */
  lemma {:induction false} StreamIs(xs: seq<Entry>, e: Entry)
    ensures Stream(xs + [e]) ==
      Stream(xs) + (BigEndian(|e.path|, 8) + e.path + BigEndian(|e.content|, 8) + e.content)
  {
    assert (xs + [e])[..|xs|] == xs;
    hide BigEndian, Stream;
    assert Frame(e.path) + Frame(e.content) == BigEndian(|e.path|, 8) + e.path + BigEndian(|e.content|, 8) + e.content;
  }

  // --- The stream can be taken apart in one way only ---

  function Power(width: nat): (r: nat)
    ensures r > 0
  {
    if width == 0 then 1 else 256 * Power(width - 1)
  }

  lemma {:induction false} BigEndianTells(n: nat, k: nat, width: nat)
    requires n < Power(width) && k < Power(width)
    requires BigEndian(n, width) == BigEndian(k, width)
    ensures n == k
  {
    if width > 0 {
      LastTells(BigEndian(n / 256, width - 1), (n % 256) as char, BigEndian(k / 256, width - 1), (k % 256) as char);
      BigEndianTells(n / 256, k / 256, width - 1);
    }
  }

  lemma LastTells(s: Bytes, c: char, t: Bytes, d: char)
    requires s + [c] == t + [d]
    ensures s == t && c == d
  {
    assert (s + [c])[|s|] == c && (t + [d])[|t|] == d && |s| == |t|;
    assert s == (s + [c])[..|s|] && t == (t + [d])[..|t|];
  }

  lemma PowerOfEight()
    ensures Power(8) == LIMIT
  {
    assert Power(2) == 0x1_0000;
    assert Power(4) == 0x1_0000_0000;
    assert Power(6) == 0x1_0000_0000_0000;
  }

  lemma FrameTells(a: Bytes, s: Bytes, b: Bytes, t: Bytes)
    requires |a| < LIMIT && |b| < LIMIT && Frame(a) + s == Frame(b) + t
    ensures a == b && s == t
  {
    hide BigEndian, Power;
    PiecesTell(BigEndian(|a|, 8), a + s, BigEndian(|b|, 8), b + t, Frame(a) + s, Frame(b) + t);
    PowerOfEight();
    BigEndianTells(|a|, |b|, 8);
    PiecesTell(a, s, b, t, a + s, b + t);
  }

  lemma PiecesTell(a: Bytes, s: Bytes, b: Bytes, t: Bytes, whole: Bytes, other: Bytes)
    requires |a| == |b| && whole == a + s && other == b + t && whole == other
    ensures a == b && s == t
  {
    assert a == whole[..|a|] && b == other[..|b|] && s == whole[|a|..] && t == other[|b|..];
  }

  lemma {:induction false} StreamFromFront(entries: seq<Entry>)
    requires entries != []
    ensures Stream(entries) == Frame(entries[0].path) + (Frame(entries[0].content) + Stream(entries[1..]))
  {
    hide Frame;
    var front, last := entries[..|entries| - 1], entries[|entries| - 1];
    var p, c := Frame(entries[0].path), Frame(entries[0].content);
    if front == [] {
      assert Stream(front) == "" && Stream(entries[1..]) == "";
      assert "" + p + c == p + (c + "");
    } else {
      StreamFromFront(front);
      assert entries[1..][..|entries| - 2] == front[1..];
      Regrouped(p, c, Stream(front[1..]), Frame(last.path), Frame(last.content));
    }
  }

  lemma Regrouped(p: Bytes, c: Bytes, middle: Bytes, q: Bytes, d: Bytes)
    ensures p + (c + middle) + q + d == p + (c + (middle + q + d))
  {
  }

  /** Two lists of files give the same stream only if they are the same. */
  lemma {:induction false} StreamIsInjective(xs: seq<Entry>, ys: seq<Entry>)
    requires AllFit(xs) && AllFit(ys) && Stream(xs) == Stream(ys)
    ensures xs == ys
  {
    hide BigEndian;
    if xs == [] || ys == [] {
      if xs != [] { StreamFromFront(xs); }
      if ys != [] { StreamFromFront(ys); }
    } else {
      StreamFromFront(xs);
      StreamFromFront(ys);
      var x, y := xs[0], ys[0];
      assert x in xs && y in ys && Fits(x) && Fits(y);
      assert AllFit(xs[1..]) && AllFit(ys[1..]);
      hide Frame, Stream;
      FrameTells(x.path, Frame(x.content) + Stream(xs[1..]), y.path, Frame(y.content) + Stream(ys[1..]));
      FrameTells(x.content, Stream(xs[1..]), y.content, Stream(ys[1..]));
      StreamIsInjective(xs[1..], ys[1..]);
      assert xs == [xs[0]] + xs[1..] && ys == [ys[0]] + ys[1..];
    }
  }

  // --- What the digest depends on ---

  /** The file listing of a repository: each file once, in any order. */
  ghost predicate Lists(found: seq<Entry>, files: map<Bytes, Bytes>) {
    && Unique(found)
    && forall e :: e in found <==> e.path in files && files[e.path] == e.content
  }

  /** What of a repository the digest is of. */
  ghost function Visible(files: map<Bytes, Bytes>): map<Bytes, Bytes> {
    map p <- files.Keys | Counts(Entry(p, files[p])) :: Normalised(Entry(p, files[p])).content
  }

  /** A file is visible as it is, but AGENTS.md without the managed block, and not at all if nothing else is in it. */
  lemma VisibleIs(files: map<Bytes, Bytes>, p: Bytes)
    ensures p in Visible(files) <==>
      (&& p in files && IsSourcePath(p)
       && (p == "AGENTS.md" ==> exists c <- SourceContent(files[p]) :: c as int !in {9, 10, 11, 12, 13, 32}))
    ensures p in Visible(files) ==>
      Visible(files)[p] == if p == "AGENTS.md" then SourceContent(files[p]) else files[p]
  {
    hide SourceContent, IsSourcePath;
  }

  ghost predicate Ascending(xs: seq<Entry>) {
    forall i, j :: 0 <= i < j < |xs| ==> StringLe(xs[i].path, xs[j].path) && xs[i].path != xs[j].path
  }

  lemma {:induction false} IsSourceKeeps(xs: seq<Entry>)
    ensures forall e :: e in IsSource(xs) <==> e in xs && IsSourcePath(e.path)
    ensures Unique(xs) ==> Unique(IsSource(xs))
  {
    if xs != [] {
      IsSourceKeeps(xs[1..]);
      assert xs == [xs[0]] + xs[1..];
      assert forall i :: 0 <= i < |xs[1..]| ==> xs[1..][i] == xs[i + 1];
    }
  }

  lemma {:induction false} CountedKeeps(xs: seq<Entry>)
    ensures forall e :: e in Counted(xs) <==> exists x :: x in xs && Counts(x) && Normalised(x) == e
  {
    hide Counts, Normalised;
    if xs != [] {
      CountedKeeps(xs[1..]);
      assert xs == [xs[0]] + xs[1..];
      forall e ensures e in Counted(xs) <==> exists x :: x in xs && Counts(x) && Normalised(x) == e {
        if Counts(xs[0]) && Normalised(xs[0]) == e { assert xs[0] in xs; }
      }
    }
  }

  lemma {:induction false} CountedAscends(xs: seq<Entry>)
    requires Ascending(xs)
    ensures Ascending(Counted(xs))
  {
    hide Counts, StringLe;
    if xs != [] {
      var rest := Counted(xs[1..]);
      CountedKeeps(xs[1..]);
      RestWithoutFirst(xs);
      CountedAscends(xs[1..]);
      forall e <- rest ensures StringLe(xs[0].path, e.path) && xs[0].path != e.path {
        var x :| x in xs[1..] && Counts(x) && Normalised(x) == e;
        FirstIsLeast(xs, x);
      }
    }
  }

  lemma ListedAreAscending(found: seq<Entry>, files: map<Bytes, Bytes>)
    requires Lists(found, files)
    ensures var xs := Sort(IsSource(found), ByKey(EntryKey));
      Ascending(xs) && forall e :: e in xs <==> e in found && IsSourcePath(e.path)
  {
    hide IsSource, IsSourcePath, StringLe, Sort, TotalPreorder;
    var sources := IsSource(found);
    var xs := Sort(sources, ByKey(EntryKey));
    IsSourceKeeps(found);
    ByKeyIsPreorder(EntryKey);
    SortSorted(sources, ByKey(EntryKey));
    SortPermutes(sources, ByKey(EntryKey));
    SortUnique(sources, xs);
    forall i, j | 0 <= i < j < |xs| ensures StringLe(xs[i].path, xs[j].path) && xs[i].path != xs[j].path {
      assert ByKey(EntryKey)(xs[i], xs[j]);
      ByKeyIs(EntryKey, xs[i], xs[j]);
      assert xs[i] in xs && xs[j] in xs && xs[i] != xs[j];
      assert xs[i] in found && xs[j] in found;
    }
  }

  lemma HashedIs(found: seq<Entry>, files: map<Bytes, Bytes>)
    requires Lists(found, files)
    ensures Ascending(Hashed(found))
    ensures forall e :: e in Hashed(found) <==> e.path in Visible(files) && Visible(files)[e.path] == e.content
  {
    hide IsSourcePath, StringLe, SourceContent, Blank;
    var xs := Sort(IsSource(found), ByKey(EntryKey));
    ListedAreAscending(found, files);
    CountedKeeps(xs);
    CountedAscends(xs);
    forall e ensures e in Hashed(found) <==> e.path in Visible(files) && Visible(files)[e.path] == e.content {
      if e.path in Visible(files) && Visible(files)[e.path] == e.content {
        var x := Entry(e.path, files[e.path]);
        assert x in xs && Counts(x) && Normalised(x) == e;
      }
    }
  }

  // An ascending list is determined by its elements.
  lemma {:induction false} AscendingIsUnique(xs: seq<Entry>, ys: seq<Entry>)
    requires Ascending(xs) && Ascending(ys)
    requires forall e :: e in xs <==> e in ys
    ensures xs == ys
  {
    hide StringLe;
    assert (xs != [] ==> xs[0] in xs) && (ys != [] ==> ys[0] in ys);
    if xs != [] {
      FirstIsLeast(xs, ys[0]);
      FirstIsLeast(ys, xs[0]);
      if xs[0] != ys[0] { StringLeAntisymmetric(xs[0].path, ys[0].path); }
      RestWithoutFirst(xs);
      RestWithoutFirst(ys);
      AscendingIsUnique(xs[1..], ys[1..]);
      assert xs == [xs[0]] + xs[1..] && ys == [ys[0]] + ys[1..];
    }
  }

  lemma FirstIsLeast(xs: seq<Entry>, x: Entry)
    requires Ascending(xs) && x in xs
    ensures x == xs[0] || (StringLe(xs[0].path, x.path) && xs[0].path != x.path)
  {
    var i :| 0 <= i < |xs| && xs[i] == x;
  }

  lemma RestWithoutFirst(xs: seq<Entry>)
    requires Ascending(xs) && xs != []
    ensures Ascending(xs[1..]) && forall e :: e in xs[1..] <==> e in xs && e != xs[0]
  {
    assert xs == [xs[0]] + xs[1..];
    assert forall i :: 0 <= i < |xs[1..]| ==> xs[1..][i] == xs[i + 1];
  }

  /** The stream tells two repositories apart exactly when their visible sources differ, in whatever order files are
      found. */
  lemma SameStreamIff(found: seq<Entry>, files: map<Bytes, Bytes>, found': seq<Entry>, files': map<Bytes, Bytes>)
    requires Lists(found, files) && Lists(found', files')
    requires AllFit(Hashed(found)) && AllFit(Hashed(found'))
    ensures Stream(Hashed(found)) == Stream(Hashed(found')) <==> Visible(files) == Visible(files')
  {
    hide Stream, Hashed, Visible, StringLe;
    HashedIs(found, files);
    HashedIs(found', files');
    if Stream(Hashed(found)) == Stream(Hashed(found')) {
      StreamIsInjective(Hashed(found), Hashed(found'));
      forall p ensures p in Visible(files) <==> p in Visible(files') {
        if p in Visible(files) { assert Entry(p, Visible(files)[p]) in Hashed(found); }
        if p in Visible(files') { assert Entry(p, Visible(files')[p]) in Hashed(found'); }
      }
      forall p <- Visible(files).Keys ensures Visible(files)[p] == Visible(files')[p] {
        assert Entry(p, Visible(files)[p]) in Hashed(found);
      }
      assert Visible(files).Keys == Visible(files').Keys;
    } else if Visible(files) == Visible(files') {
      AscendingIsUnique(Hashed(found), Hashed(found'));
    }
  }

  // --- Applying configuration ---

  function Original(files: map<Bytes, Bytes>): Option<Bytes> {
    if AGENTS in files then Some(files[AGENTS]) else None
  }

  lemma AgentsIsASource()
    ensures IsSourcePath(AGENTS) && Split(AGENTS) == [AGENTS]
  {
    NoSlash(AGENTS);
  }

  lemma BlankNewlines(s: Bytes, n: Bytes)
    requires NewlinesOnly(n)
    ensures Blank(s + n) <==> Blank(s)
  {
    if Blank(s + n) { forall c <- s ensures c in s + n {} }
  }

  /** Writing the managed block changes what is visible if and only if it flips the newline of a file that says
      something. */
  lemma MergeIsInvisibleIff(files: map<Bytes, Bytes>, managed: Bytes)
    requires var original := Original(files); original.Some? ==> WellFormed(original.value)
    requires MarkerFree(managed)
    ensures Merge(Original(files), managed).Ok?
    ensures Visible(files[AGENTS := Merge(Original(files), managed).value]) == Visible(files) <==>
      !(Original(files).Some? && FlipsNewline(Original(files).value) && !Blank(Original(files).value))
  {
    AgentsIsASource();
    hide Merge, SourceContent, WellFormed, FlipsNewline, MarkerFree, Blank, IsSourcePath, Visible, Split;
    BlockAloneIsBlank(managed);
    if AGENTS in files {
      var o := files[AGENTS];
      StripUndoesMergeIff(o, managed);
      OthersStayVisible(files, Merge(Some(o), managed).value);
      if FlipsNewline(o) { FlipsMeansFree(o); FlippedIsBlankIff(o, managed); }
    } else {
      OthersStayVisible(files, Merge(None, managed).value);
    }
  }

  lemma FlipsMeansFree(original: Bytes)
    requires FlipsNewline(original)
    ensures MarkerFree(original)
  {
    hide BEGIN_MARKER, END_MARKER;
    forall i ensures !At(original, i, BEGIN_MARKER) && !At(original, i, END_MARKER) {
      assert Find(original, BEGIN_MARKER, 0) < 0 && Find(original, END_MARKER, 0) < 0;
    }
  }

  lemma OthersStayVisible(files: map<Bytes, Bytes>, content: Bytes)
    requires IsSourcePath(AGENTS)
    ensures var visible, visible' := Visible(files), Visible(files[AGENTS := content]);
      visible == visible' <==>
        if AGENTS in files && !Blank(SourceContent(files[AGENTS])) then
          !Blank(SourceContent(content)) && SourceContent(content) == SourceContent(files[AGENTS])
        else Blank(SourceContent(content))
  {
    hide SourceContent, Blank, IsSourcePath;
    var files' := files[AGENTS := content];
    var visible, visible' := Visible(files), Visible(files');
    assert forall p :: p != AGENTS ==> (p in visible <==> p in visible');
    assert forall p <- visible.Keys :: p != AGENTS ==> visible[p] == visible'[p];
    assert AGENTS in visible' <==> !Blank(SourceContent(content));
    assert AGENTS in visible <==> AGENTS in files && !Blank(SourceContent(files[AGENTS]));
    if (AGENTS in visible <==> AGENTS in visible') && (AGENTS in visible ==> visible[AGENTS] == visible'[AGENTS]) {
      assert visible.Keys == visible'.Keys;
    }
  }

  lemma FlippedIsBlankIff(original: Bytes, managed: Bytes)
    requires FlipsNewline(original) && MarkerFree(original) && MarkerFree(managed)
    ensures Merge(Some(original), managed).Ok?
    ensures Blank(SourceContent(original)) <==> Blank(original)
    ensures Blank(SourceContent(Merge(Some(original), managed).value)) <==> Blank(original)
  {
    hide Merge, SourceContent, FlipsNewline, MarkerFree, Blank, RStrip;
    StripUndoesFirstMerge(original, managed);
    StripOfFree(original);
    var n := RStripIs(original);
    var merged := Merge(Some(original), managed).value;
    NewlineForIs(original);
    NewlineForIs(merged);
    BlankNewlines(RStrip(original), n);
    BlankNewlines(RStrip(original), NewlineFor(original));
    BlankNewlines(RStrip(original), NewlineFor(merged));
  }
}
