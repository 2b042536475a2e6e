/** What an install puts in place, file by file, and which packages it refuses. */
module PackageFiles {
  import opened Wrappers
  import opened Ordering
  import opened Trees
  import opened ChangeSets
  import opened WriterModel
  import opened Writer
  import opened Overlay
  import opened InstallModel
  import opened Install
  import opened InstallLaws
  import opened InstallTheorems

  // --- The files of the package ---

  // The plan proposes each file of the package as it is, and nothing else at its path.
  lemma FileIsProposed(codec: Codec, t: ClosedTree, r: Request, f: InstallFile)
    requires PlanFor(codec, t, r).Ok? && f in r.package.files
    ensures (PlanIs(codec, t, r); var ps := PlanProposals(codec, t, r);
      && ChangeProposal(f.path, Some(f.content), Owned, r.candidate.ref) in ps
      && forall p <- ps :: p.path == f.path ==> p.desired == Some(f.content))
    ensures f.path != LOCK_PATH && f.path != AUDIT_PATH && f.path != TransactionPath(ProviderId(r.candidate))
  {
    hide PlanFor, FixedProposals, LOCK_PATH, AUDIT_PATH, TransactionPath, Recorded, AppendAudit, BuildEach, SafePath;
    PlanIs(codec, t, r);
    var ps, n := PlanProposals(codec, t, r), |r.package.files|;
    NoDuplicateMeansUnique(ps, |ps|);
    var i :| 0 <= i < n && r.package.files[i] == f;
    assert ps[i] == ChangeProposal(f.path, Some(f.content), Owned, r.candidate.ref) && ps[i] in ps;
    var fixed := FixedProposals(codec, t, r);
    assert ps[n].path == fixed[0].path && ps[n + 1].path == fixed[1].path && ps[n + 2].path == fixed[2].path;
  }

  // The one operation at f's path writes what f holds.
  ghost predicate PlansFile(ops: seq<ChangeOperation>, f: InstallFile) {
    && (exists op <- ops :: op.path == f.path && op.after == Some(f.content) && op.ownership.Owned?)
    && (forall op <- ops :: op.path == f.path ==> op.after == Some(f.content))
    && (forall i, j :: 0 <= i < j < |ops| ==> ops[i].path != f.path || ops[j].path != f.path)
  }

  /** A plan has exactly one operation for each file of the package, and it writes the file's content. */
  lemma FilesArePlanned(codec: Codec, t: ClosedTree, r: Request, f: InstallFile)
    requires PlanFor(codec, t, r).Ok? && f in r.package.files
    ensures PlansFile(PlanFor(codec, t, r).value.changeset.operations, f)
  {
    hide PlanFor, PlanProposals, LOCK_PATH, AUDIT_PATH, TransactionPath, Recorded, AppendAudit, Built, SafePath, Posix,
      KindOf;
    PlanIs(codec, t, r);
    FileIsProposed(codec, t, r, f);
    var ps, commands := PlanProposals(codec, t, r), r.package.commands;
    var ops := PlanFor(codec, t, r).value.changeset.operations;
    BuiltCoversProposals(t, ps, commands, ChangeProposal(f.path, Some(f.content), Owned, r.candidate.ref));
    BuiltIsValid(t, ps, commands);
    forall op <- ops | op.path == f.path ensures op.after == Some(f.content) {
      var p := BuiltComesFromProposals(t, ps, commands, op);
    }
    forall i, j | 0 <= i < j < |ops| ensures ops[i].path != f.path || ops[j].path != f.path {
      assert Paths(ops)[i] != Paths(ops)[j];
    }
  }

  /** An install puts every file of its package in place with its content, whatever its commands do, unless the file
      was there already: then it is as the commands leave it. */
  lemma FilesAreInstalled(codec: Codec, t: ClosedTree, r: Request, scan: Tree -> Option<Inventory>,
                          runner: (Command, ClosedTree) -> CommandEffect, now: Tree, f: InstallFile)
    requires Installs(codec, t, r, scan, runner, now) && f in r.package.files && ".git" !in f.path
    ensures r.package.commands == [] || FileAt(t, f.path) != Some(Text(f.content)) ==>
      FileAt(now, f.path) == Some(Text(f.content))
    ensures FileAt(t, f.path) == Some(Text(f.content)) ==>
      FileAt(now, f.path) == FileAt(AfterCommands(t, r, runner), f.path)
  {
    hide PlanFor, PlanProposals, LOCK_PATH, AUDIT_PATH, TransactionPath, Recorded, AppendAudit, StagedFor, CopyBuilt,
      Draft, CommittedTo, AfterCommands, FileAt;
    PlanIsOk(codec, t, r, scan, runner, now);
    PlanIs(codec, t, r);
    FileIsProposed(codec, t, r, f);
    var p := ChangeProposal(f.path, Some(f.content), Owned, r.candidate.ref);
    DraftIsCommitted(codec, t, r, scan, runner, now, f.path);
    DraftAt(codec, t, r, scan, runner, p);
    if r.package.commands == [] { DraftFiles(codec, t, r, scan, runner, f.path); }
  }

  lemma PlanIsOk(codec: Codec, t: ClosedTree, r: Request, scan: Tree -> Option<Inventory>,
                 runner: (Command, ClosedTree) -> CommandEffect, now: Tree)
    requires Installs(codec, t, r, scan, runner, now)
    ensures StagedFor(codec, t, r, scan, runner).Ok? && PlanFor(codec, t, r).Ok?
  {
    hide PlanFor, StagedInstall, CommittedTo;
  }

  // --- What is refused ---

  predicate Pinned(c: Candidate) { c.version.Some? && c.provenance.Some? && c.provenance.value.digestVerified }

  predicate Readable(t: Tree, q: Path) { FileAt(t, q).Some? ==> FileAt(t, q).value.Text? }

  /** A candidate without a version or a verified digest is refused, then one at L4, then one whose package is not what
      the digest was taken of; and no plan is made for any of them. */
  lemma RefusedIff(codec: Codec, t: ClosedTree, r: Request)
    ensures var c, plan := r.candidate, PlanFor(codec, t, r);
      && (plan == Err(NotPinned) <==> !Pinned(c))
      && (plan == Err(Blocked) <==> Pinned(c) && c.provenance.value.level == L4)
      && (plan == Err(DigestMismatch) <==>
            (&& Pinned(c) && c.provenance.value.level != L4
             && c.provenance.value.digest != Sha256(PackageText(r.package))))
      && (plan.Ok? ==> plan.value.level == c.provenance.value.level && plan.value.package == r.package
                       && plan.value.candidate == c && plan.value.changeset.commands == r.package.commands)
  {
    hide RenderLock, PackageText, TransactionPath, SafePath, RecordedPaths, PassedPreflight, PackageProposals, ReadText,
      AppendAudit, Recorded, BuildEach, FirstDuplicate;
    AuditErrors(codec, t, r.candidate, "planned", r.plannedAt);
    SaveErrors(t, Sort(Distinct(RecordedPaths(r.candidate, r.package)), ByKey(PathKey)));
    assert Recorded(t, r.candidate, r.package).Err? ==> Recorded(t, r.candidate, r.package).error.NotText? by {
      RecordedErrors(t, r.candidate, r.package);
    }
  }

  lemma RecordedErrors(t: Tree, c: Candidate, p: Package)
    ensures Recorded(t, c, p).Err? ==> Recorded(t, c, p).error.NotText?
  {
    SaveErrors(t, Sort(Distinct(RecordedPaths(c, p)), ByKey(PathKey)));
  }

  lemma AuditErrors(codec: Codec, t: Tree, c: Candidate, status: string, now: string)
    ensures AppendAudit(codec, t, c, status, now).Ok? <==> Readable(t, AUDIT_PATH)
    ensures AppendAudit(codec, t, c, status, now).Err? ==> AppendAudit(codec, t, c, status, now).error.NotText?
  {
    hide AUDIT_PATH, AuditLine, Universal;
  }

  lemma {:induction false} SaveErrors(t: Tree, paths: seq<Path>)
    ensures SaveAll(t, paths).Ok? <==> forall q <- paths :: Readable(t, q)
    ensures SaveAll(t, paths).Err? ==> SaveAll(t, paths).error.NotText?
  {
    hide Universal;
    if paths != [] {
      var front, last := paths[..|paths| - 1], paths[|paths| - 1];
      SaveErrors(t, front);
      assert paths == front + [last];
      assert ReadText(t, last).Ok? <==> Readable(t, last);
    }
  }

  lemma RecordedOkIff(t: Tree, c: Candidate, p: Package)
    ensures Recorded(t, c, p).Ok? <==> forall q <- RecordedPaths(c, p) :: Readable(t, q)
  {
    hide RecordedPaths, Readable;
    var paths := Distinct(RecordedPaths(c, p));
    DistinctKeeps(RecordedPaths(c, p));
    SortPermutes(paths, ByKey(PathKey));
    SaveErrors(t, Sort(paths, ByKey(PathKey)));
  }

  /** A plan is made if and only if the candidate is pinned, below L4 and its package what the digest was taken of,
      nothing else was left behind by an earlier install of its, and everything it writes is a safe path, written
      once, and text if it is a file at all. */
  lemma PlannedIff(codec: Codec, t: ClosedTree, r: Request)
    ensures var c, paths := r.candidate, RecordedPaths(r.candidate, r.package);
      var journal := TransactionPath(ProviderId(c));
      PlanFor(codec, t, r).Ok? <==>
        (&& Pinned(c) && c.provenance.value.level != L4 && c.provenance.value.digest == Sha256(PackageText(r.package))
         && (journal in t ==> r.replaceExisting || PassedPreflight(codec, t, c))
         && Unique(paths) && forall q <- paths :: SafePath(q) && Readable(t, q))
  {
    hide RenderLock, PackageText, TransactionPath, SafePath, RecordedPaths, PassedPreflight, AppendAudit, Recorded,
      BuildEach, Built, Readable, LOCK_PATH, AUDIT_PATH;
    AuditErrors(codec, t, r.candidate, "planned", r.plannedAt);
    RecordedOkIff(t, r.candidate, r.package);
    FixedAreRecorded(r);
    SafePathsIff(r);
    if r.candidate.provenance.Some? && Recorded(t, r.candidate, r.package).Ok?
       && AppendAudit(codec, t, r.candidate, "planned", r.plannedAt).Ok? {
      ProposalsBuildIff(codec, t, r);
      assert PlanProposals(codec, t, r) == PackageProposals(r.package, r.candidate) + FixedProposals(codec, t, r);
    }
  }

  lemma SafePathsIff(r: Request)
    ensures (forall q <- RecordedPaths(r.candidate, r.package) :: SafePath(q)) <==>
      (forall f <- r.package.files :: SafePath(f.path)) && SafePath(TransactionPath(ProviderId(r.candidate)))
  {
    hide TransactionPath, SafePath;
    FixedPathsAreSafe();
    FixedAreRecorded(r);
    PackagePathsAre(r.package);
    var paths := RecordedPaths(r.candidate, r.package);
    forall f <- r.package.files ensures f.path in paths {
      var i :| 0 <= i < |r.package.files| && r.package.files[i] == f;
      assert paths[i] == f.path;
    }
    forall q <- paths
      ensures q in [LOCK_PATH, AUDIT_PATH, TransactionPath(ProviderId(r.candidate))]
        || exists f <- r.package.files :: f.path == q
    {
      var i :| 0 <= i < |paths| && paths[i] == q;
      if i < |r.package.files| { assert r.package.files[i] in r.package.files; }
    }
  }

  // The proposals build unless a path comes twice or cannot be read.
  lemma ProposalsBuildIff(codec: Codec, t: Tree, r: Request)
    requires r.candidate.provenance.Some? && Recorded(t, r.candidate, r.package).Ok?
    requires AppendAudit(codec, t, r.candidate, "planned", r.plannedAt).Ok?
    ensures Built(t, PlanProposals(codec, t, r), r.package.commands).Ok? <==>
      Unique(RecordedPaths(r.candidate, r.package))
  {
    hide TransactionPath, Recorded, AppendAudit, Built, FixedProposals, PackageProposals, PackagePaths, LOCK_PATH,
      AUDIT_PATH, ProviderId, Readable;
    var c, ps, paths := r.candidate, PlanProposals(codec, t, r), RecordedPaths(r.candidate, r.package);
    PackagePathByPath(r.package, c);
    Appended(PackageProposals(r.package, c), PackagePaths(r.package), FixedProposals(codec, t, r),
             [LOCK_PATH, AUDIT_PATH, TransactionPath(ProviderId(c))]);
    assert |ps| == |paths| && forall i :: 0 <= i < |ps| ==> ps[i].path == paths[i];
    BuiltOkIff(t, ps, r.package.commands);
    RecordedOkIff(t, c, r.package);
    forall p <- ps ensures BuildOperation(t, p).Ok? {
      var i :| 0 <= i < |ps| && ps[i] == p;
      assert paths[i] in paths;
      OwnedBuilds(codec, t, r, i);
    }
  }

  lemma OwnedBuilds(codec: Codec, t: Tree, r: Request, i: nat)
    requires r.candidate.provenance.Some? && Recorded(t, r.candidate, r.package).Ok?
    requires AppendAudit(codec, t, r.candidate, "planned", r.plannedAt).Ok?
    requires i < |PlanProposals(codec, t, r)| && Readable(t, PlanProposals(codec, t, r)[i].path)
    ensures BuildOperation(t, PlanProposals(codec, t, r)[i]).Ok?
  {
    hide TransactionPath, Recorded, AppendAudit, LOCK_PATH, AUDIT_PATH, ProviderId, RenderLock;
    var n := |r.package.files|;
    if i < n {
      assert PlanProposals(codec, t, r)[i] == PackageProposals(r.package, r.candidate)[i];
    } else {
      assert PlanProposals(codec, t, r)[i] == FixedProposals(codec, t, r)[i - n];
    }
  }

  // --- What the digest is taken of ---

  lemma {:induction false} JoinOfConcat(fs: seq<InstallFile>, gs: seq<InstallFile>)
    ensures JoinFiles(fs + gs) == JoinFiles(fs) + JoinFiles(gs)
  {
    hide PathKey;
    if fs == [] {
      assert fs + gs == gs;
    } else {
      JoinOfConcat(fs[1..], gs);
      assert (fs + gs)[1..] == fs[1..] + gs;
      assert JoinFiles(fs + gs) == PathKey(fs[0].path) + "\0" + fs[0].content + "\0" + JoinFiles(fs[1..] + gs);
    }
  }

  /** The text of a package with one file is that file; of any other, the paths and contents of its files, each ended
      by a NUL, in the order of the paths. */
  lemma PackageTextIs(p: Package, fs: seq<InstallFile>, k: nat)
    requires fs == Sort(p.files, ByKey(FileKey)) && k < |fs|
    ensures |p.files| == 1 ==> PackageText(p) == p.files[0].content
    ensures |p.files| != 1 ==>
      PackageText(p) ==
        JoinFiles(fs[..k]) + (PathKey(fs[k].path) + "\0" + fs[k].content + "\0") + JoinFiles(fs[k + 1..])
  {
    hide PathKey;
    assert fs == fs[..k] + ([fs[k]] + fs[k + 1..]);
    JoinOfConcat(fs[..k], [fs[k]] + fs[k + 1..]);
    JoinOfConcat([fs[k]], fs[k + 1..]);
    assert [fs[k]][1..] == [];
    assert JoinFiles([fs[k]]) == PathKey(fs[k].path) + "\0" + fs[k].content + "\0";
  }

  ghost predicate NoNuls(fs: seq<InstallFile>) {
    forall f <- fs :: '\0' !in PathKey(f.path) && '\0' !in f.content
  }

  function Shown(f: InstallFile): (string, string) { (PathKey(f.path), f.content) }

  lemma NoNulBefore(a: string, s: string, n: nat)
    requires '\0' !in a && n < |a + "\0" + s| && (a + "\0" + s)[n] == '\0'
    ensures |a| <= n
  {
    assert forall i :: 0 <= i < |a| ==> (a + "\0" + s)[i] == a[i];
  }

  // Two texts that are cut at their first NUL have the same halves.
  lemma SameHalves(a: string, s: string, b: string, u: string)
    requires '\0' !in a && '\0' !in b && a + "\0" + s == b + "\0" + u
    ensures a == b && s == u
  {
    var x := a + "\0" + s;
    assert x[|a|] == '\0' && x[|b|] == '\0';
    NoNulBefore(a, s, |b|);
    NoNulBefore(b, u, |a|);
    assert a == x[..|a|] && b == x[..|b|] && s == x[|a| + 1..] && u == x[|b| + 1..];
  }

  /** Where nothing holds a NUL, files that join to the same text are the same. */
  lemma {:induction false} JoinIsInjective(fs: seq<InstallFile>, gs: seq<InstallFile>)
    requires NoNuls(fs) && NoNuls(gs) && JoinFiles(fs) == JoinFiles(gs)
    ensures |fs| == |gs| && forall i :: 0 <= i < |fs| ==> Shown(fs[i]) == Shown(gs[i])
  {
    hide PathKey;
    if fs != [] && gs != [] {
      var f, g := fs[0], gs[0];
      var s, u := JoinFiles(fs[1..]), JoinFiles(gs[1..]);
      assert f in fs && g in gs;
      assert JoinFiles(fs) == PathKey(f.path) + "\0" + (f.content + "\0" + s);
      assert JoinFiles(gs) == PathKey(g.path) + "\0" + (g.content + "\0" + u);
      SameHalves(PathKey(f.path), f.content + "\0" + s, PathKey(g.path), g.content + "\0" + u);
      SameHalves(f.content, s, g.content, u);
      JoinIsInjective(fs[1..], gs[1..]);
    }
  }

  /** The digest of a package fixes its files: two packages of several files have the same text if and only if they
      list the same files, in whatever order, as long as no NUL is in them. */
  lemma SameTextIff(p: Package, q: Package)
    requires |p.files| != 1 && |q.files| != 1 && NoNuls(p.files) && NoNuls(q.files)
    requires forall f, g :: f in p.files && g in p.files && PathKey(f.path) == PathKey(g.path) ==> f == g
    requires forall f, g :: f in p.files + q.files && g in p.files + q.files && PathKey(f.path) == PathKey(g.path) ==>
      f.path == g.path
    ensures PackageText(p) == PackageText(q) <==> multiset(p.files) == multiset(q.files)
  {
    hide PathKey, Sort, JoinFiles, ByKey, NoNuls, StringLe;
    var fs, gs := Sort(p.files, ByKey(FileKey)), Sort(q.files, ByKey(FileKey));
    SortPermutes(p.files, ByKey(FileKey));
    SortPermutes(q.files, ByKey(FileKey));
    if JoinFiles(fs) == JoinFiles(gs) {
      assert NoNuls(fs) && NoNuls(gs) by { SameNuls(p.files, fs); SameNuls(q.files, gs); }
      JoinIsInjective(fs, gs);
      forall i | 0 <= i < |fs| ensures fs[i] == gs[i] {
        assert Shown(fs[i]) == Shown(gs[i]) && fs[i] in p.files + q.files && gs[i] in p.files + q.files;
      }
      assert fs == gs;
    }
    if multiset(p.files) == multiset(q.files) { SameSort(p.files, q.files); }
  }

  lemma SameNuls(fs: seq<InstallFile>, gs: seq<InstallFile>)
    requires NoNuls(fs) && forall g <- gs :: g in fs
    ensures NoNuls(gs)
  {
  }

  lemma SameSort(fs: seq<InstallFile>, gs: seq<InstallFile>)
    requires multiset(fs) == multiset(gs)
    requires forall f, g :: f in fs && g in fs && FileKey(f) == FileKey(g) ==> f == g
    ensures Sort(fs, ByKey(FileKey)) == Sort(gs, ByKey(FileKey))
  {
    hide Sort, FileKey, ByKey;
    var le := ByKey(FileKey);
    ByKeyIsPreorder(FileKey);
    forall f, g | f in fs && g in fs && le(f, g) && le(g, f) ensures f == g {
      ByKeyIs(FileKey, f, g);
      ByKeyIs(FileKey, g, f);
      StringLeAntisymmetric(FileKey(f), FileKey(g));
    }
    SortForgetsOrder(fs, gs, le);
  }

  lemma SortOfSorted(fs: seq<InstallFile>)
    requires forall i, j :: 0 <= i < j < |fs| ==> StringLe(FileKey(fs[i]), FileKey(fs[j]))
    requires forall i, j :: 0 <= i < j < |fs| ==> FileKey(fs[i]) != FileKey(fs[j])
    ensures Sort(fs, ByKey(FileKey)) == fs
  {
    hide Sort, FileKey, ByKey;
    var le := ByKey(FileKey);
    ByKeyIsPreorder(FileKey);
    SortSorted(fs, le);
    SortPermutes(fs, le);
    forall i, j | 0 <= i < j < |fs| ensures le(fs[i], fs[j]) { ByKeyIs(FileKey, fs[i], fs[j]); }
    forall f, g | f in fs && g in fs && le(f, g) && le(g, f) ensures f == g {
      ByKeyIs(FileKey, f, g);
      ByKeyIs(FileKey, g, f);
      StringLeAntisymmetric(FileKey(f), FileKey(g));
    }
    SortedArrangementIsUnique(Sort(fs, le), fs, le);
  }

  lemma JoinOfTwo(f: InstallFile, g: InstallFile, a: string, b: string)
    requires f.path == [a] && g.path == [b]
    ensures JoinFiles([f, g]) == a + "\0" + f.content + "\0" + (b + "\0" + g.content + "\0")
  {
    assert [f, g][1..] == [g] && [g][1..] == [];
    assert JoinFiles([g]) == b + "\0" + g.content + "\0" + "";
  }

  /** With a NUL in a content, different packages can have the same text. */
  lemma NulsConfuse(a: string, b: string, c: string)
    requires a != b && b != c && a != c && StringLe(a, b) && StringLe(b, c)
    ensures var p := [InstallFile([a], "x"), InstallFile([b], "y"), InstallFile([c], "z")];
      var q := [InstallFile([a], "x\0" + b + "\0y"), InstallFile([c], "z")];
      PackageText(Package(p, [])) == PackageText(Package(q, []))
  {
    var f, g, h := InstallFile([a], "x"), InstallFile([b], "y"), InstallFile([c], "z");
    var f' := InstallFile([a], "x\0" + b + "\0y");
    assert FileKey(f) == FileKey(f') == a && FileKey(g) == b && FileKey(h) == c;
    hide StringLe, Sort, JoinFiles, FileKey;
    StringLeTransitive(a, b, c);
    SortOfSorted([f, g, h]);
    SortOfSorted([f', h]);
    JoinsConfuse(f, g, h, f', a, b, c);
  }

  lemma JoinsConfuse(f: InstallFile, g: InstallFile, h: InstallFile, f': InstallFile, a: string, b: string, c: string)
    requires f == InstallFile([a], "x") && g == InstallFile([b], "y") && h == InstallFile([c], "z")
    requires f' == InstallFile([a], "x\0" + b + "\0y")
    ensures JoinFiles([f, g, h]) == JoinFiles([f', h])
  {
    hide JoinFiles;
    JoinOfConcat([f], [g, h]);
    JoinOfOne(f, a);
    JoinOfTwo(g, h, b, c);
    JoinOfTwo(f', h, a, c);
    assert [f] + [g, h] == [f, g, h];
    Regrouped(a, b, c + "\0" + "z" + "\0");
  }

  lemma Regrouped(a: string, b: string, s: string)
    ensures (a + "\0" + "x" + "\0") + (b + "\0" + "y" + "\0" + s) ==
      a + "\0" + ("x\0" + b + "\0y") + "\0" + s
  {
  }

  lemma JoinOfOne(f: InstallFile, a: string)
    requires f.path == [a]
    ensures JoinFiles([f]) == a + "\0" + f.content + "\0"
  {
    assert [f][1..] == [] && JoinFiles([]) == "";
    assert a + "\0" + f.content + "\0" + "" == a + "\0" + f.content + "\0";
  }
}
