/** Remote capabilities: candidates, lock file, audit log and install transactions. */
module InstallModel {
  import opened Wrappers
  import opened Ordering
  import opened Trees
  import opened ChangeSets
  import AgentsMd

  const LOCK_PATH: Path := [".ai-project", "capabilities.lock"]
  const AUDIT_PATH: Path := [".ai-project", "audit.log"]
  const TRANSACTION_ROOT: Path := [".ai-project", "install-transactions"]

  datatype Level = L0 | L1 | L2 | L3 | L4

  datatype Kind = AgentSkill | CliTool | McpServer | Plugin

  datatype Provenance = Provenance(digest: Digest, digestVerified: bool, level: Level, details: string)

  datatype Candidate = Candidate(ref: string, name: string, kind: Kind, version: Option<string>,
    provenance: Option<Provenance>)

  datatype InstallFile = InstallFile(path: Path, content: string)

  datatype Package = Package(files: seq<InstallFile>, commands: seq<Command>)

  datatype InstallPlan = InstallPlan(candidate: Candidate, package: Package, changeset: ChangeSet, level: Level)

  // A provider_id as YAML may hold it: missing, a string, or something else.
  datatype Id = NoId | StringId(text: string) | OtherId(shown: string)

  datatype Preflight = Preflight(status: string, digest: Digest, details: string)

  datatype Provider = Provider(id: Id, version: Option<string>, contentDigest: Option<Digest>,
    preflight: Option<Preflight>, details: string)

  datatype Lock = Lock(inventoryDigest: string, providers: seq<Provider>)

  datatype Saved = Saved(path: Path, text: Option<string>)

  datatype Transaction = Transaction(capability: string, providerId: string, ref: string, before: seq<Saved>)

  datatype Event = Event(ref: string, digest: Option<Digest>, status: string, timestamp: string,
    version: Option<string>)

  /** YAML and JSON, as functions between values and texts; loading may find something that is not such a file. */
  datatype Codec = Codec(
    dumpLock: Lock -> string, loadLock: string -> Option<seq<Provider>>,
    dumpTransaction: Transaction -> string, loadTransaction: string -> Option<Transaction>,
    dumpEvent: Event -> string, hex: Digest -> string)

  datatype InstallError =
    | NotPinned | Blocked | DigestMismatch | AlreadyInstalled | UnsafePath
    | NotText(path: Path) | Build(error: BuildError)
    | ApprovalRequired | CopyFailed | StagedApplyFailed | PreflightFailed | ScanFailed
    | NotResolved | Unwritable(path: Path) | CommitFailed(rollbackErrors: seq<Path>)

  // --- Reading text ---

  // Universal newlines.
  function Universal(s: string): string { AgentsMd.Translate(s, true, "\n", "\n") }

  /** read_text of a regular file. */
  function ReadText(t: Tree, p: Path): Result<Option<string>, InstallError> {
    match ReadFile(t, p)
    case Err(_) => Err(NotText(p))
    case Ok(None) => Ok(None)
    case Ok(Some(s)) => Ok(Some(Universal(s)))
  }

  /** write_text: the file is there afterwards, unless its place is not one for a file. */
  function WriteText(t: Tree, p: Path, text: string): Result<Tree, InstallError> {
    if p == [] || Parent(p) !in t || t[Parent(p)].File? || (p in t && t[p].Dir?) then Err(Unwritable(p))
    else Ok(t[p := File(Text(text))])
  }

  // --- Providers and the lock ---

  function Prefix(k: Kind): string {
    match k
    case AgentSkill => "skill"
    case CliTool => "cli"
    case McpServer => "mcp"
    case Plugin => "plugin"
  }

  function ProviderId(c: Candidate): string { Prefix(c.kind) + "." + c.name }

  function ProviderEntry(c: Candidate, p: Provenance, preflight: Option<string>): Provider {
    Provider(StringId(ProviderId(c)), c.version, Some(p.digest),
             if preflight.Some? then Some(Preflight("passed", p.digest, preflight.value)) else None, p.details)
  }

  function ProviderKey(p: Provider): string {
    match p.id
    case NoId => ""
    case StringId(s) => s
    case OtherId(s) => s
  }

  function Others(ps: seq<Provider>, id: Id): seq<Provider> {
    if ps == [] then []
    else if ps[0].id != id then [ps[0]] + Others(ps[1..], id)
    else Others(ps[1..], id)
  }

  function FirstWith(ps: seq<Provider>, id: Id): Option<Provider> {
    if ps == [] then None
    else if ps[0].id == id then Some(ps[0])
    else FirstWith(ps[1..], id)
  }

  /** The providers of the lock once entry is in it. */
  function NextProviders(ps: seq<Provider>, entry: Provider): seq<Provider> {
    Sort(Others(ps, entry.id) + [entry], ByKey(ProviderKey))
  }

  function LockedProviders(codec: Codec, t: Tree): seq<Provider> {
    match ReadText(t, LOCK_PATH)
    case Ok(Some(text)) =>
      (match codec.loadLock(text)
       case Some(ps) => ps
       case None => [])
    case _ => []
  }

  function RenderLock(codec: Codec, t: Tree, entry: Provider, inventoryDigest: string): string {
    codec.dumpLock(Lock(inventoryDigest, NextProviders(LockedProviders(codec, t), entry)))
  }

  predicate PassedPreflight(codec: Codec, t: Tree, c: Candidate) {
    c.provenance.Some? &&
    match FirstWith(LockedProviders(codec, t), StringId(ProviderId(c)))
    case None => false
    case Some(provider) =>
      && provider.contentDigest == Some(c.provenance.value.digest)
      && provider.preflight.Some?
      && provider.preflight.value.status == "passed"
      && provider.preflight.value.digest == c.provenance.value.digest
  }

  // --- The audit log ---

  function AuditLine(codec: Codec, c: Candidate, status: string, now: string): string {
    var digest := if c.provenance.Some? then Some(c.provenance.value.digest) else None;
    codec.dumpEvent(Event(c.ref, digest, status, now, c.version)) + "\n"
  }

  function AppendAudit(codec: Codec, t: Tree, c: Candidate, status: string, now: string): Result<string, InstallError> {
    match ReadText(t, AUDIT_PATH)
    case Err(e) => Err(e)
    case Ok(existing) => Ok((if existing.Some? then existing.value else "") + AuditLine(codec, c, status, now))
  }

  // --- The transaction ---

  function TransactionPath(providerId: string): Path { TRANSACTION_ROOT + Split(providerId + ".json") }

  function PackagePaths(p: Package): seq<Path> {
    seq(|p.files|, i requires 0 <= i < |p.files| => p.files[i].path)
  }

  function RecordedPaths(c: Candidate, p: Package): seq<Path> {
    PackagePaths(p) + [LOCK_PATH, AUDIT_PATH, TransactionPath(ProviderId(c))]
  }

  function Distinct(paths: seq<Path>): seq<Path> {
    if paths == [] then []
    else
      var front, last := Distinct(paths[..|paths| - 1]), paths[|paths| - 1];
      if last in front then front else front + [last]
  }

  function SaveAll(t: Tree, paths: seq<Path>): Result<seq<Saved>, InstallError> {
    if paths == [] then Ok([])
    else
      match SaveAll(t, paths[..|paths| - 1])
      case Err(e) => Err(e)
      case Ok(saved) =>
        match ReadText(t, paths[|paths| - 1])
        case Err(e) => Err(e)
        case Ok(text) => Ok(saved + [Saved(paths[|paths| - 1], text)])
  }

  function Recorded(t: Tree, c: Candidate, p: Package): Result<seq<Saved>, InstallError> {
    SaveAll(t, Sort(Distinct(RecordedPaths(c, p)), ByKey(PathKey)))
  }

  // --- The plan ---

  function FileKey(f: InstallFile): string { PathKey(f.path) }

  function JoinFiles(files: seq<InstallFile>): string {
    if files == [] then ""
    else PathKey(files[0].path) + "\0" + files[0].content + "\0" + JoinFiles(files[1..])
  }

  function PackageText(p: Package): string {
    if |p.files| == 1 then p.files[0].content else JoinFiles(Sort(p.files, ByKey(FileKey)))
  }

  function Own(path: Path, text: string, c: Candidate): ChangeProposal {
    ChangeProposal(path, Some(text), Owned, c.ref)
  }

  function PackageProposals(p: Package, c: Candidate): seq<ChangeProposal> {
    seq(|p.files|, i requires 0 <= i < |p.files| => Own(p.files[i].path, p.files[i].content, c))
  }

  function Installable(c: Candidate, p: Package): Option<InstallError> {
    if c.version.None? || c.provenance.None? || !c.provenance.value.digestVerified then Some(NotPinned)
    else if c.provenance.value.level.L4? then Some(Blocked)
    else if Sha256(PackageText(p)) != c.provenance.value.digest then Some(DigestMismatch)
    else None
  }

  /** build_install_plan: one ChangeSet for the package, the lock, the audit log and the transaction that undoes
      them. */
  function Planned(codec: Codec, t: Tree, c: Candidate, p: Package, replaceExisting: bool, now: string)
    : Result<InstallPlan, InstallError>
  {
    if Installable(c, p).Some? then Err(Installable(c, p).value)
    else
      var provenance := c.provenance.value;
      var lockText := RenderLock(codec, t, ProviderEntry(c, provenance, None), codec.hex(provenance.digest));
      var transactionPath := TransactionPath(ProviderId(c));
      match AppendAudit(codec, t, c, "planned", now)
      case Err(e) => Err(e)
      case Ok(auditText) =>
        if exists f <- p.files :: !SafePath(f.path) then Err(UnsafePath)
        else if transactionPath in t && !replaceExisting && !PassedPreflight(codec, t, c) then Err(AlreadyInstalled)
        else
          match Recorded(t, c, p)
          case Err(e) => Err(e)
          case Ok(saved) =>
            if !SafePath(transactionPath) then Err(UnsafePath)
            else
              var transaction := codec.dumpTransaction(Transaction(c.name, ProviderId(c), c.ref, saved));
              var proposals := PackageProposals(p, c) +
                [Own(LOCK_PATH, lockText, c), Own(AUDIT_PATH, auditText, c), Own(transactionPath, transaction, c)];
              match Built(t, proposals, p.commands)
              case Err(e) => Err(Build(e))
              case Ok(cs) => Ok(InstallPlan(c, p, cs, provenance.level))
  }

  // --- The staged tree ---

  /** copytree without anything called .git. */
  function Copied(t: ClosedTree): (copy: ClosedTree)
  {
    var copy: Tree := map q <- t.Keys | ".git" !in q :: t[q];
    assert Closed(copy) by {
      forall q <- copy.Keys | q != [] ensures Parent(q) in copy && copy[Parent(q)].Dir? {
        assert Parent(q) in t;
      }
    }
    copy
  }

  function Retarget(ops: seq<ChangeOperation>): seq<ChangeProposal> {
    seq(|ops|, i requires 0 <= i < |ops| => ChangeProposal(ops[i].path, ops[i].after, ops[i].ownership, ops[i].note))
  }

  datatype Inventory = Inventory(ids: set<string>, digest: string)

  /** The staged tree, verified and with its lock and audit log completed, from the tree the staged apply left. */
  function Completed(codec: Codec, c: Candidate, s: Tree, inventory: Inventory, preflight: string, now: string)
    : Result<Tree, InstallError>
  {
    if ProviderId(c) !in inventory.ids then Err(NotResolved)
    else if c.provenance.None? then Err(NotPinned)
    else
      match WriteText(s, LOCK_PATH,
        RenderLock(codec, s, ProviderEntry(c, c.provenance.value, Some(preflight)), inventory.digest))
      case Err(e) => Err(e)
      case Ok(locked) =>
        match AppendAudit(codec, locked, c, "installed", now)
        case Err(e) => Err(e)
        case Ok(audit) => WriteText(locked, AUDIT_PATH, audit)
  }

  // --- The tree commit ---

  function ByteTree(t: Tree): map<Path, Content> {
    map q <- t.Keys | t[q].File? && ".git" !in q :: t[q].content
  }

  /** The files that differ, .git aside. */
  function Changed(t: Tree, staged: Tree): set<Path> {
    set q <- ByteTree(t).Keys + ByteTree(staged).Keys |
      !(q in ByteTree(t) && q in ByteTree(staged) && ByteTree(t)[q] == ByteTree(staged)[q])
  }
}
