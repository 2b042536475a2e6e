/** Risk classification of task requests, and the phased plan it compiles to. */
module Scenarios {
  import opened Wrappers

  datatype RiskLevel = Low | Medium | High | Critical
  datatype ScopeLevel = Local | MultiComponent | CrossSystem
  datatype DataSensitivity = Public | Internal | Sensitive | Regulated
  datatype Reversibility = Reversible | Difficult | Irreversible
  datatype TaskOperation =
    | ReadProject | WriteProject | ExecuteCommand | Network | Deploy | MigrateData | ModifySecurity | HandlePayment
  datatype ScenarioId =
    | Bug | Feature | Refactor | Security | Migration | ReviewOnly | Performance | DependencyUpgrade
    | Testing | UiAccessibility | Documentation | Release | Incident | Exploration
  datatype WorkflowMode = Fast | Standard | Rigorous

  datatype ScenarioRequest = ScenarioRequest(scenario: ScenarioId, scope: ScopeLevel, sensitivity: DataSensitivity,
                                             reversibility: Reversibility, operations: set<TaskOperation>)

  datatype Risk = Risk(level: RiskLevel, requiresApproval: bool, rollbackRequired: bool)

  datatype Classification = Classification(scenario: ScenarioId, risk: Risk, mode: WorkflowMode, includesWrite: bool)

  datatype PhaseId = Inspect | Design | Approval | Rollback | Implement | Verify | Review | OtherPhase(name: string)

  datatype TaskPhase = TaskPhase(id: PhaseId, conditions: set<string>, requiresApproval: bool)

  function Order(l: RiskLevel): nat {
    match l
    case Low => 0
    case Medium => 1
    case High => 2
    case Critical => 3
  }

  function MaxLevel(a: RiskLevel, b: RiskLevel): RiskLevel { if Order(a) < Order(b) then b else a }

  predicate Forced(s: ScenarioId) { s in {Security, Migration, Release, Incident} }

  function ScopeFactor(s: ScopeLevel): RiskLevel {
    match s
    case Local => Low
    case MultiComponent => Medium
    case CrossSystem => High
  }

  function SensitivityFactor(s: DataSensitivity): RiskLevel {
    match s
    case Public => Low
    case Internal => Medium
    case Sensitive => High
    case Regulated => Critical
  }

  function ReversibilityFactor(r: Reversibility): RiskLevel {
    match r
    case Reversible => Low
    case Difficult => High
    case Irreversible => Critical
  }

  const DANGEROUS := {Network, Deploy, MigrateData, ModifySecurity, ExecuteCommand}
  const WRITES := {WriteProject, ExecuteCommand, Deploy, MigrateData, ModifySecurity, HandlePayment}

  function OperationsFactor(ops: set<TaskOperation>): RiskLevel {
    if HandlePayment in ops then Critical
    else if ops * DANGEROUS != {} then High
    else if WriteProject in ops then Medium
    else Low
  }

  function ModeOf(l: RiskLevel): WorkflowMode {
    match l
    case Low => Fast
    case Medium => Standard
    case _ => Rigorous
  }

  function Classify(r: ScenarioRequest): Classification {
    var derived := MaxLevel(MaxLevel(ScopeFactor(r.scope), SensitivityFactor(r.sensitivity)),
                            MaxLevel(ReversibilityFactor(r.reversibility), OperationsFactor(r.operations)));
    var level := MaxLevel(derived, if Forced(r.scenario) then High else Low);
    var rollback := r.scenario.Migration? || r.reversibility.Irreversible? || MigrateData in r.operations;
    var approval := Forced(r.scenario) || Order(level) >= Order(High) || HandlePayment in r.operations;
    Classification(r.scenario, Risk(level, approval, rollback), ModeOf(level), r.operations * WRITES != {})
  }

  /** The model may raise the risk, and nothing else. */
  function Validated(c: Classification, model: Option<RiskLevel>): Classification {
    if model.None? || Order(model.value) <= Order(c.risk.level) then c
    else
      var high := Order(model.value) >= Order(High);
      c.(risk := c.risk.(level := model.value, requiresApproval := c.risk.requiresApproval || high),
         mode := if high then Rigorous else Standard)
  }

  function PhaseIds(c: Classification): seq<PhaseId> {
    var approval := if c.risk.requiresApproval then [Approval] else [];
    var implement := if c.includesWrite then [Implement] else [];
    if c.mode.Fast? then [Inspect] + approval + implement + [Verify]
    else
      var rollback := if c.includesWrite && (c.mode.Rigorous? || c.risk.rollbackRequired) then [Rollback] else [];
      [Inspect, Design] + approval + rollback + implement + [Verify, Review]
  }

  // The list the source grows under its branches.
  method BuildPhaseIds(c: Classification) returns (ids: seq<PhaseId>)
    ensures ids == PhaseIds(c)
  {
    if c.mode.Fast? {
      ids := [Inspect];
      if c.risk.requiresApproval { ids := ids + [Approval]; }
      if c.includesWrite { ids := ids + [Implement]; }
      ids := ids + [Verify];
      return;
    }
    ids := [Inspect, Design];
    if c.risk.requiresApproval { ids := ids + [Approval]; }
    if c.includesWrite && (c.mode.Rigorous? || c.risk.rollbackRequired) { ids := ids + [Rollback]; }
    if c.includesWrite { ids := ids + [Implement]; }
    ids := ids + [Verify, Review];
  }

  function PhasesOf(ids: seq<PhaseId>, conditions: PhaseId -> set<string>): seq<TaskPhase> {
    seq(|ids|, i requires 0 <= i < |ids| => TaskPhase(ids[i], conditions(ids[i]), ids[i].Approval?))
  }

  /** The plan of a request, with or without the model's opinion. */
  function PlanOf(r: ScenarioRequest, model: Option<RiskLevel>, conditions: PhaseId -> set<string>): seq<TaskPhase> {
    PhasesOf(PhaseIds(Validated(Classify(r), model)), conditions)
  }

  // --- What classification promises ---

  /** Which requests are of high, critical and low risk, which of them need an approval or a rollback, and which write:
      what the tables come to, reason by reason. */
  lemma ClassifiedIs(r: ScenarioRequest)
    ensures Classify(r).risk.level in {High, Critical} <==>
      (|| r.scope == CrossSystem || r.sensitivity in {Sensitive, Regulated}
       || r.reversibility in {Difficult, Irreversible} || r.scenario in {Security, Migration, Release, Incident}
       || Network in r.operations || Deploy in r.operations || MigrateData in r.operations
       || ModifySecurity in r.operations || ExecuteCommand in r.operations || HandlePayment in r.operations)
    ensures Classify(r).risk.level == Critical <==>
      r.sensitivity == Regulated || r.reversibility == Irreversible || HandlePayment in r.operations
    ensures Classify(r).risk.level == Low <==>
      (&& r.scope == Local && r.sensitivity == Public && r.reversibility == Reversible && r.operations <= {ReadProject}
       && r.scenario !in {Security, Migration, Release, Incident})
    ensures Classify(r).risk.requiresApproval <==> Classify(r).risk.level in {High, Critical}
    ensures Classify(r).risk.rollbackRequired <==>
      r.scenario == Migration || r.reversibility == Irreversible || MigrateData in r.operations
    ensures Classify(r).includesWrite <==>
      (|| WriteProject in r.operations || ExecuteCommand in r.operations || Deploy in r.operations
       || MigrateData in r.operations || ModifySecurity in r.operations || HandlePayment in r.operations)
    ensures Classify(r).scenario == r.scenario
  {
    DangerousIs(r.operations);
    WritesAre(r.operations);
    if !(r.operations <= {ReadProject}) { SomethingElse(r.operations); }
  }

  lemma DangerousIs(ops: set<TaskOperation>)
    ensures ops * DANGEROUS != {} <==>
      (|| Network in ops || Deploy in ops || MigrateData in ops || ModifySecurity in ops || ExecuteCommand in ops)
  {
    assert forall op :: op in ops && op in DANGEROUS ==> op in ops * DANGEROUS;
  }

  lemma WritesAre(ops: set<TaskOperation>)
    ensures ops * WRITES != {} <==>
      (|| WriteProject in ops || ExecuteCommand in ops || Deploy in ops || MigrateData in ops || ModifySecurity in ops
       || HandlePayment in ops)
  {
    assert forall op :: op in ops && op in WRITES ==> op in ops * WRITES;
  }

  lemma SomethingElse(ops: set<TaskOperation>)
    requires !(ops <= {ReadProject})
    ensures OperationsFactor(ops) != Low
  {
    var op :| op in ops && op != ReadProject;
    DangerousIs(ops);
    match op
    case WriteProject =>
    case HandlePayment =>
    case _ =>
  }

  /** With the model's opinion the risk is the greater of the two, from low over medium and high to critical; the mode
      goes by it, and so does the approval. */
  lemma ValidatedLevel(r: ScenarioRequest, model: Option<RiskLevel>)
    ensures var c, d := Validated(Classify(r), model), Classify(r);
      && (c.risk.level == Critical <==> d.risk.level == Critical || model == Some(Critical))
      && (c.risk.level in {High, Critical} <==>
            d.risk.level in {High, Critical} || model in {Some(High), Some(Critical)})
      && (c.risk.level == Low <==> d.risk.level == Low && model in {None, Some(Low)})
      && (c.risk.requiresApproval <==> c.risk.level in {High, Critical})
      && (c.mode == Fast <==> c.risk.level == Low) && (c.mode == Standard <==> c.risk.level == Medium)
  {
    ApprovalMeansHigh(r);
  }

  // The order in which phases come, whichever of them there are.
  function Turn(id: PhaseId): nat {
    match id
    case Inspect => 0
    case Design => 1
    case Approval => 2
    case Rollback => 3
    case Implement => 4
    case Verify => 5
    case Review => 6
    case OtherPhase(_) => 7
  }

  ghost predicate HasPhase(plan: seq<TaskPhase>, id: PhaseId) {
    exists i :: 0 <= i < |plan| && plan[i].id == id
  }

  /** The phases of a plan: which there are, by the risk and by whether something is written, and in which order. */
  lemma PlanIs(r: ScenarioRequest, model: Option<RiskLevel>, conditions: PhaseId -> set<string>)
    ensures var plan, c := PlanOf(r, model, conditions), Validated(Classify(r), model);
      && (forall i :: 0 <= i < |plan| ==>
            plan[i] == TaskPhase(plan[i].id, conditions(plan[i].id), plan[i].id == Approval))
      && (forall i, j :: 0 <= i < j < |plan| ==> Turn(plan[i].id) < Turn(plan[j].id))
      && forall id :: HasPhase(plan, id) <==>
           match id
           case Inspect => true
           case Design => c.risk.level != Low
           case Approval => c.risk.level in {High, Critical}
           case Rollback => c.risk.level in {High, Critical} && c.includesWrite
           case Implement => c.includesWrite
           case Verify => true
           case Review => c.risk.level != Low
           case OtherPhase(_) => false
  {
    var plan, c := PlanOf(r, model, conditions), Validated(Classify(r), model);
    ValidatedLevel(r, model);
    ValidatedIs(r, model);
    assert c.risk.rollbackRequired ==> c.mode.Rigorous?;
    hide Classify, Validated, PhaseIds, Turn;
    PhasesInTurn(c);
    PhasesPresent(c);
    forall id ensures HasPhase(plan, id) <==> id in PhaseIds(c) {
      if id in PhaseIds(c) {
        var i :| 0 <= i < |PhaseIds(c)| && PhaseIds(c)[i] == id;
        assert plan[i].id == id;
      }
    }
  }

  lemma PhasesPresent(c: Classification)
    requires c.risk.rollbackRequired ==> c.mode.Rigorous?
    ensures forall id :: id in PhaseIds(c) <==>
      match id
      case Inspect => true
      case Design => !c.mode.Fast?
      case Approval => c.risk.requiresApproval
      case Rollback => c.mode.Rigorous? && c.includesWrite
      case Implement => c.includesWrite
      case Verify => true
      case Review => !c.mode.Fast?
      case OtherPhase(_) => false
  {
    forall id ensures id in PhaseIds(c) <==> id in PhaseSet(c) {}
  }

  function PhaseSet(c: Classification): set<PhaseId> {
    {Inspect, Verify} + (if c.mode.Fast? then {} else {Design, Review})
    + (if c.risk.requiresApproval then {Approval} else {}) + (if c.includesWrite then {Implement} else {})
    + (if c.mode.Rigorous? && c.includesWrite then {Rollback} else {})
  }

  // In the order of their turns, which are from a up to b.
  ghost predicate InTurn(ids: seq<PhaseId>, a: nat, b: nat) {
    && (forall i, j :: 0 <= i < j < |ids| ==> Turn(ids[i]) < Turn(ids[j]))
    && forall id <- ids :: a <= Turn(id) < b
  }

  lemma PhasesInTurn(c: Classification)
    requires c.risk.rollbackRequired ==> c.mode.Rigorous?
    ensures InTurn(PhaseIds(c), 0, 7)
  {
    var write := c.includesWrite;
    PhaseIdsAre(c);
    hide InTurn, PhaseIds, Maybe;
    if c.mode.Fast? {
      MiddleInTurn([Inspect], c.risk.requiresApproval, false, write, [Verify]);
    } else {
      MiddleInTurn([Inspect, Design], c.risk.requiresApproval, c.mode.Rigorous? && write, write, [Verify, Review]);
    }
  }

  function Maybe(there: bool, id: PhaseId): seq<PhaseId> { if there then [id] else [] }

  lemma PhaseIdsAre(c: Classification)
    requires c.risk.rollbackRequired ==> c.mode.Rigorous?
    ensures var approval, implement := Maybe(c.risk.requiresApproval, Approval), Maybe(c.includesWrite, Implement);
      PhaseIds(c) ==
        if c.mode.Fast? then [Inspect] + approval + Maybe(false, Rollback) + implement + [Verify]
        else [Inspect, Design] + approval + Maybe(c.mode.Rigorous? && c.includesWrite, Rollback) + implement
             + [Verify, Review]
  {
    var approval := Maybe(c.risk.requiresApproval, Approval);
    assert [Inspect] + approval + [] == [Inspect] + approval;
  }

  lemma MiddleInTurn(front: seq<PhaseId>, approval: bool, rollback: bool, implement: bool, back: seq<PhaseId>)
    requires front in {[Inspect], [Inspect, Design]} && back in {[Verify], [Verify, Review]}
    ensures InTurn(front + Maybe(approval, Approval) + Maybe(rollback, Rollback) + Maybe(implement, Implement) + back,
                   0, 7)
  {
    assert InTurn(front, 0, 2) && InTurn(back, 5, 7);
    MaybeInTurn(approval, Approval, 2);
    MaybeInTurn(rollback, Rollback, 3);
    MaybeInTurn(implement, Implement, 4);
    hide InTurn, Maybe;
    var a, b, c := Maybe(approval, Approval), Maybe(rollback, Rollback), Maybe(implement, Implement);
    TurnsOfConcat(front, a, 0, 2, 3);
    TurnsOfConcat(front + a, b, 0, 3, 4);
    TurnsOfConcat(front + a + b, c, 0, 4, 5);
    TurnsOfConcat(front + a + b + c, back, 0, 5, 7);
  }

  lemma MaybeInTurn(there: bool, id: PhaseId, n: nat)
    requires Turn(id) == n
    ensures InTurn(Maybe(there, id), n, n + 1)
  {
  }

  lemma TurnsOfConcat(front: seq<PhaseId>, back: seq<PhaseId>, a: nat, b: nat, c: nat)
    requires InTurn(front, a, b) && InTurn(back, b, c) && a <= b <= c
    ensures InTurn(front + back, a, c)
  {
  }

  /** The model never lowers anything; approval is required from high risk up, and the mode follows the level. */
  lemma ValidatedIs(r: ScenarioRequest, model: Option<RiskLevel>)
    ensures var c, d := Validated(Classify(r), model), Classify(r);
      && Order(c.risk.level) >= Order(d.risk.level) && (model.Some? ==> Order(c.risk.level) >= Order(model.value))
      && (c.risk.level == d.risk.level || Some(c.risk.level) == model)
      && (d.risk.requiresApproval ==> c.risk.requiresApproval) && c.risk.rollbackRequired == d.risk.rollbackRequired
      && c.includesWrite == d.includesWrite
      && c.mode == ModeOf(c.risk.level)
      && (c.risk.requiresApproval <==> Order(c.risk.level) >= Order(High))
      && (c.risk.rollbackRequired ==> Order(c.risk.level) >= Order(High))
  {
    ApprovalMeansHigh(r);
  }

  // Every reason to ask for approval or a rollback already makes the risk high.
  lemma ApprovalMeansHigh(r: ScenarioRequest)
    ensures Classify(r).risk.requiresApproval <==> Order(Classify(r).risk.level) >= Order(High)
    ensures Classify(r).risk.rollbackRequired ==> Order(Classify(r).risk.level) >= Order(High)
  {
    if MigrateData in r.operations {
      assert MigrateData in r.operations * DANGEROUS;
    }
  }

  function ScopeRank(s: ScopeLevel): nat { if s.Local? then 0 else if s.MultiComponent? then 1 else 2 }

  function SensitivityRank(s: DataSensitivity): nat {
    if s.Public? then 0 else if s.Internal? then 1 else if s.Sensitive? then 2 else 3
  }

  function ReversibilityRank(r: Reversibility): nat { if r.Reversible? then 0 else if r.Difficult? then 1 else 2 }

  /** A request that reaches further, touches more sensitive data, is harder to undo or does more is never classified
      as less risky. */
  lemma ClassificationIsMonotone(r: ScenarioRequest, s: ScenarioRequest, a: Option<RiskLevel>, b: Option<RiskLevel>)
    requires r.scenario == s.scenario && ScopeRank(r.scope) <= ScopeRank(s.scope)
    requires SensitivityRank(r.sensitivity) <= SensitivityRank(s.sensitivity)
    requires ReversibilityRank(r.reversibility) <= ReversibilityRank(s.reversibility) && r.operations <= s.operations
    requires a.None? || (b.Some? && Order(a.value) <= Order(b.value))
    ensures var c, d := Validated(Classify(r), a), Validated(Classify(s), b);
      && Order(c.risk.level) <= Order(d.risk.level)
      && (c.risk.requiresApproval ==> d.risk.requiresApproval) && (c.risk.rollbackRequired ==> d.risk.rollbackRequired)
      && (c.includesWrite ==> d.includesWrite)
  {
    ValidatedIs(r, a);
    ValidatedIs(s, b);
    OperationsAreMonotone(r.operations, s.operations);
  }

  lemma OperationsAreMonotone(a: set<TaskOperation>, b: set<TaskOperation>)
    requires a <= b
    ensures Order(OperationsFactor(a)) <= Order(OperationsFactor(b))
    ensures a * WRITES != {} ==> b * WRITES != {}
  {
    if a * DANGEROUS != {} { var op :| op in a * DANGEROUS; assert op in b * DANGEROUS; }
    if a * WRITES != {} { var op :| op in a * WRITES; assert op in b * WRITES; }
  }

  /** Fast plans never need an approval or a rollback. */
  lemma FastNeedsNeither(r: ScenarioRequest, model: Option<RiskLevel>)
    ensures var c := Validated(Classify(r), model);
      c.mode.Fast? ==> !c.risk.requiresApproval && !c.risk.rollbackRequired
  {
    ValidatedIs(r, model);
  }

  /** In a plan, implement comes after the approval and the rollback that are required, before verify, and only once. */
  lemma ImplementIsGuarded(r: ScenarioRequest, model: Option<RiskLevel>)
    ensures var c := Validated(Classify(r), model); var ids := PhaseIds(c);
      && (forall i, j :: 0 <= i < j < |ids| ==> ids[i] != ids[j])
      && (Implement in ids <==> c.includesWrite) && (Approval in ids <==> c.risk.requiresApproval)
      && forall i :: 0 <= i < |ids| && ids[i] == Implement ==>
           && (c.risk.requiresApproval ==> Approval in ids[..i])
           && (c.risk.rollbackRequired ==> Rollback in ids[..i])
           && Verify in ids[i..]
  {
    var c := Validated(Classify(r), model);
    ValidatedIs(r, model);
    hide Classify, Validated;
    var ids := PhaseIds(c);
    var at := (if c.mode.Fast? then 1 else 2) + (if c.risk.requiresApproval then 1 else 0)
              + (if !c.mode.Fast? && (c.mode.Rigorous? || c.risk.rollbackRequired) then 1 else 0);
    if c.includesWrite {
      assert ids[at] == Implement && ids[at + 1] == Verify && ids[at..][1] == Verify;
      if c.risk.requiresApproval {
        var k := if c.mode.Fast? then 1 else 2;
        assert ids[k] == Approval && ids[..at][k] == Approval;
      }
      if c.risk.rollbackRequired { assert ids[at - 1] == Rollback && ids[..at][at - 1] == Rollback; }
    }
  }
}
