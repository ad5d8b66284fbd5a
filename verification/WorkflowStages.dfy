/** packages/orchestration/src/stages.ts: the stage transitions of one Subtask and their evidence. */
module WorkflowStages {
  import opened Options
  import opened Graph
  import opened Dispatch
  import opened Lists

  datatype QaOutcome = NOT_RUN | PASS | BLOCKING_FAIL

  datatype Code =
    | PLAN_CANDIDATE_PRESENT | PLAN_REVIEW_SATISFIED | GRAPH_MATERIALIZED | DEPENDENCIES_READY
    | REPOSITORY_PREFLIGHT_PASSED | CONTEXT_PREFLIGHT_PASSED | BUDGET_AVAILABLE | CONCURRENCY_AVAILABLE
    | WORKTREE_OWNERSHIP_AVAILABLE | HUMAN_APPROVAL_SATISFIED | EXECUTION_EVIDENCE_PASSED
    | VERIFICATION_EVIDENCE_PASSED | HARDENING_EVIDENCE_PASSED | FRESH_QA_OUTCOME_RECORDED
    | REPAIR_EVIDENCE_PASSED | FOCUSED_RE_QA_OUTCOME_RECORDED

  /** The facts given: flags by their code, and the two QA outcomes. */
  datatype Facts = Facts(flags: map<Code, bool>, freshQa: Option<QaOutcome>, focusedReQa: Option<QaOutcome>)

  predicate IsOutcome(code: Code) { code == FRESH_QA_OUTCOME_RECORDED || code == FOCUSED_RE_QA_OUTCOME_RECORDED }

  predicate Given(e: Facts, code: Code) {
    match code
    case FRESH_QA_OUTCOME_RECORDED => e.freshQa.Some?
    case FOCUSED_RE_QA_OUTCOME_RECORDED => e.focusedReQa.Some?
    case _ => code in e.flags
  }

  /** evidenceValue. */
  predicate Holds(e: Facts, code: Code) {
    match code
    case FRESH_QA_OUTCOME_RECORDED => e.freshQa == Some(PASS) || e.freshQa == Some(BLOCKING_FAIL)
    case FOCUSED_RE_QA_OUTCOME_RECORDED => e.focusedReQa == Some(PASS) || e.focusedReQa == Some(BLOCKING_FAIL)
    case _ => code in e.flags && e.flags[code]
  }

  /** hasOnlyRelevantEvidence. */
  predicate OnlyRelevant(e: Facts, required: seq<Code>) {
    && (forall code :: code in e.flags ==> code in required)
    && (e.freshQa.Some? ==> FRESH_QA_OUTCOME_RECORDED in required)
    && (e.focusedReQa.Some? ==> FOCUSED_RE_QA_OUTCOME_RECORDED in required)
  }

  datatype StageReason =
    | InvalidInput | InvalidStageTransition | EvidenceBlocked | DependencyBlocked | BudgetBlocked
    | ConcurrencyBlocked | AuthorityLacking | RepairReQaExhausted

  datatype StageResult =
    | Refused(reason: StageReason, expected: Option<WorkflowStage>, missing: seq<Code>)
    | NeedsHuman(reason: StageReason, missing: seq<Code>)
    | MayMove(next: WorkflowStage, required: seq<Code>, repairCyclesUsed: nat)

  function GetWorkflowStagePath(profile: WorkflowProfile): seq<WorkflowStage> {
    match profile
    case Low => [EXECUTE, VERIFY, COMPLETE]
    case Standard => [PLAN, REVIEW, MATERIALIZE, EXECUTE, VERIFY, COMPLETE]
    case HighRiskFoundation => [PLAN, REVIEW, MATERIALIZE, EXECUTE, HARDEN, FRESH_QA, COMPLETE]
  }

  function DeriveInitialWorkflowStage(profile: WorkflowProfile): WorkflowStage {
    if profile == Low then EXECUTE else MATERIALIZE
  }

  /** The stage after the first occurrence from index i on. */
  function After(path: seq<WorkflowStage>, i: nat, stage: WorkflowStage): Option<WorkflowStage>
    decreases |path| - i
  {
    if i + 1 >= |path| then None else if path[i] == stage then Some(path[i + 1]) else After(path, i + 1, stage)
  }

  function NextStageFor(profile: WorkflowProfile, stage: WorkflowStage): Option<WorkflowStage> {
    After(GetWorkflowStagePath(profile), 0, stage)
  }

  const EXECUTION_ENTRY: seq<Code> :=
    [GRAPH_MATERIALIZED, DEPENDENCIES_READY, REPOSITORY_PREFLIGHT_PASSED, CONTEXT_PREFLIGHT_PASSED, BUDGET_AVAILABLE,
     CONCURRENCY_AVAILABLE, WORKTREE_OWNERSHIP_AVAILABLE, HUMAN_APPROVAL_SATISFIED]

  function StandardRequirements(stage: WorkflowStage, next: WorkflowStage): seq<Code> {
    match (stage, next)
    case (PLAN, REVIEW) => [PLAN_CANDIDATE_PRESENT]
    case (REVIEW, MATERIALIZE) => [PLAN_REVIEW_SATISFIED]
    case (MATERIALIZE, EXECUTE) => EXECUTION_ENTRY
    case (EXECUTE, FRESH_QA) => [EXECUTION_EVIDENCE_PASSED]
    case (EXECUTE, VERIFY) => [EXECUTION_EVIDENCE_PASSED]
    case (EXECUTE, HARDEN) => [EXECUTION_EVIDENCE_PASSED]
    case (VERIFY, COMPLETE) => [VERIFICATION_EVIDENCE_PASSED]
    case (HARDEN, FRESH_QA) => [HARDENING_EVIDENCE_PASSED]
    case (REPAIR, FOCUSED_RE_QA) => [REPAIR_EVIDENCE_PASSED]
    case _ => []
  }

  function ReasonForMissingEvidence(missing: seq<Code>): StageReason {
    if DEPENDENCIES_READY in missing then DependencyBlocked
    else if BUDGET_AVAILABLE in missing then BudgetBlocked
    else if CONCURRENCY_AVAILABLE in missing then ConcurrencyBlocked
    else if HUMAN_APPROVAL_SATISFIED in missing then AuthorityLacking
    else EvidenceBlocked
  }

  function Missing(e: Facts, required: seq<Code>): seq<Code> {
    if required == [] then []
    else Missing(e, required[..|required| - 1]) + if Holds(e, required[|required| - 1]) then [] else [required[|required| - 1]]
  }

  // ---------------------------------------------------------------- the evaluation

  /** What one stage expects: a result at once, or the next stage with its evidence and the repair cycles after it. */
  datatype Expectation = Final(r: StageResult) | Expect(next: Option<WorkflowStage>, required: seq<Code>, used: nat)

  predicate RepairStage(stage: WorkflowStage) { stage == REPAIR || stage == FOCUSED_RE_QA }

  /** Repair cycles are counted in the repair stages and kept at the end. */
  predicate CyclesFit(profile: WorkflowProfile, stage: WorkflowStage, used: nat) {
    if profile == Low then used == 0
    else if RepairStage(stage) then used == 1 || used == 2
    else stage == COMPLETE || used == 0
  }

  function ExpectAfterQa(e: Facts, code: Code, outcome: Option<QaOutcome>, used: nat, mayRepair: bool): Expectation {
    if !OnlyRelevant(e, [code]) then Final(Refused(InvalidInput, None, []))
    else if !Holds(e, code) then Final(Refused(EvidenceBlocked, None, [code]))
    else if outcome == Some(BLOCKING_FAIL) then
      if mayRepair then Expect(Some(REPAIR), [code], used + 1) else Final(NeedsHuman(RepairReQaExhausted, []))
    else Expect(Some(COMPLETE), [code], used)
  }

  function Expected(profile: WorkflowProfile, stage: WorkflowStage, requested: WorkflowStage, e: Facts, used: nat,
                    limit: nat): Expectation {
    if profile != Low && stage == FRESH_QA then ExpectAfterQa(e, FRESH_QA_OUTCOME_RECORDED, e.freshQa, 0, limit > 0)
    else if profile != Low && stage == REPAIR then Expect(Some(FOCUSED_RE_QA), [REPAIR_EVIDENCE_PASSED], used)
    else if profile != Low && stage == FOCUSED_RE_QA then
      ExpectAfterQa(e, FOCUSED_RE_QA_OUTCOME_RECORDED, e.focusedReQa, used, used < limit)
    else
      var next := if profile == Standard && stage == EXECUTE && requested == FRESH_QA then Some(FRESH_QA) else NextStageFor(profile, stage);
      Expect(next, if next.Some? then StandardRequirements(stage, next.value) else [], used)
  }

  /** evaluateStageTransition, of the profile of the Subtask. */
  function EvaluateStageTransition(profile: WorkflowProfile, stage: WorkflowStage, requested: WorkflowStage, e: Facts,
                                   used: nat, limit: nat): StageResult {
    if (exists code :: code in e.flags && IsOutcome(code)) || used > 2 || limit > 2 || used > limit then Refused(InvalidInput, None, [])
    else if !CyclesFit(profile, stage, used) then Refused(InvalidInput, None, [])
    else
      match Expected(profile, stage, requested, e, used, limit)
      case Final(r) => r
      case Expect(next, required, after) =>
        if !OnlyRelevant(e, required) then Refused(InvalidInput, next, [])
        else if next.None? || requested != next.value || stage == COMPLETE then Refused(InvalidStageTransition, next, [])
        else
          var missing := Missing(e, required);
          if missing == [] then MayMove(next.value, required, after)
          else if ReasonForMissingEvidence(missing) == AuthorityLacking then NeedsHuman(AuthorityLacking, missing)
          else Refused(ReasonForMissingEvidence(missing), next, missing)
  }

  // ---------------------------------------------------------------- what a transition needs

  /** Cycles are used up by repairs only: none for LOW, at least one during a repair, none before the first. */
  predicate CyclesInStep(profile: WorkflowProfile, stage: WorkflowStage, used: nat) {
    && (used > 0 ==> profile != Low && (RepairStage(stage) || stage == COMPLETE))
    && (profile != Low && RepairStage(stage) ==> used > 0)
  }

  lemma CyclesExact(profile: WorkflowProfile, stage: WorkflowStage, used: nat)
    requires used <= 2
    ensures CyclesFit(profile, stage, used) <==> CyclesInStep(profile, stage, used)
  {}

  /** The transitions there are. */
  predicate Leads(profile: WorkflowProfile, stage: WorkflowStage, next: WorkflowStage) {
    match (stage, next)
    case (PLAN, REVIEW) => profile != Low
    case (REVIEW, MATERIALIZE) => profile != Low
    case (MATERIALIZE, EXECUTE) => profile != Low
    case (EXECUTE, VERIFY) => profile != HighRiskFoundation
    case (VERIFY, COMPLETE) => profile != HighRiskFoundation
    case (EXECUTE, HARDEN) => profile == HighRiskFoundation
    case (HARDEN, FRESH_QA) => profile == HighRiskFoundation
    case (EXECUTE, FRESH_QA) => profile == Standard
    case (FRESH_QA, _) => profile != Low && (next == COMPLETE || next == REPAIR)
    case (REPAIR, FOCUSED_RE_QA) => profile != Low
    case (FOCUSED_RE_QA, _) => profile != Low && (next == COMPLETE || next == REPAIR)
    case _ => false
  }

  /** The evidence a stage is left on. */
  function Asks(stage: WorkflowStage): set<Code> {
    match stage
    case PLAN => {PLAN_CANDIDATE_PRESENT}
    case REVIEW => {PLAN_REVIEW_SATISFIED}
    case MATERIALIZE =>
      {GRAPH_MATERIALIZED, DEPENDENCIES_READY, REPOSITORY_PREFLIGHT_PASSED, CONTEXT_PREFLIGHT_PASSED, BUDGET_AVAILABLE,
       CONCURRENCY_AVAILABLE, WORKTREE_OWNERSHIP_AVAILABLE, HUMAN_APPROVAL_SATISFIED}
    case EXECUTE => {EXECUTION_EVIDENCE_PASSED}
    case VERIFY => {VERIFICATION_EVIDENCE_PASSED}
    case HARDEN => {HARDENING_EVIDENCE_PASSED}
    case FRESH_QA => {FRESH_QA_OUTCOME_RECORDED}
    case REPAIR => {REPAIR_EVIDENCE_PASSED}
    case FOCUSED_RE_QA => {FOCUSED_RE_QA_OUTCOME_RECORDED}
    case COMPLETE => {}
  }

  /** After quality assurance the outcome decides where to go. */
  predicate OutcomeFits(stage: WorkflowStage, next: WorkflowStage, e: Facts) {
    && (stage == FRESH_QA ==> e.freshQa == Some(if next == COMPLETE then PASS else BLOCKING_FAIL))
    && (stage == FOCUSED_RE_QA ==> e.focusedReQa == Some(if next == COMPLETE then PASS else BLOCKING_FAIL))
  }

  predicate FlagsTyped(e: Facts) { forall code :: code in e.flags ==> !IsOutcome(code) }

  /** Exactly the evidence asked for is given, and all of it holds. */
  ghost predicate EvidenceComplete(stage: WorkflowStage, e: Facts) {
    forall code :: (Given(e, code) <==> code in Asks(stage)) && (code in Asks(stage) ==> Holds(e, code))
  }

  /** The cycles after a step: a repair takes one more, within the limit. */
  predicate CyclesGoOn(stage: WorkflowStage, next: WorkflowStage, used: nat, after: nat, limit: nat) {
    after == (if next == REPAIR then used + 1 else used) && after <= limit <= 2
  }

  lemma {:induction false} NothingMissing(e: Facts, required: seq<Code>)
    ensures Missing(e, required) == [] <==> forall code :: code in required ==> Holds(e, code)
  {
    if required != [] {
      NothingMissing(e, required[..|required| - 1]);
      assert required == required[..|required| - 1] + [required[|required| - 1]];
    }
  }

  lemma {:induction false} AfterExact(path: seq<WorkflowStage>, i: nat, stage: WorkflowStage, k: nat)
    requires i <= k < |path| && path[k] == stage && forall j :: i <= j < k ==> path[j] != stage
    ensures After(path, i, stage) == if k + 1 < |path| then Some(path[k + 1]) else None
    decreases k - i
  {
    if i < k { AfterExact(path, i + 1, stage, k); }
  }

  lemma {:induction false} AfterNowhere(path: seq<WorkflowStage>, i: nat, stage: WorkflowStage)
    requires forall j :: i <= j < |path| ==> path[j] != stage
    ensures After(path, i, stage).None?
    decreases |path| - i
  {
    if i < |path| { AfterNowhere(path, i + 1, stage); }
  }

  /** The successor on the path, spelled out. */
  function Successor(profile: WorkflowProfile, stage: WorkflowStage): Option<WorkflowStage> {
    match stage
    case PLAN => if profile == Low then None else Some(REVIEW)
    case REVIEW => if profile == Low then None else Some(MATERIALIZE)
    case MATERIALIZE => if profile == Low then None else Some(EXECUTE)
    case EXECUTE => Some(if profile == HighRiskFoundation then HARDEN else VERIFY)
    case VERIFY => if profile == HighRiskFoundation then None else Some(COMPLETE)
    case HARDEN => if profile == HighRiskFoundation then Some(FRESH_QA) else None
    case FRESH_QA => if profile == HighRiskFoundation then Some(COMPLETE) else None
    case _ => None
  }

  function Position(profile: WorkflowProfile, stage: WorkflowStage): nat {
    var early := if profile == Low then 0 else 3;
    match stage
    case PLAN => 0
    case REVIEW => 1
    case MATERIALIZE => 2
    case EXECUTE => early
    case VERIFY => early + 1
    case HARDEN => 4
    case FRESH_QA => 5
    case _ => if profile == HighRiskFoundation then 6 else early + 2
  }

  lemma PathPositions(profile: WorkflowProfile, i: nat)
    requires i < |GetWorkflowStagePath(profile)|
    ensures Position(profile, GetWorkflowStagePath(profile)[i]) == i
  {}

  lemma SuccessorOnPath(profile: WorkflowProfile, stage: WorkflowStage)
    requires Successor(profile, stage).Some?
    ensures stage in GetWorkflowStagePath(profile)
  {
    assert GetWorkflowStagePath(profile)[Position(profile, stage)] == stage;
  }

  lemma PathSuccessors(profile: WorkflowProfile, stage: WorkflowStage)
    ensures NextStageFor(profile, stage) == Successor(profile, stage)
  {
    hide After;
    if Successor(profile, stage).Some? { SuccessorOnPath(profile, stage); }
    var path := GetWorkflowStagePath(profile);
    forall i | 0 <= i < |path| ensures Position(profile, path[i]) == i {
      PathPositions(profile, i);
    }
    if k :| 0 <= k < |path| && path[k] == stage {
      hide Position;
      AfterExact(path, 0, stage, k);
    } else {
      AfterNowhere(path, 0, stage);
    }
  }

  lemma PathLeads(profile: WorkflowProfile, stage: WorkflowStage, next: WorkflowStage)
    ensures NextStageFor(profile, stage) == Some(next) <==>
      Leads(profile, stage, next) && !RepairStage(stage) && (stage == FRESH_QA ==> profile == HighRiskFoundation && next == COMPLETE) &&
      (stage == EXECUTE && profile == Standard ==> next == VERIFY)
  {
    hide NextStageFor;
    PathSuccessors(profile, stage);
  }

  lemma RelevantEvidence(e: Facts, required: seq<Code>, asked: set<Code>)
    requires FlagsTyped(e) && forall code :: code in required <==> code in asked
    ensures OnlyRelevant(e, required) && Missing(e, required) == [] <==>
      forall code :: (Given(e, code) <==> code in asked) && (code in asked ==> Holds(e, code))
  {
    NothingMissing(e, required);
    forall code ensures Holds(e, code) ==> Given(e, code) {}
  }

  lemma RequirementsAsked(profile: WorkflowProfile, stage: WorkflowStage, next: WorkflowStage)
    requires Leads(profile, stage, next) && stage != FRESH_QA && stage != FOCUSED_RE_QA
    ensures forall code :: code in StandardRequirements(stage, next) <==> code in Asks(stage)
  {}

  lemma EvidenceOfMove(profile: WorkflowProfile, stage: WorkflowStage, requested: WorkflowStage, e: Facts)
    requires FlagsTyped(e) && Leads(profile, stage, requested)
    ensures var required := if stage == FRESH_QA then [FRESH_QA_OUTCOME_RECORDED]
        else if stage == FOCUSED_RE_QA then [FOCUSED_RE_QA_OUTCOME_RECORDED]
        else if stage == REPAIR then [REPAIR_EVIDENCE_PASSED]
        else StandardRequirements(stage, requested);
      OnlyRelevant(e, required) && Missing(e, required) == [] <==> EvidenceComplete(stage, e)
  {
    hide Missing, OnlyRelevant, Given, Holds;
    if stage == FRESH_QA {
      RelevantEvidence(e, [FRESH_QA_OUTCOME_RECORDED], Asks(stage));
    } else if stage == FOCUSED_RE_QA {
      RelevantEvidence(e, [FOCUSED_RE_QA_OUTCOME_RECORDED], Asks(stage));
    } else if stage == REPAIR {
      RelevantEvidence(e, [REPAIR_EVIDENCE_PASSED], Asks(stage));
    } else {
      RequirementsAsked(profile, stage, requested);
      RelevantEvidence(e, StandardRequirements(stage, requested), Asks(stage));
    }
  }

  /**
   * Along the transitions there are, with the repair cycles in step, the QA outcome that leads there, and exactly the
   * evidence the stage asks for, all of which holds.
   */
  ghost predicate Permitted(profile: WorkflowProfile, stage: WorkflowStage, requested: WorkflowStage, e: Facts, used: nat, limit: nat) {
    && Leads(profile, stage, requested) && CyclesInStep(profile, stage, used)
    && CyclesGoOn(stage, requested, used, if requested == REPAIR then used + 1 else used, limit)
    && FlagsTyped(e) && OutcomeFits(stage, requested, e) && EvidenceComplete(stage, e)
  }

  lemma QaMove(profile: WorkflowProfile, stage: WorkflowStage, requested: WorkflowStage, e: Facts, used: nat, limit: nat)
    requires FlagsTyped(e) && profile != Low && (stage == FRESH_QA || stage == FOCUSED_RE_QA)
    ensures EvaluateStageTransition(profile, stage, requested, e, used, limit).MayMove? <==>
      Permitted(profile, stage, requested, e, used, limit)
  {
    hide Missing, OnlyRelevant, EvidenceComplete;
    if Leads(profile, stage, requested) { EvidenceOfMove(profile, stage, requested, e); }
    OneMissing(e, FRESH_QA_OUTCOME_RECORDED);
    OneMissing(e, FOCUSED_RE_QA_OUTCOME_RECORDED);
  }

  lemma PathMove(profile: WorkflowProfile, stage: WorkflowStage, requested: WorkflowStage, e: Facts, used: nat, limit: nat)
    requires FlagsTyped(e) && (profile == Low || (stage != FRESH_QA && stage != FOCUSED_RE_QA))
    ensures EvaluateStageTransition(profile, stage, requested, e, used, limit).MayMove? <==>
      Permitted(profile, stage, requested, e, used, limit)
  {
    hide Missing, OnlyRelevant, NextStageFor, StandardRequirements, EvidenceComplete;
    PathLeads(profile, stage, requested);
    if Leads(profile, stage, requested) { EvidenceOfMove(profile, stage, requested, e); }
  }

  lemma MoveGoesThere(profile: WorkflowProfile, stage: WorkflowStage, requested: WorkflowStage, e: Facts, used: nat, limit: nat)
    requires EvaluateStageTransition(profile, stage, requested, e, used, limit).MayMove?
    ensures EvaluateStageTransition(profile, stage, requested, e, used, limit).next == requested
    ensures FlagsTyped(e)
    ensures EvaluateStageTransition(profile, stage, requested, e, used, limit).repairCyclesUsed ==
      if requested == REPAIR then used + 1 else used
  {
    hide Missing, OnlyRelevant, NextStageFor, StandardRequirements;
    PathLeads(profile, stage, REPAIR);
  }

  /** A move is eligible exactly where it is permitted, and then leads to the stage requested. */
  lemma MoveExactly(profile: WorkflowProfile, stage: WorkflowStage, requested: WorkflowStage, e: Facts, used: nat, limit: nat)
    ensures var r := EvaluateStageTransition(profile, stage, requested, e, used, limit);
      && (r.MayMove? <==> Permitted(profile, stage, requested, e, used, limit))
      && (r.MayMove? ==> r.next == requested && r.repairCyclesUsed == if requested == REPAIR then used + 1 else used)
  {
    hide EvaluateStageTransition;
    if EvaluateStageTransition(profile, stage, requested, e, used, limit).MayMove? {
      MoveGoesThere(profile, stage, requested, e, used, limit);
    }
    if FlagsTyped(e) {
      hide Permitted;
      if profile != Low && (stage == FRESH_QA || stage == FOCUSED_RE_QA) {
        QaMove(profile, stage, requested, e, used, limit);
      } else {
        PathMove(profile, stage, requested, e, used, limit);
      }
    }
  }

  lemma OneMissing(e: Facts, code: Code)
    ensures Missing(e, [code]) == [] <==> Holds(e, code)
  {
    assert [code][..0] == [];
  }

  /** A stage is completed on verification evidence or on a quality assurance that passed. */
  lemma CompletionNeedsVerdict(profile: WorkflowProfile, stage: WorkflowStage, e: Facts, used: nat, limit: nat)
    requires EvaluateStageTransition(profile, stage, COMPLETE, e, used, limit).MayMove?
    ensures (stage == VERIFY && profile != HighRiskFoundation && Holds(e, VERIFICATION_EVIDENCE_PASSED)) ||
            (stage == FRESH_QA && profile != Low && e.freshQa == Some(PASS)) ||
            (stage == FOCUSED_RE_QA && profile != Low && e.focusedReQa == Some(PASS))
  {
    MoveExactly(profile, stage, COMPLETE, e, used, limit);
    assert stage == VERIFY ==> VERIFICATION_EVIDENCE_PASSED in Asks(stage);
  }

  ghost predicate GivesAsked(stage: WorkflowStage, e: Facts) { forall code :: Given(e, code) <==> code in Asks(stage) }

  ghost predicate Lacking(stage: WorkflowStage, e: Facts, code: Code) { code in Asks(stage) && !Holds(e, code) }

  lemma {:induction false} MissingMembers(e: Facts, required: seq<Code>, code: Code)
    ensures code in Missing(e, required) <==> code in required && !Holds(e, code)
  {
    if required != [] {
      MissingMembers(e, required[..|required| - 1], code);
      assert required == required[..|required| - 1] + [required[|required| - 1]];
    }
  }

  /**
   * Where only evidence is missing, the dependencies come first, then budget and concurrency; a human is asked exactly when
   * the approval is missing and none of these is.
   */
  lemma MissingEvidenceExactly(profile: WorkflowProfile, stage: WorkflowStage, requested: WorkflowStage, e: Facts, used: nat, limit: nat)
    requires Leads(profile, stage, requested) && stage != FRESH_QA && !RepairStage(stage) && used == 0 && limit <= 2
    requires FlagsTyped(e) && GivesAsked(stage, e) && exists code :: Lacking(stage, e, code)
    ensures var r := EvaluateStageTransition(profile, stage, requested, e, used, limit);
      && (r.Refused? || r.NeedsHuman?) && (forall code :: code in r.missing <==> Lacking(stage, e, code))
      && r.reason == (if Lacking(stage, e, DEPENDENCIES_READY) then DependencyBlocked
                      else if Lacking(stage, e, BUDGET_AVAILABLE) then BudgetBlocked
                      else if Lacking(stage, e, CONCURRENCY_AVAILABLE) then ConcurrencyBlocked
                      else if Lacking(stage, e, HUMAN_APPROVAL_SATISFIED) then AuthorityLacking
                      else EvidenceBlocked)
      && (r.NeedsHuman? <==> r.reason == AuthorityLacking)
  {
    hide Missing, NextStageFor, Holds, Asks;
    PathLeads(profile, stage, requested);
    RequirementsAsked(profile, stage, requested);
    var required := StandardRequirements(stage, requested);
    hide StandardRequirements;
    forall code ensures code in Missing(e, required) <==> Lacking(stage, e, code) {
      MissingMembers(e, required, code);
    }
    AskedIsRelevant(e, stage, required);
    hide OnlyRelevant, Given, GivesAsked, Lacking;
    SomethingMissing(e, stage, required);
  }

  lemma SomethingMissing(e: Facts, stage: WorkflowStage, required: seq<Code>)
    requires (exists code :: Lacking(stage, e, code)) && forall code :: code in Missing(e, required) <==> Lacking(stage, e, code)
    ensures Missing(e, required) != []
  {
    hide Missing, Lacking;
  }

  lemma AskedIsRelevant(e: Facts, stage: WorkflowStage, required: seq<Code>)
    requires FlagsTyped(e) && GivesAsked(stage, e) && forall code :: code in required <==> code in Asks(stage)
    ensures OnlyRelevant(e, required)
  {
    hide Asks;
    forall code | code in e.flags ensures code in required { assert Given(e, code); }
    assert e.freshQa.Some? ==> Given(e, FRESH_QA_OUTCOME_RECORDED);
    assert e.focusedReQa.Some? ==> Given(e, FOCUSED_RE_QA_OUTCOME_RECORDED);
  }

  /** Only a failed quality assurance exhausts the repair cycles. */
  lemma ElsewhereNotExhausted(profile: WorkflowProfile, stage: WorkflowStage, requested: WorkflowStage, e: Facts, used: nat, limit: nat)
    requires profile == Low || (stage != FRESH_QA && stage != FOCUSED_RE_QA)
    ensures EvaluateStageTransition(profile, stage, requested, e, used, limit) != NeedsHuman(RepairReQaExhausted, [])
  {
    hide Missing, NextStageFor, StandardRequirements, OnlyRelevant, Holds, CyclesFit, CyclesInStep, IsOutcome;
  }

  /** The repair cycles are exhausted exactly when quality assurance fails with as many cycles used as the limit allows. */
  lemma ExhaustedExactly(profile: WorkflowProfile, stage: WorkflowStage, requested: WorkflowStage, e: Facts, used: nat, limit: nat)
    ensures EvaluateStageTransition(profile, stage, requested, e, used, limit) == NeedsHuman(RepairReQaExhausted, []) <==>
      && profile != Low && CyclesInStep(profile, stage, used) && used == limit <= 2 && FlagsTyped(e) && GivesAsked(stage, e)
      && ((stage == FRESH_QA && e.freshQa == Some(BLOCKING_FAIL)) || (stage == FOCUSED_RE_QA && e.focusedReQa == Some(BLOCKING_FAIL)))
  {
    if profile == Low || (stage != FRESH_QA && stage != FOCUSED_RE_QA) {
      ElsewhereNotExhausted(profile, stage, requested, e, used, limit);
    } else {
      hide Missing, NextStageFor, StandardRequirements, OnlyRelevant, GivesAsked;
      var code := if stage == FRESH_QA then FRESH_QA_OUTCOME_RECORDED else FOCUSED_RE_QA_OUTCOME_RECORDED;
      if FlagsTyped(e) { OnlyOutcome(e, stage, code); }
    }
  }

  lemma OnlyOutcome(e: Facts, stage: WorkflowStage, code: Code)
    requires FlagsTyped(e) && Asks(stage) == {code} && IsOutcome(code)
    ensures OnlyRelevant(e, [code]) && Given(e, code) <==> GivesAsked(stage, e)
  {
    if GivesAsked(stage, e) {
      forall other | other in e.flags ensures other in [code] { assert Given(e, other); }
      assert e.freshQa.Some? ==> Given(e, FRESH_QA_OUTCOME_RECORDED);
      assert e.focusedReQa.Some? ==> Given(e, FOCUSED_RE_QA_OUTCOME_RECORDED);
    }
  }

  predicate HasNext(profile: WorkflowProfile, stage: WorkflowStage) { exists next :: Leads(profile, stage, next) }

  /** The numbers fit, and nothing is given but what the stage asks for, if it leads anywhere. */
  ghost predicate InputValid(profile: WorkflowProfile, stage: WorkflowStage, e: Facts, used: nat, limit: nat) {
    && FlagsTyped(e) && used <= limit <= 2 && CyclesInStep(profile, stage, used)
    && forall code :: Given(e, code) ==> HasNext(profile, stage) && code in Asks(stage)
  }

  lemma SuccessorExists(profile: WorkflowProfile, stage: WorkflowStage)
    ensures HasNext(profile, stage) <==>
      (profile != Low && (stage == FRESH_QA || RepairStage(stage))) || Successor(profile, stage).Some?
  {
    if Successor(profile, stage).Some? {
      PathSuccessors(profile, stage);
      PathLeads(profile, stage, Successor(profile, stage).value);
    }
    if profile != Low && (stage == FRESH_QA || stage == FOCUSED_RE_QA) { assert Leads(profile, stage, COMPLETE); }
    if profile != Low && stage == REPAIR { assert Leads(profile, stage, FOCUSED_RE_QA); }
  }

  lemma RelevantExactly(e: Facts, required: seq<Code>, asked: set<Code>)
    requires FlagsTyped(e) && forall code :: code in required <==> code in asked
    ensures OnlyRelevant(e, required) <==> forall code :: Given(e, code) ==> code in asked
  {
    if forall code :: Given(e, code) ==> code in asked {
      forall code | code in e.flags ensures code in required { assert Given(e, code); }
      assert e.freshQa.Some? ==> Given(e, FRESH_QA_OUTCOME_RECORDED);
      assert e.focusedReQa.Some? ==> Given(e, FOCUSED_RE_QA_OUTCOME_RECORDED);
    }
  }

  /** Invalid input is refused as such, and nothing else is. */
  lemma InvalidInputExactly(profile: WorkflowProfile, stage: WorkflowStage, requested: WorkflowStage, e: Facts, used: nat, limit: nat)
    ensures var r := EvaluateStageTransition(profile, stage, requested, e, used, limit);
      !InputValid(profile, stage, e, used, limit) <==> r.Refused? && r.reason == InvalidInput
  {
    hide Expected, OnlyRelevant, Missing, CyclesFit, CyclesInStep, Given, HasNext, Asks;
    if FlagsTyped(e) && used <= limit <= 2 {
      CyclesExact(profile, stage, used);
      if CyclesInStep(profile, stage, used) { RelevanceExact(profile, stage, requested, e, used, limit); }
    }
  }

  lemma RelevanceExact(profile: WorkflowProfile, stage: WorkflowStage, requested: WorkflowStage, e: Facts, used: nat, limit: nat)
    requires FlagsTyped(e) && used <= limit <= 2 && CyclesFit(profile, stage, used)
    ensures var r := EvaluateStageTransition(profile, stage, requested, e, used, limit);
      (forall code :: Given(e, code) ==> HasNext(profile, stage) && code in Asks(stage)) <==> !(r.Refused? && r.reason == InvalidInput)
  {
    hide Missing, NextStageFor, OnlyRelevant, Given, Holds, CyclesFit, Asks, StandardRequirements, HasNext;
    SuccessorExists(profile, stage);
    PathSuccessors(profile, stage);
    RequiredOf(profile, stage, requested, e);
    if Successor(profile, stage).Some? { PathLeads(profile, stage, Successor(profile, stage).value); }
  }

  lemma RequiredOf(profile: WorkflowProfile, stage: WorkflowStage, requested: WorkflowStage, e: Facts)
    requires FlagsTyped(e)
    ensures OnlyRelevant(e, []) <==> forall code :: !Given(e, code)
    ensures stage == FRESH_QA ==> (OnlyRelevant(e, [FRESH_QA_OUTCOME_RECORDED]) <==> forall code :: Given(e, code) ==> code in Asks(stage))
    ensures stage == FOCUSED_RE_QA ==>
      (OnlyRelevant(e, [FOCUSED_RE_QA_OUTCOME_RECORDED]) <==> forall code :: Given(e, code) ==> code in Asks(stage))
    ensures stage == REPAIR ==> (OnlyRelevant(e, [REPAIR_EVIDENCE_PASSED]) <==> forall code :: Given(e, code) ==> code in Asks(stage))
    ensures !RepairStage(stage) && stage != FRESH_QA ==>
      forall next :: Leads(profile, stage, next) ==>
        (OnlyRelevant(e, StandardRequirements(stage, next)) <==> forall code :: Given(e, code) ==> code in Asks(stage))
  {
    hide OnlyRelevant, Given;
    RelevantExactly(e, [], {});
    if stage == FRESH_QA { RelevantExactly(e, [FRESH_QA_OUTCOME_RECORDED], Asks(stage)); }
    if stage == FOCUSED_RE_QA { RelevantExactly(e, [FOCUSED_RE_QA_OUTCOME_RECORDED], Asks(stage)); }
    if stage == REPAIR { RelevantExactly(e, [REPAIR_EVIDENCE_PASSED], Asks(stage)); }
    if !RepairStage(stage) && stage != FRESH_QA {
      forall next | Leads(profile, stage, next)
        ensures OnlyRelevant(e, StandardRequirements(stage, next)) <==> forall code :: Given(e, code) ==> code in Asks(stage)
      {
        RequirementsAsked(profile, stage, next);
        RelevantExactly(e, StandardRequirements(stage, next), Asks(stage));
      }
    }
  }

  /** Quality assurance waits for its outcome, and goes only where the outcome leads. */
  lemma QaRefusalsExactly(profile: WorkflowProfile, stage: WorkflowStage, requested: WorkflowStage, e: Facts, used: nat, limit: nat)
    requires profile != Low && (stage == FRESH_QA || stage == FOCUSED_RE_QA) && InputValid(profile, stage, e, used, limit)
    ensures var r := EvaluateStageTransition(profile, stage, requested, e, used, limit);
      var outcome := if stage == FRESH_QA then e.freshQa else e.focusedReQa;
      && ((r.Refused? && r.reason == EvidenceBlocked) <==> outcome != Some(PASS) && outcome != Some(BLOCKING_FAIL))
      && ((r.Refused? && r.reason == InvalidStageTransition) <==>
            (outcome == Some(PASS) && requested != COMPLETE) || (outcome == Some(BLOCKING_FAIL) && used < limit && requested != REPAIR))
  {
    hide Missing, NextStageFor, StandardRequirements;
    InvalidInputExactly(profile, stage, requested, e, used, limit);
    OneMissing(e, FRESH_QA_OUTCOME_RECORDED);
    OneMissing(e, FOCUSED_RE_QA_OUTCOME_RECORDED);
  }

  /** Elsewhere a request that no transition of the profile answers is refused as such. */
  lemma OtherTransitionsRefused(profile: WorkflowProfile, stage: WorkflowStage, requested: WorkflowStage, e: Facts, used: nat, limit: nat)
    requires (profile == Low || (stage != FRESH_QA && stage != FOCUSED_RE_QA)) && InputValid(profile, stage, e, used, limit)
    ensures var r := EvaluateStageTransition(profile, stage, requested, e, used, limit);
      (r.Refused? && r.reason == InvalidStageTransition) <==> !Leads(profile, stage, requested)
  {
    hide Missing, NextStageFor, StandardRequirements, InputValid;
    InvalidInputExactly(profile, stage, requested, e, used, limit);
    PathLeads(profile, stage, requested);
    hide OnlyRelevant, CyclesFit, CyclesInStep;
  }

  // ---------------------------------------------------------------- whole runs of a Subtask

  datatype At = At(stage: WorkflowStage, used: nat)

  /** Some evidence makes the move eligible. */
  ghost predicate Moves(profile: WorkflowProfile, limit: nat, a: At, b: At) {
    exists e :: EvaluateStageTransition(profile, a.stage, b.stage, e, a.used, limit).MayMove? &&
                EvaluateStageTransition(profile, a.stage, b.stage, e, a.used, limit).repairCyclesUsed == b.used
  }

  /** The stages of a Subtask from its first one on. */
  ghost predicate StageRun(profile: WorkflowProfile, limit: nat, run: seq<At>) {
    && run != [] && run[0] == At(DeriveInitialWorkflowStage(profile), 0)
    && forall i :: 0 <= i < |run| - 1 ==> Moves(profile, limit, run[i], run[i + 1])
  }

  /** Evidence that satisfies everything the stage asks for, with the outcome that leads to the next one. */
  function Sufficient(stage: WorkflowStage, next: WorkflowStage): Facts {
    var outcome := if next == COMPLETE then PASS else BLOCKING_FAIL;
    Facts(map code | code in Asks(stage) && !IsOutcome(code) :: true,
          if stage == FRESH_QA then Some(outcome) else None, if stage == FOCUSED_RE_QA then Some(outcome) else None)
  }

  lemma MovesExactly(profile: WorkflowProfile, limit: nat, a: At, b: At)
    ensures Moves(profile, limit, a, b) <==>
      Leads(profile, a.stage, b.stage) && CyclesInStep(profile, a.stage, a.used) && CyclesGoOn(a.stage, b.stage, a.used, b.used, limit)
  {
    hide EvaluateStageTransition, EvidenceComplete, CyclesFit, CyclesInStep, CyclesGoOn;
    if Moves(profile, limit, a, b) {
      var e :| EvaluateStageTransition(profile, a.stage, b.stage, e, a.used, limit).MayMove? &&
               EvaluateStageTransition(profile, a.stage, b.stage, e, a.used, limit).repairCyclesUsed == b.used;
      MoveExactly(profile, a.stage, b.stage, e, a.used, limit);
      assert CyclesGoOn(a.stage, b.stage, a.used, b.used, limit);
    }
    if Leads(profile, a.stage, b.stage) {
      var e := Sufficient(a.stage, b.stage);
      SufficientIsComplete(profile, a.stage, b.stage);
      MoveExactly(profile, a.stage, b.stage, e, a.used, limit);
      assert CyclesGoOn(a.stage, b.stage, a.used, b.used, limit) ==> b.used == if b.stage == REPAIR then a.used + 1 else a.used by {
        CyclesAfter(a.stage, b.stage, a.used, b.used, limit);
      }
    }
  }

  lemma CyclesAfter(stage: WorkflowStage, next: WorkflowStage, used: nat, after: nat, limit: nat)
    ensures CyclesGoOn(stage, next, used, after, limit) ==> after == if next == REPAIR then used + 1 else used
  {}

  lemma SufficientIsComplete(profile: WorkflowProfile, stage: WorkflowStage, next: WorkflowStage)
    requires Leads(profile, stage, next)
    ensures var e := Sufficient(stage, next); FlagsTyped(e) && OutcomeFits(stage, next, e) && EvidenceComplete(stage, e)
  {
  }

  /** How far along a run a Subtask is. */
  function Level(a: At): nat {
    match a.stage
    case PLAN => 0
    case REVIEW => 1
    case MATERIALIZE => 2
    case EXECUTE => 3
    case VERIFY => 4
    case HARDEN => 4
    case FRESH_QA => 5
    case REPAIR => 4 + 2 * a.used
    case FOCUSED_RE_QA => 5 + 2 * a.used
    case COMPLETE => 10
  }

  lemma MovesRise(profile: WorkflowProfile, limit: nat, a: At, b: At)
    requires Moves(profile, limit, a, b)
    ensures Level(a) < Level(b) <= 10
  {
    hide Moves;
    MovesExactly(profile, limit, a, b);
  }

  lemma {:induction false} RunsRise(profile: WorkflowProfile, limit: nat, run: seq<At>)
    requires StageRun(profile, limit, run)
    ensures |run| - 1 + 2 <= Level(run[|run| - 1]) <= 10
    decreases |run|
  {
    hide Moves;
    if |run| > 1 {
      var front := run[..|run| - 1];
      RunsRise(profile, limit, front);
      assert Moves(profile, limit, run[|run| - 2], run[|run| - 1]);
      MovesRise(profile, limit, run[|run| - 2], run[|run| - 1]);
    }
  }

  /** Every Subtask is through after at most eight transitions, and uses no more repair cycles than the limit allows. */
  lemma RunsAreShort(profile: WorkflowProfile, limit: nat, run: seq<At>)
    requires StageRun(profile, limit, run)
    ensures |run| - 1 <= 8
    ensures forall i :: 0 <= i < |run| ==> run[i].used == 0 || run[i].used <= limit <= 2
    ensures forall i :: 0 <= i < |run| - 1 ==> run[i].stage != COMPLETE
  {
    hide Moves, Level;
    RunsRise(profile, limit, run);
    forall i | 0 <= i < |run| - 1 ensures run[i].stage != COMPLETE {
      MovesExactly(profile, limit, run[i], run[i + 1]);
    }
    forall i | 0 < i < |run| ensures run[i].used <= limit <= 2 {
      assert Moves(profile, limit, run[i - 1], run[i - 1 + 1]);
      MovesExactly(profile, limit, run[i - 1], run[i]);
    }
  }

  // ---------------------------------------------------------------- the stages the dispatcher admits

  ghost predicate Reached(profile: WorkflowProfile, stage: WorkflowStage) {
    exists limit: nat, run: seq<At> :: run != [] && StageRun(profile, limit, run) && run[|run| - 1].stage == stage
  }

  function Reachable(profile: WorkflowProfile): set<WorkflowStage> {
    match profile
    case Low => {EXECUTE, VERIFY, COMPLETE}
    case Standard => {MATERIALIZE, EXECUTE, VERIFY, FRESH_QA, REPAIR, FOCUSED_RE_QA, COMPLETE}
    case HighRiskFoundation => {MATERIALIZE, EXECUTE, HARDEN, FRESH_QA, REPAIR, FOCUSED_RE_QA, COMPLETE}
  }

  lemma {:induction false} RunsStayReachable(profile: WorkflowProfile, limit: nat, run: seq<At>)
    requires StageRun(profile, limit, run)
    ensures run[|run| - 1].stage in Reachable(profile)
    decreases |run|
  {
    hide Moves;
    if |run| > 1 {
      var front := run[..|run| - 1];
      RunsStayReachable(profile, limit, front);
      assert Moves(profile, limit, run[|run| - 2], run[|run| - 1]);
      MovesExactly(profile, limit, run[|run| - 2], run[|run| - 1]);
    }
  }

  /** A run through all the stages of a kind, up to the given one. */
  function RunTo(profile: WorkflowProfile, stage: WorkflowStage): seq<At> {
    var start := [At(DeriveInitialWorkflowStage(profile), 0)];
    var executing := if profile == Low then start else start + [At(EXECUTE, 0)];
    var qa := executing + (if profile == HighRiskFoundation then [At(HARDEN, 0)] else []) + [At(FRESH_QA, 0)];
    match stage
    case EXECUTE => executing
    case VERIFY => executing + [At(VERIFY, 0)]
    case HARDEN => executing + [At(HARDEN, 0)]
    case FRESH_QA => qa
    case REPAIR => qa + [At(REPAIR, 1)]
    case FOCUSED_RE_QA => qa + [At(REPAIR, 1), At(FOCUSED_RE_QA, 1)]
    case COMPLETE => if profile == Low then executing + [At(VERIFY, 0), At(COMPLETE, 0)] else qa + [At(COMPLETE, 0)]
    case _ => start
  }

  lemma RunToReaches(profile: WorkflowProfile, stage: WorkflowStage)
    requires stage in Reachable(profile)
    ensures Reached(profile, stage)
  {
    hide Moves;
    var run := RunTo(profile, stage);
    forall i | 0 <= i < |run| - 1 ensures Moves(profile, 1, run[i], run[i + 1]) {
      MovesExactly(profile, 1, run[i], run[i + 1]);
    }
    assert StageRun(profile, 1, run) && run[|run| - 1].stage == stage;
  }

  /** The stages that the runs of a profile reach, and which of them the dispatcher shuts out. */
  lemma ReachedExactly(profile: WorkflowProfile, stage: WorkflowStage)
    ensures Reached(profile, stage) <==> stage in Reachable(profile)
    ensures IsStageAllowedForProfile(profile, stage) <==>
      stage in GetWorkflowStagePath(profile) || (profile == HighRiskFoundation && RepairStage(stage))
    ensures Reached(profile, stage) && !IsStageAllowedForProfile(profile, stage) <==>
      profile == Standard && (stage == FRESH_QA || RepairStage(stage))
  {
    hide StageRun;
    if limit: nat, run: seq<At> :| run != [] && StageRun(profile, limit, run) && run[|run| - 1].stage == stage {
      RunsStayReachable(profile, limit, run);
    }
    if stage in Reachable(profile) {
      RunToReaches(profile, stage);
    }
    PathMembers(profile, stage);
  }

  lemma PathMembers(profile: WorkflowProfile, stage: WorkflowStage)
    ensures stage in GetWorkflowStagePath(profile) <==>
      match profile
      case Low => stage in {EXECUTE, VERIFY, COMPLETE}
      case Standard => stage in {PLAN, REVIEW, MATERIALIZE, EXECUTE, VERIFY, COMPLETE}
      case HighRiskFoundation => stage in {PLAN, REVIEW, MATERIALIZE, EXECUTE, HARDEN, FRESH_QA, COMPLETE}
  {}
}
