/** The entry points of the requirement validator: configurable severity, the CI failure
    queries, and `validate_program`, which extracts and validates a whole program. */
module Requirements {
  import opened Wrappers
  import opened Seqs
  import opened Ast
  import opened ReqTypes
  import opened Extractor
  import opened Validator

  /** Severity of an error under the thresholds of `config`: an uncovered requirement is an
      Error at or above the error threshold, else a Warning at or above the warning threshold,
      else Info; every other error is an Error. */
  function SeverityWithConfig(e: RequirementError, config: ValidatorConfig): (s: Severity)
    ensures !e.UncoveredRequirement? ==> s == Error
    ensures e.UncoveredRequirement? ==>
      (s == Error <==> PriorityOrd(e.priority) <= PriorityOrd(config.errorMinPriority))
    ensures e.UncoveredRequirement? ==>
      (s == Warning <==> PriorityOrd(config.errorMinPriority) < PriorityOrd(e.priority)
                                                         <= PriorityOrd(config.warningMinPriority))
    ensures e.UncoveredRequirement? ==>
      (s == Info <==> (PriorityOrd(e.priority) > PriorityOrd(config.errorMinPriority)
                    && PriorityOrd(e.priority) > PriorityOrd(config.warningMinPriority)))
  {
    match e
    case UncoveredRequirement(_, priority, _, _) =>
      var prio := PriorityOrd(priority);
      var errorThreshold := PriorityOrd(config.errorMinPriority);
      var warningThreshold := PriorityOrd(config.warningMinPriority);
      if prio <= errorThreshold then Error
      else if prio <= warningThreshold then Warning
      else Info
    case NonexistentRequirement(_, _, _, _) => Error
    case DuplicateRequirement(_, _, _, _) => Error
    case DuplicateTest(_, _, _, _) => Error
  }

  /** The default thresholds reproduce the fixed classification of `Severity`. */
  lemma DefaultConfigAgrees(e: RequirementError)
    ensures SeverityWithConfig(e, DefaultConfig()) == e.Severity()
  {
    if e.UncoveredRequirement? {
      PriorityOrdRanks();
    }
  }

  /** Under the strict thresholds every error is an Error. */
  lemma StrictIsAllErrors(e: RequirementError)
    ensures SeverityWithConfig(e, Strict()) == Error
  {
  }

  /** An uncovered requirement that validation reports (ordinal at most the warning threshold)
      is never merely informational. */
  lemma ReportedIsNotInfo(r: RequirementInfo, config: ValidatorConfig)
    requires PriorityOrd(r.priority) <= PriorityOrd(config.warningMinPriority)
    ensures SeverityWithConfig(UncoveredErrorOf(r), config) != Info
  {
  }

  /** Whether any error of the list is a failure (Rust `iter().any`). */
  function AnyFailure(errors: seq<RequirementError>): (b: bool)
    ensures b <==> exists i :: 0 <= i < |errors| && IsFailure(errors[i])
  {
    if errors == [] then false
    else IsFailure(errors[0]) || (assert forall i :: 0 <= i < |errors| - 1 ==> errors[1..][i] == errors[i + 1];
                                  AnyFailure(errors[1..]))
  }

  /** Whether the report fails a CI run: some error has (fixed) severity Error. */
  function HasCoverageErrors(report: CoverageReport): (b: bool)
    ensures b <==> exists e :: e in report.errors && e.Severity() == Error
  {
    AnyFailure(report.errors)
  }

  /** The errors of fixed severity Error, in report order. */
  function GetFailures(report: CoverageReport): (r: seq<RequirementError>)
    ensures |r| <= |report.errors|
    ensures forall e :: e in r <==> e in report.errors && e.Severity() == Error
    ensures forall e :: multiset(r)[e] == if e.Severity() == Error then multiset(report.errors)[e] else 0
  {
    FilterMembers(report.errors, IsFailure);
    FilterCount(report.errors, IsFailure);
    Filter(report.errors, IsFailure)
  }

  /** Failures keep report order: those of a report whose errors are `a + b` are the failures
      of `a` followed by those of `b`. */
  lemma FailuresInOrder(report: CoverageReport, a: seq<RequirementError>, b: seq<RequirementError>)
    requires report.errors == a + b
    ensures GetFailures(report) == GetFailures(report.(errors := a)) + GetFailures(report.(errors := b))
  {
    FilterConcat(a, b, IsFailure);
  }

  /** A single error is a failure of its report exactly when its severity is Error. */
  lemma FailureOfOne(report: CoverageReport, e: RequirementError)
    requires report.errors == [e]
    ensures GetFailures(report) == if e.Severity() == Error then [e] else []
  {
    assert report.errors[1..] == [];
  }

  /** The two CI queries agree: the report has coverage errors exactly when it has failures. */
  lemma FailuresIffErrors(report: CoverageReport)
    ensures HasCoverageErrors(report) <==> GetFailures(report) != []
  {
    if HasCoverageErrors(report) {
      var e :| e in report.errors && e.Severity() == Error;
      assert e in GetFailures(report);
    }
    if GetFailures(report) != [] {
      assert GetFailures(report)[0] in GetFailures(report);
    }
  }

  /** Validate a whole program: extract, then validate under `config`, or under the default
      configuration when none is given. */
  method ValidateProgram(program: Program, config: Option<ValidatorConfig>)
    returns (report: CoverageReport, ghost linkOrder: seq<string>, ghost uncoveredOrder: seq<string>)
    ensures ValidationOutcome(Run(Items(program)), config.GetOr(DefaultConfig()), report, linkOrder, uncoveredOrder)
    ensures config.None? ==> ValidationOutcome(Run(Items(program)), DefaultConfig(), report, linkOrder, uncoveredOrder)
  {
    var cfg := config.GetOr(DefaultConfig());
    var extraction := Extract(program);
    report, linkOrder, uncoveredOrder := Validate(extraction, cfg);
  }

  /** A validated program's report files exactly the declared requirement and test ids. */
  lemma ReportDeclarations(program: Program, config: ValidatorConfig, report: CoverageReport,
                           linkOrder: seq<string>, uncoveredOrder: seq<string>)
    requires ValidationOutcome(Run(Items(program)), config, report, linkOrder, uncoveredOrder)
    ensures forall id :: id in report.requirements <==>
      exists k :: 0 <= k < |Items(program)| && DeclaresReq(Items(program)[k], id)
    ensures forall id :: id in report.tests <==>
      exists k :: 0 <= k < |Items(program)| && DeclaresTest(Items(program)[k], id)
  {
    var items := Items(program);
    forall id ensures id in report.requirements <==> exists k :: 0 <= k < |items| && DeclaresReq(items[k], id) {
      RequirementKeys(items, id);
    }
    forall id ensures id in report.tests <==> exists k :: 0 <= k < |items| && DeclaresTest(items[k], id) {
      TestKeys(items, id);
    }
  }

  /** In a validated program's report a requirement lists a test exactly when that test claims
      to cover it, and lists it once. */
  lemma ReportLinks(program: Program, config: ValidatorConfig, report: CoverageReport,
                    linkOrder: seq<string>, uncoveredOrder: seq<string>)
    requires ValidationOutcome(Run(Items(program)), config, report, linkOrder, uncoveredOrder)
    ensures forall r, t :: r in report.requirements ==>
      (t in report.requirements[r].coveredBy <==> t in report.tests && r in report.tests[t].covers)
    ensures forall r :: r in report.requirements ==> NoDup(report.requirements[r].coveredBy)
  {
    ExtractionIsWellFormed(Items(program));
    LinksOf(Run(Items(program)), config, report, linkOrder, uncoveredOrder);
  }

  /** The linking part of `ReportLinks`, for a well-formed extraction. */
  lemma LinksOf(ex: ExtractionResult, config: ValidatorConfig, report: CoverageReport,
                linkOrder: seq<string>, uncoveredOrder: seq<string>)
    requires ValidationOutcome(ex, config, report, linkOrder, uncoveredOrder)
    requires WellFormedExtraction(ex)
    ensures forall r, t :: r in report.requirements ==>
      (t in report.requirements[r].coveredBy <==> t in report.tests && r in report.tests[t].covers)
    ensures forall r :: r in report.requirements ==> NoDup(report.requirements[r].coveredBy)
  {
    LinkedCoverage(ex.requirements, report.requirements, ex.tests);
  }

  /** In a validated program's report:
      - an UncoveredRequirement error names a requirement exactly when nothing covers it and its
        priority is at or above the warning threshold;
      - extraction's errors come first, unchanged;
      - the per-priority totals add up to the total. */
  lemma ReportUncovered(program: Program, config: ValidatorConfig, report: CoverageReport,
                        linkOrder: seq<string>, uncoveredOrder: seq<string>)
    requires ValidationOutcome(Run(Items(program)), config, report, linkOrder, uncoveredOrder)
    ensures forall r :: r in report.requirements ==>
      (UncoveredErrorOf(report.requirements[r]) in report.errors <==>
         (report.requirements[r].coveredBy == []
          && PriorityOrd(report.requirements[r].priority) <= PriorityOrd(config.warningMinPriority)))
    ensures Run(Items(program)).errors <= report.errors
    ensures report.summary.byPriority["Critical"].total + report.summary.byPriority["High"].total
          + report.summary.byPriority["Medium"].total + report.summary.byPriority["Low"].total
         == report.summary.totalRequirements
  {
    var items := Items(program);
    ExtractionIsWellFormed(items);
    ErrorsAreDuplicates(items);
    UncoveredNamedExactly(Run(items), config, report, linkOrder, uncoveredOrder);
    SummaryTotalsAddUp(report.summary, report.requirements);
  }

  /** The uncovered part of `ReportUncovered`, for a well-formed extraction. */
  lemma UncoveredNamedExactly(ex: ExtractionResult, config: ValidatorConfig, report: CoverageReport,
                              linkOrder: seq<string>, uncoveredOrder: seq<string>)
    requires ValidationOutcome(ex, config, report, linkOrder, uncoveredOrder)
    requires WellFormedExtraction(ex)
    requires forall e :: e in ex.errors ==> e.DuplicateRequirement? || e.DuplicateTest?
    ensures forall r :: r in report.requirements ==>
      (UncoveredErrorOf(report.requirements[r]) in report.errors <==>
         r in ReportedUncovered(report.requirements, config))
  {
    var reqs := report.requirements;
    var dangling := DanglingRefs(linkOrder, ex.tests, ex.requirements.Keys);
    var uncovered := UncoveredErrors(uncoveredOrder, reqs);
    DanglingRefsExact(linkOrder, ex.tests, ex.requirements.Keys);
    UncoveredErrorsExact(uncoveredOrder, reqs);
    forall r | r in reqs
      ensures UncoveredErrorOf(reqs[r]) in report.errors <==> r in ReportedUncovered(reqs, config)
    {
      var e := UncoveredErrorOf(reqs[r]);
      assert GrownBy(ex.requirements[r], reqs[r], CoverersAmong(ex.tests, r, ex.tests.Keys));
      if e in report.errors {
        assert e !in ex.errors && e !in dangling;
        assert e in uncovered;
        var k :| k in uncoveredOrder && e == UncoveredErrorOf(reqs[k]);
        assert GrownBy(ex.requirements[k], reqs[k], CoverersAmong(ex.tests, k, ex.tests.Keys));
        assert k == r;
      }
      if r in ReportedUncovered(reqs, config) {
        assert e in uncovered;
      }
    }
  }
}
