/** The records of the requirement validator and the error classification
    attached to them (codes, severities, spans). */
module ReqTypes {
  import opened Wrappers
  import opened Ast

  /** A requirement as extracted; `coveredBy` is filled in by validation. */
  datatype RequirementInfo = RequirementInfo(
    id: string,
    text: Option<string>,
    priority: Priority,
    status: ReqStatus,
    snippetId: string,
    coveredBy: seq<string>,
    span: Span)

  /** A test as extracted, with the requirement ids it claims to cover. */
  datatype TestInfo = TestInfo(id: string, kind: TestKind, covers: seq<string>, snippetId: string, span: Span)

  /** Counts for one priority level. */
  datatype PrioritySummary = PrioritySummary(total: nat, covered: nat, uncovered: nat)

  /** Integer part of the coverage summary, with one entry per priority name. */
  datatype CoverageSummary = CoverageSummary(
    totalRequirements: nat,
    coveredRequirements: nat,
    uncoveredRequirements: nat,
    byPriority: map<string, PrioritySummary>)

  /** The full coverage report. */
  datatype CoverageReport = CoverageReport(
    requirements: map<string, RequirementInfo>,
    tests: map<string, TestInfo>,
    summary: CoverageSummary,
    errors: seq<RequirementError>)

  /** Severity levels. */
  datatype Severity = Error | Warning | Info

  /** The four validation errors. */
  datatype RequirementError =
    | UncoveredRequirement(id: string, priority: Priority, snippetId: string, span: Span)
    | NonexistentRequirement(testId: string, reqId: string, snippetId: string, span: Span)
    | DuplicateRequirement(id: string, first: string, second: string, span: Span)
    | DuplicateTest(id: string, first: string, second: string, span: Span)
  {
    /** The display code E-REQ-001 .. E-REQ-004. */
    function Code(): (c: string)
      ensures |c| == 9 && c[..8] == "E-REQ-00"
      ensures c[8] == (if UncoveredRequirement? then '1' else if NonexistentRequirement? then '2'
                       else if DuplicateRequirement? then '3' else '4')
    {
      match this
      case UncoveredRequirement(_, _, _, _) => "E-REQ-001"
      case NonexistentRequirement(_, _, _, _) => "E-REQ-002"
      case DuplicateRequirement(_, _, _, _) => "E-REQ-003"
      case DuplicateTest(_, _, _, _) => "E-REQ-004"
    }

    /** The fixed severity: only uncovered requirements below Critical are not errors. */
    function Severity(): (s: Severity)
      ensures s == Error <==> !(UncoveredRequirement? && priority != Critical)
      ensures s == Warning <==> UncoveredRequirement? && priority == High
      ensures s == Info <==> UncoveredRequirement? && (priority == Medium || priority == Low)
    {
      match this
      case UncoveredRequirement(_, p, _, _) =>
        (match p
         case Critical => Error
         case High => Warning
         case _ => Info)
      case NonexistentRequirement(_, _, _, _) => Error
      case DuplicateRequirement(_, _, _, _) => Error
      case DuplicateTest(_, _, _, _) => Error
    }

    /** The span carried by whichever variant this is. */
    function SpanOf(): (s: Span)
      ensures s == span
    {
      match this
      case UncoveredRequirement(_, _, _, sp) => sp
      case NonexistentRequirement(_, _, _, sp) => sp
      case DuplicateRequirement(_, _, _, sp) => sp
      case DuplicateTest(_, _, _, sp) => sp
    }
  }

  /** Two errors share a code exactly when they are the same variant. */
  lemma CodeIdentifiesVariant(a: RequirementError, b: RequirementError)
    ensures a.Code() == b.Code() <==>
      (a.UncoveredRequirement? && b.UncoveredRequirement?) ||
      (a.NonexistentRequirement? && b.NonexistentRequirement?) ||
      (a.DuplicateRequirement? && b.DuplicateRequirement?) ||
      (a.DuplicateTest? && b.DuplicateTest?)
  {
    if a.Code() == b.Code() {
      assert a.Code()[8] == b.Code()[8];
    }
  }

  /** Predicates used to select errors. */
  predicate IsUncovered(e: RequirementError) { e.UncoveredRequirement? }

  /** An error fails a CI run when its severity is Error: every error except an uncovered
      requirement below Critical. */
  function IsFailure(e: RequirementError): (b: bool)
    ensures b <==> e.Severity() == Error
    ensures b <==> !e.UncoveredRequirement? || e.priority == Critical
  {
    e.Severity() == Error
  }
}
