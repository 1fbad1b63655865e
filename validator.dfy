/** Coverage validation: bidirectional linking of tests to requirements,
    threshold-based reporting of uncovered requirements, summary counts and
    the uncovered-only view.

    Hash-map iteration order is not specified by the source. Each loop over a
    map chooses its next key freely, and the methods return, as a ghost
    out-parameter, the order they chose; their contracts hold for every order. */
module Validator {
  import opened Wrappers
  import opened Seqs
  import opened Ast
  import opened ReqTypes
  import opened Extractor

  /** Ordinal of a priority; lower is more urgent. */
  function PriorityOrd(p: Priority): (n: nat)
    ensures n < 4
  {
    match p
    case Critical => 0
    case High => 1
    case Medium => 2
    case Low => 3
  }

  /** The ordinals rank the priorities Critical < High < Medium < Low, one ordinal each. */
  lemma PriorityOrdRanks()
    ensures forall p, q :: PriorityOrd(p) == PriorityOrd(q) ==> p == q
    ensures PriorityOrd(Critical) < PriorityOrd(High) < PriorityOrd(Medium) < PriorityOrd(Low)
  {
  }

  /** The four priorities in report order. */
  const AllPriorities: seq<Priority> := [Critical, High, Medium, Low]

  /** The `Debug` name of a priority, used as key of the per-priority summary. */
  function PriorityName(p: Priority): string {
    match p
    case Critical => "Critical"
    case High => "High"
    case Medium => "Medium"
    case Low => "Low"
  }

  /** Thresholds for reporting uncovered requirements. */
  datatype ValidatorConfig = ValidatorConfig(errorMinPriority: Priority, warningMinPriority: Priority)

  /** Critical is an error, High a warning, everything else informational. */
  function DefaultConfig(): (c: ValidatorConfig)
    ensures c.errorMinPriority == Critical && c.warningMinPriority == High
  {
    ValidatorConfig(Critical, High)
  }

  /** Every uncovered requirement is an error. */
  function Strict(): (c: ValidatorConfig)
    ensures c.errorMinPriority == Low && c.warningMinPriority == Low
  {
    ValidatorConfig(Low, Low)
  }

  // ---------------------------------------------------------------------------
  // Step 1: coverage links
  // ---------------------------------------------------------------------------

  /** The ids of the tests that claim to cover requirement `rid`. */
  function Coverers(tests: map<string, TestInfo>, rid: string): set<string> {
    set t | t in tests && rid in tests[t].covers
  }

  /** The same, restricted to the tests in `done`. */
  function CoverersAmong(tests: map<string, TestInfo>, rid: string, done: set<string>): set<string> {
    set t | t in done && t in tests && rid in tests[t].covers
  }

  lemma CoverersAmongAdd(tests: map<string, TestInfo>, rid: string, done: set<string>, t: string)
    requires t in tests
    ensures CoverersAmong(tests, rid, done + {t})
         == CoverersAmong(tests, rid, done) + (if rid in tests[t].covers then {t} else {})
  {
  }

  /** NonexistentRequirement errors for the entries of `covers` that are not requirement ids,
      one per entry, in the order of `covers`. */
  function Dangling(testId: string, test: TestInfo, covers: seq<string>, keys: set<string>): seq<RequirementError> {
    if covers == [] then []
    else
      var rid := covers[|covers| - 1];
      Dangling(testId, test, covers[..|covers| - 1], keys)
        + (if rid in keys then [] else [NonexistentRequirement(testId, rid, test.snippetId, test.span)])
  }

  /** Dangling references of all tests, visited in `order`. */
  function DanglingRefs(order: seq<string>, tests: map<string, TestInfo>, keys: set<string>): seq<RequirementError> {
    if order == [] then []
    else
      var t := order[|order| - 1];
      DanglingRefs(order[..|order| - 1], tests, keys)
        + (if t in tests then Dangling(t, tests[t], tests[t].covers, keys) else [])
  }

  /** What linking does to one requirement: only `coveredBy` changes, it only grows at its end,
      it gains exactly the test ids of `gained`, and it gains no duplicates. */
  ghost predicate GrownBy(before: RequirementInfo, after: RequirementInfo, gained: set<string>) {
    && after == before.(coveredBy := after.coveredBy)
    && before.coveredBy <= after.coveredBy
    && ToSet(after.coveredBy) == ToSet(before.coveredBy) + gained
    && (NoDup(before.coveredBy) ==> NoDup(after.coveredBy))
  }

  lemma GrownByNothing(r: RequirementInfo)
    ensures GrownBy(r, r, {})
  {
  }

  lemma GrownByTrans(a: RequirementInfo, b: RequirementInfo, c: RequirementInfo, g1: set<string>, g2: set<string>)
    requires GrownBy(a, b, g1) && GrownBy(b, c, g2)
    ensures GrownBy(a, c, g1 + g2)
  {
  }

  /** Appending a test id that is not yet present. */
  lemma GrownByAppend(before: RequirementInfo, mid: RequirementInfo, gained: set<string>, t: string)
    requires GrownBy(before, mid, gained) && t !in mid.coveredBy
    ensures GrownBy(before, mid.(coveredBy := mid.coveredBy + [t]), gained + {t})
  {
    var cov := mid.coveredBy + [t];
    assert ToSet(cov) == ToSet(mid.coveredBy) + {t};
    if NoDup(before.coveredBy) {
      forall i, j | 0 <= i < j < |cov| ensures cov[i] != cov[j] {
        if j == |cov| - 1 {
          assert cov[i] in mid.coveredBy;
        }
      }
    }
  }

  /** Skipping a test id that is already present. */
  lemma GrownByPresent(before: RequirementInfo, mid: RequirementInfo, gained: set<string>, t: string)
    requires GrownBy(before, mid, gained) && t in mid.coveredBy
    ensures GrownBy(before, mid, gained + {t})
  {
    assert t in ToSet(mid.coveredBy);
  }

  /** What linking promises about the requirement map: the same keys, and every requirement
      grown by the covering tests among `done`. */
  ghost predicate LinkedFrom(reqs0: map<string, RequirementInfo>, reqs: map<string, RequirementInfo>,
                             tests: map<string, TestInfo>, done: set<string>)
  {
    && reqs.Keys == reqs0.Keys
    && (forall r :: r in reqs0 ==> GrownBy(reqs0[r], reqs[r], CoverersAmong(tests, r, done)))
  }

  /** Linking one covered id: append `testId` to its `coveredBy` unless already there;
      ids that are not requirements leave the map alone. */
  function AddCoverer(reqs: map<string, RequirementInfo>, rid: string, testId: string): map<string, RequirementInfo> {
    if rid in reqs && testId !in reqs[rid].coveredBy then
      reqs[rid := reqs[rid].(coveredBy := reqs[rid].coveredBy + [testId])]
    else reqs
  }

  /** Linking every entry of `covers` for the test `testId`, in order. */
  function LinkCovers(reqs: map<string, RequirementInfo>, testId: string, covers: seq<string>): map<string, RequirementInfo> {
    if covers == [] then reqs
    else AddCoverer(LinkCovers(reqs, testId, covers[..|covers| - 1]), covers[|covers| - 1], testId)
  }

  /** Linking the tests of `order`, in that order. */
  function LinkTests(reqs: map<string, RequirementInfo>, order: seq<string>, tests: map<string, TestInfo>): map<string, RequirementInfo> {
    if order == [] then reqs
    else
      var t := order[|order| - 1];
      var before := LinkTests(reqs, order[..|order| - 1], tests);
      if t in tests then LinkCovers(before, t, tests[t].covers) else before
  }

  /** Link one test: add it to `coveredBy` of every requirement it covers (once),
      and report each covered id that is not a requirement. */
  method LinkTest(reqs0: map<string, RequirementInfo>, testId: string, test: TestInfo, errors0: seq<RequirementError>)
    returns (reqs: map<string, RequirementInfo>, errors: seq<RequirementError>)
    ensures reqs == LinkCovers(reqs0, testId, test.covers)
    ensures errors == errors0 + Dangling(testId, test, test.covers, reqs0.Keys)
  {
    reqs, errors := reqs0, errors0;
    var covers := test.covers;
    for j := 0 to |covers|
      invariant reqs == LinkCovers(reqs0, testId, covers[..j])
      invariant reqs.Keys == reqs0.Keys
      invariant errors == errors0 + Dangling(testId, test, covers[..j], reqs0.Keys)
    {
      var rid := covers[j];
      assert covers[..j + 1][..j] == covers[..j];
      if rid in reqs {
        var req := reqs[rid];
        if testId !in req.coveredBy {
          reqs := reqs[rid := req.(coveredBy := req.coveredBy + [testId])];
        }
      } else {
        errors := errors + [NonexistentRequirement(testId, rid, test.snippetId, test.span)];
      }
    }
    assert covers[..|covers|] == covers;
  }

  /** Build bidirectional links between requirements and the tests that cover them. */
  method BuildCoverageLinks(reqs0: map<string, RequirementInfo>, tests: map<string, TestInfo>,
                            errors0: seq<RequirementError>)
    returns (reqs: map<string, RequirementInfo>, errors: seq<RequirementError>, ghost order: seq<string>)
    ensures Enumerates(order, tests.Keys)
    ensures reqs == LinkTests(reqs0, order, tests)
    ensures errors == errors0 + DanglingRefs(order, tests, reqs0.Keys)
  {
    reqs, errors, order := reqs0, errors0, [];
    var remaining := tests.Keys;
    while remaining != {}
      invariant remaining <= tests.Keys
      invariant NoDup(order)
      invariant forall t :: t in order ==> t in tests && t !in remaining
      invariant forall t :: t in tests ==> t in order || t in remaining
      invariant reqs == LinkTests(reqs0, order, tests)
      invariant reqs.Keys == reqs0.Keys
      invariant errors == errors0 + DanglingRefs(order, tests, reqs0.Keys)
      decreases remaining
    {
      var t :| t in remaining;
      LinkCoversKeys(reqs, t, tests[t].covers);
      LinkTestsSnoc(reqs0, order, t, tests);
      DanglingRefsSnoc(order, t, tests, reqs0.Keys);
      AppendAssoc(errors0, DanglingRefs(order, tests, reqs0.Keys), Dangling(t, tests[t], tests[t].covers, reqs0.Keys));
      NoDupSnoc(order, t);
      reqs, errors := LinkTest(reqs, t, tests[t], errors);
      order := order + [t];
      remaining := remaining - {t};
    }
  }

  lemma LinkTestsSnoc(reqs0: map<string, RequirementInfo>, order: seq<string>, t: string, tests: map<string, TestInfo>)
    requires t in tests
    ensures LinkTests(reqs0, order + [t], tests) == LinkCovers(LinkTests(reqs0, order, tests), t, tests[t].covers)
  {
    assert (order + [t])[..|order|] == order;
  }

  lemma DanglingRefsSnoc(order: seq<string>, t: string, tests: map<string, TestInfo>, keys: set<string>)
    requires t in tests
    ensures DanglingRefs(order + [t], tests, keys) == DanglingRefs(order, tests, keys) + Dangling(t, tests[t], tests[t].covers, keys)
  {
    assert (order + [t])[..|order|] == order;
  }

  lemma {:induction false} LinkCoversKeys(reqs: map<string, RequirementInfo>, testId: string, covers: seq<string>)
    ensures LinkCovers(reqs, testId, covers).Keys == reqs.Keys
  {
    if covers != [] {
      LinkCoversKeys(reqs, testId, covers[..|covers| - 1]);
    }
  }

  /** Linking one test grows each requirement by that test exactly when the test covers it. */
  lemma {:induction false} LinkCoversGrows(reqs: map<string, RequirementInfo>, testId: string, covers: seq<string>)
    ensures LinkCovers(reqs, testId, covers).Keys == reqs.Keys
    ensures forall r :: r in reqs ==>
      GrownBy(reqs[r], LinkCovers(reqs, testId, covers)[r], if r in covers then {testId} else {})
  {
    if covers == [] {
      forall r | r in reqs ensures GrownBy(reqs[r], reqs[r], {}) {
        GrownByNothing(reqs[r]);
      }
    } else {
      var prefix, rid := covers[..|covers| - 1], covers[|covers| - 1];
      LinkCoversGrows(reqs, testId, prefix);
      var mid := LinkCovers(reqs, testId, prefix);
      assert forall r :: r in covers <==> r in prefix || r == rid;
      forall r | r in reqs
        ensures GrownBy(reqs[r], AddCoverer(mid, rid, testId)[r], if r in covers then {testId} else {})
      {
        var gained := if r in prefix then {testId} else {};
        if r == rid {
          assert gained + {testId} == {testId};
          if testId !in mid[r].coveredBy {
            GrownByAppend(reqs[r], mid[r], gained, testId);
          } else {
            GrownByPresent(reqs[r], mid[r], gained, testId);
          }
        }
      }
    }
  }

  /** Linking the tests of `order` grows each requirement by exactly its coverers among them. */
  lemma {:induction false} LinkTestsLinked(reqs0: map<string, RequirementInfo>, order: seq<string>, tests: map<string, TestInfo>)
    requires forall t :: t in order ==> t in tests
    ensures LinkedFrom(reqs0, LinkTests(reqs0, order, tests), tests, ToSet(order))
  {
    if order == [] {
      LinkedFromStart(reqs0, tests);
    } else {
      var prefix, t := order[..|order| - 1], order[|order| - 1];
      LinkTestsLinked(reqs0, prefix, tests);
      var before := LinkTests(reqs0, prefix, tests);
      LinkCoversGrows(before, t, tests[t].covers);
      LinkedFromStep(reqs0, before, LinkCovers(before, t, tests[t].covers), tests, ToSet(prefix), t);
      assert ToSet(order) == ToSet(prefix) + {t};
    }
  }

  lemma LinkedFromStart(reqs0: map<string, RequirementInfo>, tests: map<string, TestInfo>)
    ensures LinkedFrom(reqs0, reqs0, tests, {})
  {
    forall r | r in reqs0 ensures GrownBy(reqs0[r], reqs0[r], CoverersAmong(tests, r, {})) {
      GrownByNothing(reqs0[r]);
      assert CoverersAmong(tests, r, {}) == {};
    }
  }

  /** Linking one more test `t` extends the linked state from `done` to `done + {t}`. */
  lemma LinkedFromStep(reqs0: map<string, RequirementInfo>, before: map<string, RequirementInfo>,
                       after: map<string, RequirementInfo>, tests: map<string, TestInfo>,
                       done: set<string>, t: string)
    requires t in tests
    requires LinkedFrom(reqs0, before, tests, done)
    requires after.Keys == reqs0.Keys
    requires forall r :: r in before ==> GrownBy(before[r], after[r], if r in tests[t].covers then {t} else {})
    ensures LinkedFrom(reqs0, after, tests, done + {t})
  {
    forall r | r in reqs0
      ensures GrownBy(reqs0[r], after[r], CoverersAmong(tests, r, done + {t}))
    {
      var g := if r in tests[t].covers then {t} else {};
      assert GrownBy(before[r], after[r], g);
      GrownByTrans(reqs0[r], before[r], after[r], CoverersAmong(tests, r, done), g);
      CoverersAmongAdd(tests, r, done, t);
    }
  }

  // ---------------------------------------------------------------------------
  // Step 2: uncovered requirements
  // ---------------------------------------------------------------------------

  /** The requirements that must be reported: uncovered, and at or above the warning threshold. */
  function ReportedUncovered(reqs: map<string, RequirementInfo>, config: ValidatorConfig): set<string> {
    set id | id in reqs && reqs[id].coveredBy == []
                        && PriorityOrd(reqs[id].priority) <= PriorityOrd(config.warningMinPriority)
  }

  function UncoveredErrorOf(r: RequirementInfo): RequirementError {
    UncoveredRequirement(r.id, r.priority, r.snippetId, r.span)
  }

  /** One UncoveredRequirement error per id of `order`, in that order. */
  function UncoveredErrors(order: seq<string>, reqs: map<string, RequirementInfo>): seq<RequirementError> {
    if order == [] then []
    else
      var id := order[|order| - 1];
      UncoveredErrors(order[..|order| - 1], reqs) + (if id in reqs then [UncoveredErrorOf(reqs[id])] else [])
  }

  /** Append one UncoveredRequirement error for each requirement with no coverage whose
      priority is at or above the warning threshold; others are ignored. */
  method CheckUncoveredRequirements(reqs: map<string, RequirementInfo>, errors0: seq<RequirementError>,
                                    config: ValidatorConfig)
    returns (errors: seq<RequirementError>, ghost order: seq<string>)
    ensures Enumerates(order, ReportedUncovered(reqs, config))
    ensures errors == errors0 + UncoveredErrors(order, reqs)
  {
    var threshold := PriorityOrd(config.warningMinPriority);
    errors, order := errors0, [];
    var remaining := reqs.Keys;
    while remaining != {}
      invariant remaining <= reqs.Keys
      invariant NoDup(order)
      invariant forall id :: id in order ==> id in ReportedUncovered(reqs, config) && id !in remaining
      invariant forall id :: id in ReportedUncovered(reqs, config) ==> id in order || id in remaining
      invariant errors == errors0 + UncoveredErrors(order, reqs)
      decreases remaining
    {
      var id :| id in remaining;
      var req := reqs[id];
      if req.coveredBy == [] && PriorityOrd(req.priority) <= threshold {
        assert (order + [id])[..|order|] == order;
        errors := errors + [UncoveredErrorOf(req)];
        order := order + [id];
      }
      remaining := remaining - {id};
    }
  }

  // ---------------------------------------------------------------------------
  // Step 3: summary
  // ---------------------------------------------------------------------------

  function CoveredIds(reqs: map<string, RequirementInfo>): set<string> {
    set id | id in reqs && reqs[id].coveredBy != []
  }

  function IdsWithPriority(reqs: map<string, RequirementInfo>, p: Priority): set<string> {
    set id | id in reqs && reqs[id].priority == p
  }

  lemma SubsetCard<T>(a: set<T>, b: set<T>)
    requires a <= b
    ensures |a| <= |b|
  {
    assert b == a + (b - a);
  }

  /** The counts for one priority: its requirements, how many of them are covered, and the rest. */
  function PrioritySummaryOf(reqs: map<string, RequirementInfo>, p: Priority): (s: PrioritySummary)
    ensures s.total == |IdsWithPriority(reqs, p)|
    ensures s.covered == |IdsWithPriority(reqs, p) * CoveredIds(reqs)|
    ensures s.total == s.covered + s.uncovered
  {
    var ofPriority := IdsWithPriority(reqs, p);
    var ofPriorityCovered := ofPriority * CoveredIds(reqs);
    SubsetCard(ofPriorityCovered, ofPriority);
    PrioritySummary(|ofPriority|, |ofPriorityCovered|, |ofPriority| - |ofPriorityCovered|)
  }

  const PriorityNames: seq<string> := ["Critical", "High", "Medium", "Low"]

  lemma PriorityNamesDistinct()
    ensures forall i, j :: 0 <= i < j < |PriorityNames| ==> PriorityNames[i] != PriorityNames[j]
  {
    assert PriorityNames[0][0] == 'C' && PriorityNames[1][0] == 'H' && PriorityNames[2][0] == 'M' && PriorityNames[3][0] == 'L';
  }

  /** The integer counts of the summary: totals, covered, uncovered, and the same per priority. */
  ghost predicate IsSummaryOf(s: CoverageSummary, reqs: map<string, RequirementInfo>) {
    && s.totalRequirements == |reqs|
    && s.coveredRequirements == |CoveredIds(reqs)|
    && s.totalRequirements == s.coveredRequirements + s.uncoveredRequirements
    && s.byPriority.Keys == {"Critical", "High", "Medium", "Low"}
    && (forall p :: PriorityName(p) in s.byPriority && s.byPriority[PriorityName(p)] == PrioritySummaryOf(reqs, p))
  }

  /** Compute the summary counts of the requirements. */
  method ComputeSummary(reqs: map<string, RequirementInfo>) returns (s: CoverageSummary)
    ensures IsSummaryOf(s, reqs)
  {
    var total := |reqs|;
    var coveredSet := CoveredIds(reqs);
    SubsetCard(coveredSet, reqs.Keys);
    var covered := |coveredSet|;
    var byPriority: map<string, PrioritySummary> := map[];
    for i := 0 to |AllPriorities|
      invariant FilledUpTo(reqs, byPriority, i)
    {
      var p := AllPriorities[i];
      var ofPriority := IdsWithPriority(reqs, p);
      var ofPriorityCovered := ofPriority * coveredSet;
      SubsetCard(ofPriorityCovered, ofPriority);
      var entry := PrioritySummary(|ofPriority|, |ofPriorityCovered|, |ofPriority| - |ofPriorityCovered|);
      assert entry == PrioritySummaryOf(reqs, p);
      FilledStep(reqs, byPriority, i);
      byPriority := byPriority[PriorityNames[i] := entry];
    }
    ByPriorityComplete(reqs, byPriority);
    s := CoverageSummary(total, covered, total - covered, byPriority);
  }

  /** The per-priority map holds only priority names, and the summaries of the first `i` priorities. */
  ghost predicate FilledUpTo(reqs: map<string, RequirementInfo>, byPriority: map<string, PrioritySummary>, i: nat) {
    && (forall k :: k in byPriority ==> k in PriorityNames)
    && (forall j :: 0 <= j < i && j < 4 ==> PriorityNames[j] in byPriority)
    && (forall j :: 0 <= j < i && j < 4 ==> byPriority[PriorityNames[j]] == PrioritySummaryOf(reqs, AllPriorities[j]))
  }

  lemma FilledStep(reqs: map<string, RequirementInfo>, byPriority: map<string, PrioritySummary>, i: nat)
    requires i < 4 && FilledUpTo(reqs, byPriority, i)
    ensures FilledUpTo(reqs, byPriority[PriorityNames[i] := PrioritySummaryOf(reqs, AllPriorities[i])], i + 1)
  {
    PriorityNamesDistinct();
  }

  /** A map filled for the four priority names in order is the per-priority summary. */
  lemma ByPriorityComplete(reqs: map<string, RequirementInfo>, byPriority: map<string, PrioritySummary>)
    requires FilledUpTo(reqs, byPriority, 4)
    ensures byPriority.Keys == {"Critical", "High", "Medium", "Low"}
    ensures forall p :: PriorityName(p) in byPriority && byPriority[PriorityName(p)] == PrioritySummaryOf(reqs, p)
  {
    ByPriorityKeys(byPriority);
    forall p ensures PriorityName(p) in byPriority && byPriority[PriorityName(p)] == PrioritySummaryOf(reqs, p) {
      var j := PriorityOrd(p);
      assert PriorityNames[j] == PriorityName(p) && AllPriorities[j] == p;
    }
  }

  lemma ByPriorityKeys<V>(byPriority: map<string, V>)
    requires forall k :: k in byPriority ==> k in PriorityNames
    requires forall j :: 0 <= j < 4 ==> PriorityNames[j] in byPriority
    ensures byPriority.Keys == {"Critical", "High", "Medium", "Low"}
  {
    var names := {"Critical", "High", "Medium", "Low"};
    assert "Critical" in byPriority && "High" in byPriority by {
      assert PriorityNames[0] == "Critical" && PriorityNames[1] == "High";
    }
    assert "Medium" in byPriority && "Low" in byPriority by {
      assert PriorityNames[2] == "Medium" && PriorityNames[3] == "Low";
    }
    assert byPriority.Keys <= names by {
      forall k | k in byPriority ensures k in names {
        assert k in PriorityNames;
      }
    }
  }

  lemma FourPartsCard<T>(u: set<T>, a: set<T>, b: set<T>, c: set<T>, d: set<T>)
    requires u == a + b + c + d
    requires a !! b && a !! c && a !! d && b !! c && b !! d && c !! d
    ensures |u| == |a| + |b| + |c| + |d|
  {
    assert |a + b| == |a| + |b|;
    assert |a + b + c| == |a + b| + |c|;
  }

  lemma IntersectPartition<T>(u: set<T>, a: set<T>, b: set<T>, c: set<T>, d: set<T>, x: set<T>)
    requires u == a + b + c + d && x <= u
    ensures x == a * x + b * x + c * x + d * x
  {
  }

  lemma PartitionByPriority(reqs: map<string, RequirementInfo>)
    ensures reqs.Keys == IdsWithPriority(reqs, Critical) + IdsWithPriority(reqs, High)
                       + IdsWithPriority(reqs, Medium) + IdsWithPriority(reqs, Low)
  {
  }

  /** Each requirement has exactly one priority, so the four per-priority totals add up to the
      total, and the per-priority covered counts add up to the covered count. */
  lemma SummaryTotalsAddUp(s: CoverageSummary, reqs: map<string, RequirementInfo>)
    requires IsSummaryOf(s, reqs)
    ensures s.byPriority["Critical"].total + s.byPriority["High"].total
          + s.byPriority["Medium"].total + s.byPriority["Low"].total == s.totalRequirements
    ensures s.byPriority["Critical"].covered + s.byPriority["High"].covered
          + s.byPriority["Medium"].covered + s.byPriority["Low"].covered == s.coveredRequirements
  {
    var c, h, m, l := IdsWithPriority(reqs, Critical), IdsWithPriority(reqs, High),
                      IdsWithPriority(reqs, Medium), IdsWithPriority(reqs, Low);
    assert s.byPriority["Critical"] == PrioritySummaryOf(reqs, Critical) by { assert PriorityName(Critical) == "Critical"; }
    assert s.byPriority["High"] == PrioritySummaryOf(reqs, High) by { assert PriorityName(High) == "High"; }
    assert s.byPriority["Medium"] == PrioritySummaryOf(reqs, Medium) by { assert PriorityName(Medium) == "Medium"; }
    assert s.byPriority["Low"] == PrioritySummaryOf(reqs, Low) by { assert PriorityName(Low) == "Low"; }
    PartitionByPriority(reqs);
    FourPartsCard(reqs.Keys, c, h, m, l);
    var cv := CoveredIds(reqs);
    IntersectPartition(reqs.Keys, c, h, m, l, cv);
    FourPartsCard(cv, c * cv, h * cv, m * cv, l * cv);
  }

  // ---------------------------------------------------------------------------
  // validate and filter_uncovered
  // ---------------------------------------------------------------------------

  /** Everything `validate` promises about the report it builds from an extraction. */
  ghost predicate ValidationOutcome(ex: ExtractionResult, config: ValidatorConfig, report: CoverageReport,
                                    linkOrder: seq<string>, uncoveredOrder: seq<string>)
  {
    && report.tests == ex.tests
    && Enumerates(linkOrder, ex.tests.Keys)
    && report.requirements == LinkTests(ex.requirements, linkOrder, ex.tests)
    && LinkedFrom(ex.requirements, report.requirements, ex.tests, ex.tests.Keys)
    && Enumerates(uncoveredOrder, ReportedUncovered(report.requirements, config))
    && report.errors == ex.errors + DanglingRefs(linkOrder, ex.tests, ex.requirements.Keys)
                                  + UncoveredErrors(uncoveredOrder, report.requirements)
    && IsSummaryOf(report.summary, report.requirements)
  }

  /** Validate coverage and build the full report. */
  method Validate(ex: ExtractionResult, config: ValidatorConfig)
    returns (report: CoverageReport, ghost linkOrder: seq<string>, ghost uncoveredOrder: seq<string>)
    ensures ValidationOutcome(ex, config, report, linkOrder, uncoveredOrder)
  {
    var requirements, errors;
    requirements, errors, linkOrder := BuildCoverageLinks(ex.requirements, ex.tests, ex.errors);
    LinkTestsLinked(ex.requirements, linkOrder, ex.tests);
    assert ToSet(linkOrder) == ex.tests.Keys;
    errors, uncoveredOrder := CheckUncoveredRequirements(requirements, errors, config);
    var summary := ComputeSummary(requirements);
    report := CoverageReport(requirements, ex.tests, summary, errors);
  }

  /** The uncovered-only view: uncovered requirements, no tests, the same summary,
      and only the UncoveredRequirement errors. */
  function FilterUncovered(report: CoverageReport): (r: CoverageReport)
    ensures forall k :: k in r.requirements <==> k in report.requirements && report.requirements[k].coveredBy == []
    ensures forall k :: k in r.requirements ==> r.requirements[k] == report.requirements[k]
    ensures r.tests == map[] && r.summary == report.summary
    ensures forall e :: e in r.errors ==> e in report.errors && e.UncoveredRequirement?
    ensures forall e :: e in report.errors && e.UncoveredRequirement? ==> e in r.errors
    ensures forall e :: multiset(r.errors)[e] == if e.UncoveredRequirement? then multiset(report.errors)[e] else 0
  {
    FilterMembers(report.errors, IsUncovered);
    FilterCount(report.errors, IsUncovered);
    CoverageReport(
      map k | k in report.requirements && report.requirements[k].coveredBy == [] :: report.requirements[k],
      map[],
      report.summary,
      Filter(report.errors, IsUncovered))
  }

  /** The view keeps the order of the errors: for errors `a + b`, its errors are those kept
      from `a` followed by those kept from `b`; a single error is kept exactly when it is an
      UncoveredRequirement error. */
  lemma UncoveredErrorsInOrder(report: CoverageReport, a: seq<RequirementError>, b: seq<RequirementError>)
    requires report.errors == a + b
    ensures FilterUncovered(report).errors ==
            FilterUncovered(report.(errors := a)).errors + FilterUncovered(report.(errors := b)).errors
  {
    FilterConcat(a, b, IsUncovered);
  }

  lemma UncoveredErrorOfOne(report: CoverageReport, e: RequirementError)
    requires report.errors == [e]
    ensures FilterUncovered(report).errors == if e.UncoveredRequirement? then [e] else []
  {
    assert report.errors[1..] == [];
  }

  /** Taking the uncovered-only view twice is the same as taking it once. */
  lemma FilterUncoveredIdempotent(report: CoverageReport)
    ensures FilterUncovered(FilterUncovered(report)) == FilterUncovered(report)
  {
    FilterIdempotent(report.errors, IsUncovered);
  }

  // ---------------------------------------------------------------------------
  // What validation promises
  // ---------------------------------------------------------------------------

  /** Starting from requirements with no coverage, linking lists under each requirement exactly the
      tests that claim to cover it, each once, and changes nothing else. */
  lemma LinkedCoverage(reqs0: map<string, RequirementInfo>, reqs: map<string, RequirementInfo>,
                       tests: map<string, TestInfo>)
    requires LinkedFrom(reqs0, reqs, tests, tests.Keys)
    requires forall r :: r in reqs0 ==> reqs0[r].coveredBy == []
    ensures reqs.Keys == reqs0.Keys
    ensures forall r, t :: r in reqs ==> (t in reqs[r].coveredBy <==> t in tests && r in tests[t].covers)
    ensures forall r :: r in reqs ==> NoDup(reqs[r].coveredBy)
    ensures forall r :: r in reqs ==> reqs[r] == reqs0[r].(coveredBy := reqs[r].coveredBy)
  {
    forall r | r in reqs
      ensures forall t :: t in reqs[r].coveredBy <==> t in tests && r in tests[t].covers
      ensures NoDup(reqs[r].coveredBy)
    {
      assert GrownBy(reqs0[r], reqs[r], CoverersAmong(tests, r, tests.Keys));
      assert ToSet(reqs0[r].coveredBy) == {};
      forall t ensures t in reqs[r].coveredBy <==> t in tests && r in tests[t].covers {
        assert t in reqs[r].coveredBy <==> t in ToSet(reqs[r].coveredBy);
      }
    }
  }

  /** The dangling references of one test: one NonexistentRequirement error for each entry of
      `covers` outside `keys`, and nothing else. */
  lemma {:induction false} DanglingExact(testId: string, test: TestInfo, covers: seq<string>, keys: set<string>)
    ensures |Dangling(testId, test, covers, keys)| == |Filter(covers, rid => rid !in keys)|
    ensures forall e :: e in Dangling(testId, test, covers, keys) ==>
      e.NonexistentRequirement? && e.testId == testId && e.reqId in covers && e.reqId !in keys
      && e.snippetId == test.snippetId && e.span == test.span
    ensures forall rid :: rid in covers && rid !in keys ==>
      NonexistentRequirement(testId, rid, test.snippetId, test.span) in Dangling(testId, test, covers, keys)
  {
    if covers != [] {
      var prefix := covers[..|covers| - 1];
      DanglingExact(testId, test, prefix, keys);
      FilterSnoc(covers, rid => rid !in keys);
      assert forall rid :: rid in covers <==> rid in prefix || rid == covers[|covers| - 1];
    }
  }

  /** The dangling references of all tests: exactly one error per (test, covered id) pair whose id
      is not a requirement, carrying that test's id, snippet and span. */
  lemma {:induction false} DanglingRefsExact(order: seq<string>, tests: map<string, TestInfo>, keys: set<string>)
    ensures forall e :: e in DanglingRefs(order, tests, keys) ==>
      e.NonexistentRequirement? && e.testId in order && e.testId in tests && e.reqId in tests[e.testId].covers
      && e.reqId !in keys && e.snippetId == tests[e.testId].snippetId && e.span == tests[e.testId].span
    ensures forall t, rid :: t in order && t in tests && rid in tests[t].covers && rid !in keys ==>
      NonexistentRequirement(t, rid, tests[t].snippetId, tests[t].span) in DanglingRefs(order, tests, keys)
  {
    if order != [] {
      var prefix, t := order[..|order| - 1], order[|order| - 1];
      DanglingRefsExact(prefix, tests, keys);
      if t in tests {
        DanglingExact(t, tests[t], tests[t].covers, keys);
      }
      assert forall x :: x in order <==> x in prefix || x == t;
    }
  }

  /** Uncovered errors name exactly the reported requirements, each once, when every record is
      filed under its own id. */
  lemma {:induction false} UncoveredErrorsExact(order: seq<string>, reqs: map<string, RequirementInfo>)
    requires forall k :: k in order ==> k in reqs
    ensures |UncoveredErrors(order, reqs)| == |order|
    ensures forall e :: e in UncoveredErrors(order, reqs) <==>
      exists k :: k in order && e == UncoveredErrorOf(reqs[k])
  {
    if order != [] {
      var prefix, k := order[..|order| - 1], order[|order| - 1];
      UncoveredErrorsExact(prefix, reqs);
      assert forall x :: x in order <==> x in prefix || x == k;
    }
  }

  /** Under the strict configuration every uncovered requirement is reported. */
  lemma StrictReportsAllUncovered(reqs: map<string, RequirementInfo>)
    ensures ReportedUncovered(reqs, Strict()) == set id | id in reqs && reqs[id].coveredBy == []
  {
  }

  /** A requirement is reported as uncovered exactly when nothing covers it and its priority
      ordinal is at most the warning threshold. */
  lemma ReportedUncoveredExact(reqs: map<string, RequirementInfo>, config: ValidatorConfig, id: string)
    requires id in reqs
    ensures id in ReportedUncovered(reqs, config)
        <==> reqs[id].coveredBy == [] && PriorityOrd(reqs[id].priority) <= PriorityOrd(config.warningMinPriority)
  {
  }
}
