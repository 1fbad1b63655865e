/** Extraction of requirements and tests from a parsed program.

    The imperative `Extract` walks snippets, sections and declarations in source
    order. Its specification is `Run(Items(program))`: the same walk seen as a fold
    of `Step` over the flat sequence of declarations. The lemmas below state what
    that fold promises: the first declaration of an id wins, later ones become
    duplicate errors, and every declaration is accounted for exactly once. */
module Extractor {
  import opened Wrappers
  import opened Seqs
  import opened Ast
  import opened ReqTypes

  /** The result of extraction. */
  datatype ExtractionResult = ExtractionResult(
    requirements: map<string, RequirementInfo>,
    tests: map<string, TestInfo>,
    errors: seq<RequirementError>)

  const Empty := ExtractionResult(map[], map[], [])

  /** One declaration, tagged with the id of the snippet that encloses it. */
  datatype Item = ReqItem(snippetId: string, req: ReqDecl) | TestItem(snippetId: string, test: TestDecl)

  /** The record built for a requirement declaration: defaults Medium and Draft, no coverage yet. */
  function RequirementInfoOf(snippetId: string, r: ReqDecl): RequirementInfo {
    RequirementInfo(r.id, r.text, r.priority.GetOr(Medium), r.status.GetOr(Draft), snippetId, [], r.span)
  }

  /** The record built for a test declaration: `covers` is copied verbatim. */
  function TestInfoOf(snippetId: string, t: TestDecl): TestInfo {
    TestInfo(t.id, t.kind, t.covers, snippetId, t.span)
  }

  /** Processing one declaration: insert it if its id is new, otherwise report a duplicate. */
  function Step(st: ExtractionResult, item: Item): ExtractionResult {
    match item
    case ReqItem(sid, r) =>
      if r.id in st.requirements then
        st.(errors := st.errors + [DuplicateRequirement(r.id, st.requirements[r.id].snippetId, sid, r.span)])
      else
        st.(requirements := st.requirements[r.id := RequirementInfoOf(sid, r)])
    case TestItem(sid, t) =>
      if t.id in st.tests then
        st.(errors := st.errors + [DuplicateTest(t.id, st.tests[t.id].snippetId, sid, t.span)])
      else
        st.(tests := st.tests[t.id := TestInfoOf(sid, t)])
  }

  /** Processing the declarations `items` in order, starting from `st`. */
  function RunFrom(st: ExtractionResult, items: seq<Item>): ExtractionResult {
    if items == [] then st else Step(RunFrom(st, items[..|items| - 1]), items[|items| - 1])
  }

  function Run(items: seq<Item>): ExtractionResult {
    RunFrom(Empty, items)
  }

  // ---------------------------------------------------------------------------
  // The declarations of a program, flattened in source order
  // ---------------------------------------------------------------------------

  function ReqItems(sid: string, reqs: seq<ReqDecl>): seq<Item> {
    if reqs == [] then [] else ReqItems(sid, reqs[..|reqs| - 1]) + [ReqItem(sid, reqs[|reqs| - 1])]
  }

  function TestItems(sid: string, tests: seq<TestDecl>): seq<Item> {
    if tests == [] then [] else TestItems(sid, tests[..|tests| - 1]) + [TestItem(sid, tests[|tests| - 1])]
  }

  function SectionItems(sid: string, s: Section): seq<Item> {
    match s
    case Requires(rs) => ReqItems(sid, rs)
    case Tests(ts) => TestItems(sid, ts)
    case OtherSection => []
  }

  function SectionsItems(sid: string, secs: seq<Section>): seq<Item> {
    if secs == [] then [] else SectionsItems(sid, secs[..|secs| - 1]) + SectionItems(sid, secs[|secs| - 1])
  }

  function SnippetsItems(snips: seq<Snippet>): seq<Item> {
    if snips == [] then []
    else SnippetsItems(snips[..|snips| - 1]) + SectionsItems(snips[|snips| - 1].id, snips[|snips| - 1].sections)
  }

  /** Every requirement and test declaration of the program, in source order. */
  function Items(p: Program): seq<Item> {
    match p
    case Snippets(ss) => SnippetsItems(ss)
    case Legacy => []
  }

  // ---------------------------------------------------------------------------
  // The imperative extraction
  // ---------------------------------------------------------------------------

  lemma RunFromSnoc(st: ExtractionResult, xs: seq<Item>, x: Item)
    ensures RunFrom(st, xs + [x]) == Step(RunFrom(st, xs), x)
  {
    assert (xs + [x])[..|xs|] == xs;
  }

  lemma {:induction false} RunFromConcat(st: ExtractionResult, a: seq<Item>, b: seq<Item>)
    ensures RunFrom(st, a + b) == RunFrom(RunFrom(st, a), b)
    decreases |b|
  {
    if b == [] {
      assert a + b == a;
    } else {
      var b', x := b[..|b| - 1], b[|b| - 1];
      assert b == b' + [x];
      AppendAssoc(a, b', [x]);
      RunFromSnoc(st, a + b', x);
      RunFromConcat(st, a, b');
      RunFromSnoc(RunFrom(st, a), b', x);
    }
  }

  /** Extract all requirements and tests of a program. */
  method Extract(program: Program) returns (r: ExtractionResult)
    ensures r == Run(Items(program))
    ensures program.Legacy? ==> r == Empty
  {
    var requirements: map<string, RequirementInfo> := map[];
    var tests: map<string, TestInfo> := map[];
    var errors: seq<RequirementError> := [];
    match program {
      case Snippets(snippets) =>
        for i := 0 to |snippets|
          invariant ExtractionResult(requirements, tests, errors) == Run(SnippetsItems(snippets[..i]))
        {
          assert snippets[..i + 1][..i] == snippets[..i];
          RunFromConcat(Empty, SnippetsItems(snippets[..i]), SectionsItems(snippets[i].id, snippets[i].sections));
          requirements, tests, errors := ExtractFromSnippet(snippets[i], requirements, tests, errors);
        }
        assert snippets[..|snippets|] == snippets;
      case Legacy =>
    }
    r := ExtractionResult(requirements, tests, errors);
  }

  /** The `Requires` arm: each requirement declaration of the section, in order. */
  method ExtractRequires(sid: string, reqs: seq<ReqDecl>, requirements0: map<string, RequirementInfo>,
                         tests: map<string, TestInfo>, errors0: seq<RequirementError>)
    returns (requirements: map<string, RequirementInfo>, errors: seq<RequirementError>)
    ensures ExtractionResult(requirements, tests, errors)
         == RunFrom(ExtractionResult(requirements0, tests, errors0), ReqItems(sid, reqs))
  {
    ghost var st0 := ExtractionResult(requirements0, tests, errors0);
    requirements, errors := requirements0, errors0;
    for k := 0 to |reqs|
      invariant ExtractionResult(requirements, tests, errors) == RunFrom(st0, ReqItems(sid, reqs[..k]))
    {
      var req := reqs[k];
      assert reqs[..k + 1][..k] == reqs[..k];
      assert ReqItems(sid, reqs[..k + 1]) == ReqItems(sid, reqs[..k]) + [ReqItem(sid, req)];
      RunFromSnoc(st0, ReqItems(sid, reqs[..k]), ReqItem(sid, req));
      if req.id in requirements {
        errors := errors + [DuplicateRequirement(req.id, requirements[req.id].snippetId, sid, req.span)];
      } else {
        requirements := requirements[req.id := RequirementInfoOf(sid, req)];
      }
    }
    assert reqs[..|reqs|] == reqs;
  }

  /** The `Tests` arm: each test declaration of the section, in order. */
  method ExtractTests(sid: string, ts: seq<TestDecl>, requirements: map<string, RequirementInfo>,
                      tests0: map<string, TestInfo>, errors0: seq<RequirementError>)
    returns (tests: map<string, TestInfo>, errors: seq<RequirementError>)
    ensures ExtractionResult(requirements, tests, errors)
         == RunFrom(ExtractionResult(requirements, tests0, errors0), TestItems(sid, ts))
  {
    ghost var st0 := ExtractionResult(requirements, tests0, errors0);
    tests, errors := tests0, errors0;
    for k := 0 to |ts|
      invariant ExtractionResult(requirements, tests, errors) == RunFrom(st0, TestItems(sid, ts[..k]))
    {
      var test := ts[k];
      assert ts[..k + 1][..k] == ts[..k];
      assert TestItems(sid, ts[..k + 1]) == TestItems(sid, ts[..k]) + [TestItem(sid, test)];
      RunFromSnoc(st0, TestItems(sid, ts[..k]), TestItem(sid, test));
      if test.id in tests {
        errors := errors + [DuplicateTest(test.id, tests[test.id].snippetId, sid, test.span)];
      } else {
        tests := tests[test.id := TestInfoOf(sid, test)];
      }
    }
    assert ts[..|ts|] == ts;
  }

  /** Extract the declarations of one snippet into the maps and error list built so far. */
  method ExtractFromSnippet(snippet: Snippet, requirements0: map<string, RequirementInfo>,
                            tests0: map<string, TestInfo>, errors0: seq<RequirementError>)
    returns (requirements: map<string, RequirementInfo>, tests: map<string, TestInfo>, errors: seq<RequirementError>)
    ensures ExtractionResult(requirements, tests, errors)
         == RunFrom(ExtractionResult(requirements0, tests0, errors0), SectionsItems(snippet.id, snippet.sections))
  {
    ghost var st0 := ExtractionResult(requirements0, tests0, errors0);
    requirements, tests, errors := requirements0, tests0, errors0;
    var secs := snippet.sections;
    var sid := snippet.id;
    for j := 0 to |secs|
      invariant ExtractionResult(requirements, tests, errors) == RunFrom(st0, SectionsItems(sid, secs[..j]))
    {
      assert secs[..j + 1][..j] == secs[..j];
      RunFromConcat(st0, SectionsItems(sid, secs[..j]), SectionItems(sid, secs[j]));
      match secs[j] {
        case Requires(reqs) =>
          requirements, errors := ExtractRequires(sid, reqs, requirements, tests, errors);
        case Tests(ts) =>
          tests, errors := ExtractTests(sid, ts, requirements, tests, errors);
        case OtherSection =>
      }
    }
    assert secs[..|secs|] == secs;
  }

  // ---------------------------------------------------------------------------
  // What extraction promises
  // ---------------------------------------------------------------------------

  predicate DeclaresReq(item: Item, id: string) { item.ReqItem? && item.req.id == id }
  predicate DeclaresTest(item: Item, id: string) { item.TestItem? && item.test.id == id }
  predicate IsReqItem(item: Item) { item.ReqItem? }
  predicate IsTestItem(item: Item) { item.TestItem? }
  predicate IsDuplicateRequirement(e: RequirementError) { e.DuplicateRequirement? }
  predicate IsDuplicateTest(e: RequirementError) { e.DuplicateTest? }

  /** A requirement id is extracted exactly when some declaration carries it. */
  lemma {:induction false} RequirementKeys(items: seq<Item>, id: string)
    ensures id in Run(items).requirements <==> exists k :: 0 <= k < |items| && DeclaresReq(items[k], id)
  {
    if items != [] {
      var xs, x := items[..|items| - 1], items[|items| - 1];
      RequirementKeys(xs, id);
      assert forall k :: 0 <= k < |xs| ==> items[k] == xs[k];
    }
  }

  /** A test id is extracted exactly when some declaration carries it. */
  lemma {:induction false} TestKeys(items: seq<Item>, id: string)
    ensures id in Run(items).tests <==> exists k :: 0 <= k < |items| && DeclaresTest(items[k], id)
  {
    if items != [] {
      var xs, x := items[..|items| - 1], items[|items| - 1];
      TestKeys(xs, id);
      assert forall k :: 0 <= k < |xs| ==> items[k] == xs[k];
    }
  }

  /** The first declaration of a requirement id is the one kept, with its own snippet id,
      the defaults Medium/Draft and an empty `coveredBy`. */
  lemma {:induction false} FirstRequirementWins(items: seq<Item>, k: nat)
    requires k < |items| && items[k].ReqItem?
    requires forall j :: 0 <= j < k ==> !DeclaresReq(items[j], items[k].req.id)
    ensures items[k].req.id in Run(items).requirements
    ensures Run(items).requirements[items[k].req.id] == RequirementInfoOf(items[k].snippetId, items[k].req)
  {
    var xs, x := items[..|items| - 1], items[|items| - 1];
    var id := items[k].req.id;
    if k == |items| - 1 {
      RequirementKeys(xs, id);
      assert forall j :: 0 <= j < |xs| ==> xs[j] == items[j];
    } else {
      FirstRequirementWins(xs, k);
    }
  }

  /** The first declaration of a test id is the one kept, with `covers` copied verbatim. */
  lemma {:induction false} FirstTestWins(items: seq<Item>, k: nat)
    requires k < |items| && items[k].TestItem?
    requires forall j :: 0 <= j < k ==> !DeclaresTest(items[j], items[k].test.id)
    ensures items[k].test.id in Run(items).tests
    ensures Run(items).tests[items[k].test.id] == TestInfoOf(items[k].snippetId, items[k].test)
  {
    var xs, x := items[..|items| - 1], items[|items| - 1];
    var id := items[k].test.id;
    if k == |items| - 1 {
      TestKeys(xs, id);
      assert forall j :: 0 <= j < |xs| ==> xs[j] == items[j];
    } else {
      FirstTestWins(xs, k);
    }
  }

  /** Errors are only ever appended. */
  lemma {:induction false} ErrorsGrow(items: seq<Item>, n: nat)
    requires n <= |items|
    ensures Run(items[..n]).errors <= Run(items).errors
    decreases |items| - n
  {
    if n < |items| {
      var xs := items[..|items| - 1];
      assert items[..n] == xs[..n];
      ErrorsGrow(xs, n);
    } else {
      assert items[..n] == items;
    }
  }

  /** A later declaration of an already-declared requirement id reports DuplicateRequirement
      naming the snippet of the first declaration and the snippet of the repeat. */
  lemma {:induction false} DuplicateRequirementReported(items: seq<Item>, f: nat, k: nat)
    requires f < k < |items| && items[f].ReqItem? && DeclaresReq(items[k], items[f].req.id)
    requires forall j :: 0 <= j < f ==> !DeclaresReq(items[j], items[f].req.id)
    ensures DuplicateRequirement(items[f].req.id, items[f].snippetId, items[k].snippetId, items[k].req.span)
            in Run(items).errors
  {
    var xs := items[..k];
    assert forall j :: 0 <= j < k ==> xs[j] == items[j];
    FirstRequirementWins(xs, f);
    assert items[..k + 1] == xs + [items[k]];
    RunFromSnoc(Empty, xs, items[k]);
    var e := DuplicateRequirement(items[f].req.id, items[f].snippetId, items[k].snippetId, items[k].req.span);
    var before := Run(items[..k + 1]).errors;
    assert before[|before| - 1] == e;
    ErrorsGrow(items, k + 1);
    assert Run(items).errors[|before| - 1] == e;
  }

  /** A later declaration of an already-declared test id reports DuplicateTest. */
  lemma {:induction false} DuplicateTestReported(items: seq<Item>, f: nat, k: nat)
    requires f < k < |items| && items[f].TestItem? && DeclaresTest(items[k], items[f].test.id)
    requires forall j :: 0 <= j < f ==> !DeclaresTest(items[j], items[f].test.id)
    ensures DuplicateTest(items[f].test.id, items[f].snippetId, items[k].snippetId, items[k].test.span)
            in Run(items).errors
  {
    var xs := items[..k];
    assert forall j :: 0 <= j < k ==> xs[j] == items[j];
    FirstTestWins(xs, f);
    assert items[..k + 1] == xs + [items[k]];
    RunFromSnoc(Empty, xs, items[k]);
    var e := DuplicateTest(items[f].test.id, items[f].snippetId, items[k].snippetId, items[k].test.span);
    var before := Run(items[..k + 1]).errors;
    assert before[|before| - 1] == e;
    ErrorsGrow(items, k + 1);
    assert Run(items).errors[|before| - 1] == e;
  }

  /** Every requirement declaration either becomes a record or a DuplicateRequirement error. */
  lemma {:induction false} RequirementsAccountedFor(items: seq<Item>)
    ensures |Run(items).requirements| + |Filter(Run(items).errors, IsDuplicateRequirement)|
            == |Filter(items, IsReqItem)|
  {
    if items != [] {
      var xs, x := items[..|items| - 1], items[|items| - 1];
      RequirementsAccountedFor(xs);
      FilterSnoc(items, IsReqItem);
      var st := Run(xs);
      match x {
        case ReqItem(sid, r) =>
          if r.id in st.requirements {
            var e := DuplicateRequirement(r.id, st.requirements[r.id].snippetId, sid, r.span);
            FilterConcat(st.errors, [e], IsDuplicateRequirement);
          } else {
            assert st.requirements[r.id := RequirementInfoOf(sid, r)].Keys == st.requirements.Keys + {r.id};
          }
        case TestItem(sid, t) =>
          if t.id in st.tests {
            var e := DuplicateTest(t.id, st.tests[t.id].snippetId, sid, t.span);
            FilterConcat(st.errors, [e], IsDuplicateRequirement);
          }
      }
    }
  }

  /** Every test declaration either becomes a record or a DuplicateTest error. */
  lemma {:induction false} TestsAccountedFor(items: seq<Item>)
    ensures |Run(items).tests| + |Filter(Run(items).errors, IsDuplicateTest)|
            == |Filter(items, IsTestItem)|
  {
    if items != [] {
      var xs, x := items[..|items| - 1], items[|items| - 1];
      TestsAccountedFor(xs);
      FilterSnoc(items, IsTestItem);
      var st := Run(xs);
      match x {
        case ReqItem(sid, r) =>
          if r.id in st.requirements {
            var e := DuplicateRequirement(r.id, st.requirements[r.id].snippetId, sid, r.span);
            FilterConcat(st.errors, [e], IsDuplicateTest);
          }
        case TestItem(sid, t) =>
          if t.id in st.tests {
            var e := DuplicateTest(t.id, st.tests[t.id].snippetId, sid, t.span);
            FilterConcat(st.errors, [e], IsDuplicateTest);
          } else {
            assert st.tests[t.id := TestInfoOf(sid, t)].Keys == st.tests.Keys + {t.id};
          }
      }
    }
  }

  /** Extraction reports nothing but duplicates. */
  lemma {:induction false} ErrorsAreDuplicates(items: seq<Item>)
    ensures forall e :: e in Run(items).errors ==> e.DuplicateRequirement? || e.DuplicateTest?
  {
    if items != [] {
      ErrorsAreDuplicates(items[..|items| - 1]);
    }
  }

  /** Extracted records are filed under their own id, and no requirement is covered yet. */
  ghost predicate WellFormedExtraction(r: ExtractionResult) {
    && (forall id :: id in r.requirements ==> r.requirements[id].id == id && r.requirements[id].coveredBy == [])
    && (forall id :: id in r.tests ==> r.tests[id].id == id)
  }

  lemma {:induction false} ExtractionIsWellFormed(items: seq<Item>)
    ensures WellFormedExtraction(Run(items))
  {
    if items != [] {
      ExtractionIsWellFormed(items[..|items| - 1]);
    }
  }
}
