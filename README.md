# Covenant requirement coverage, runtime queries and type representation in Dafny

This project models the following parts of the Covenant toolchain and proves properties about them:

- **Requirement validator** (`covenant-requirements`). Extraction walks the snippets of a program. It files each requirement and each test declaration under its id. The first declaration of an id wins, and a later one becomes a duplicate error.
- **Validation.** It links every requirement to the tests that claim to cover it. It reports references to missing requirements. It reports uncovered requirements at or above the configured warning priority. It computes the coverage counts, in total and per priority.
- **CI queries.** They ask whether a report has failures.
- **Text and Markdown reports.** They list covered requirements, uncovered requirements and the remaining errors. Uncovered requirements are sorted Critical first.
- **Type representation** (`covenant-checker`). This covers the display form of resolved types and the registry of struct and enum definitions.
- **Runtime query engine** (`covenant-runtime`). It covers:
  - the `from_type` kind mapping;
  - where-clause keys;
  - `field:dir` orderings;
  - the stable sort and offset/limit pagination with `has_more`;
  - the table of asynchronous queries, whose handles start at 1 and whose state moves Pending → Complete/Error/Cancelled, with cleanup.
- **Mutator** (`covenant-runtime`). It covers:
  - the ordered pre-validation checks on a snippet's source;
  - the effects an update writes;
  - compilation results.

Files, one module each:

| file | module | models |
|---|---|---|
| `wrappers.dfy` | `Wrappers` | Option / Result |
| `seqs.dfy` | `Seqs` | filter, join, substring search, ASCII lower-casing, `split` on a character |
| `ast.dfy` | `Ast` | the AST shapes extraction reads |
| `req_types.dfy` | `ReqTypes` | requirement/test records, coverage report, errors with `code`/`severity`/`span` |
| `extractor.dfy` | `Extractor` | `extract` as an imperative loop proved equal to a fold over the declarations |
| `validator.dfy` | `Validator` | `priority_ord`, configurations, `build_coverage_links`, `check_uncovered_requirements`, `compute_summary`, `validate`, `filter_uncovered` |
| `requirements.dfy` | `Requirements` | `severity_with_config`, `has_coverage_errors`, `get_failures`, `validate_program` |
| `report.dfy` | `Report` | `ReportFormat::from_str`, `format_report`, `format_text`, `format_markdown` |
| `checker_types.dfy` | `CheckerTypes` | `ResolvedType::display`, `TypeRegistry` |
| `runtime_types.dfy` | `RuntimeTypes` | runtime symbols, filters, errors, the store's read interface |
| `query.dfy` | `Query` | `QueryEngine` |
| `mutation.dfy` | `Mutation` | `MutationResult`, `CompileResult`, `Mutator` |

How the model represents the source:

- **Hash-map iteration.** Loops over a `HashMap` visit its keys in an unspecified order. The methods choose each next key with `:|` and return that order as a ghost `order`, with `Enumerates(order, keys)`. Properties that do not depend on the order are stated over sets and multisets.
- **`apply_ordering`'s field default.** It takes the field as `parts.get(0).unwrap_or("id")`. `split(':')` always yields at least one piece, so the "id" default is never used. An empty order string is an unknown field (`Query.EmptyOrderIsUnknownField`).

## Model

| member | source | states |
|---|---|---|
| ReqTypes.RequirementError.Code | crates/covenant-requirements/src/lib.rs:134-141 | the code is `E-REQ-00` followed by 1, 2, 3 or 4 for the uncovered, nonexistent, duplicate-requirement and duplicate-test variants |
| ReqTypes.CodeIdentifiesVariant | crates/covenant-requirements/src/lib.rs:134-141 | two errors share a code exactly when they are the same variant |
| ReqTypes.RequirementError.Severity | crates/covenant-requirements/src/lib.rs:144-157 | Error for everything except an uncovered requirement below Critical; Warning exactly for an uncovered High; Info exactly for an uncovered Medium or Low |
| ReqTypes.RequirementError.SpanOf | crates/covenant-requirements/src/lib.rs:160-167 | every variant yields the span it carries |
| ReqTypes.IsFailure | crates/covenant-requirements/src/lib.rs:214-221 | an error is a failure exactly when its severity is Error, that is, unless it is an uncovered requirement below Critical |
| Extractor.Extract | crates/covenant-requirements/src/extractor.rs:15-32 | the loop over snippets computes the fold over all declarations in order; a legacy program extracts nothing |
| Extractor.ExtractFromSnippet | crates/covenant-requirements/src/extractor.rs:34-91 | the loop over one snippet's sections is the fold over that snippet's declarations |
| Extractor.ExtractRequires | crates/covenant-requirements/src/extractor.rs:42-65 | the loop over a requires section is the fold over its requirement declarations |
| Extractor.ExtractTests | crates/covenant-requirements/src/extractor.rs:66-87 | the loop over a tests section is the fold over its test declarations |
| Extractor.RequirementKeys | crates/covenant-requirements/src/extractor.rs:54-63 | an id is among the extracted requirements exactly when some declaration carries it |
| Extractor.TestKeys | crates/covenant-requirements/src/extractor.rs:76-85 | an id is among the extracted tests exactly when some declaration carries it |
| Extractor.FirstRequirementWins | crates/covenant-requirements/src/extractor.rs:44-63 | the first declaration of a requirement id is the record filed, with priority defaulting to Medium and status to Draft |
| Extractor.FirstTestWins | crates/covenant-requirements/src/extractor.rs:68-85 | the first declaration of a test id is the record filed |
| Extractor.ErrorsGrow | crates/covenant-requirements/src/extractor.rs:54-60 | errors only accumulate: those of a prefix of the declarations are a prefix of all errors |
| Extractor.DuplicateRequirementReported | crates/covenant-requirements/src/extractor.rs:54-60 | a later declaration of a requirement id yields a DuplicateRequirement error naming the first and the later snippet |
| Extractor.DuplicateTestReported | crates/covenant-requirements/src/extractor.rs:76-82 | a later declaration of a test id yields a DuplicateTest error naming the first and the later snippet |
| Extractor.RequirementsAccountedFor | crates/covenant-requirements/src/extractor.rs:54-63 | records plus DuplicateRequirement errors number exactly the requirement declarations |
| Extractor.TestsAccountedFor | crates/covenant-requirements/src/extractor.rs:76-85 | records plus DuplicateTest errors number exactly the test declarations |
| Extractor.ErrorsAreDuplicates | crates/covenant-requirements/src/extractor.rs:54-82 | extraction reports only duplicate errors |
| Extractor.ExtractionIsWellFormed | crates/covenant-requirements/src/extractor.rs:44-52 | every record is filed under its own id and no requirement starts covered |
| Validator.PriorityOrd | crates/covenant-requirements/src/validator.rs:9-16 | the ordinal is below 4 |
| Validator.PriorityOrdRanks | crates/covenant-requirements/src/validator.rs:9-16 | Critical < High < Medium < Low, one ordinal per priority |
| Validator.DefaultConfig | crates/covenant-requirements/src/validator.rs:37-42 | errors from Critical, warnings from High |
| Validator.Strict | crates/covenant-requirements/src/validator.rs:45-50 | errors and warnings from Low |
| Validator.LinkTest | crates/covenant-requirements/src/validator.rs:83-98 | linking one test appends it once to each existing requirement it covers and reports each missing one, in `covers` order |
| Validator.BuildCoverageLinks | crates/covenant-requirements/src/validator.rs:77-100 | the loop over tests in some enumeration order computes the link fold and appends the dangling-reference errors |
| Validator.LinkCoversGrows | crates/covenant-requirements/src/validator.rs:83-88 | linking one test keeps the keys and grows exactly the requirements it covers, by that test |
| Validator.LinkTestsLinked | crates/covenant-requirements/src/validator.rs:82-99 | linking a set of tests grows each requirement by exactly its coverers among them, at the end of `coveredBy` and without duplicates |
| Validator.LinkedCoverage | crates/covenant-requirements/src/validator.rs:77-100 | after linking, a requirement lists a test exactly when that test covers it, each test once, and nothing else of the record changes |
| Validator.DanglingExact | crates/covenant-requirements/src/validator.rs:89-96 | one NonexistentRequirement error for each `covers` entry that is not a requirement, with the test's id, snippet and span |
| Validator.DanglingRefsExact | crates/covenant-requirements/src/validator.rs:82-99 | the dangling errors of all tests are exactly those for the (test, missing id) pairs |
| Validator.CheckUncoveredRequirements | crates/covenant-requirements/src/validator.rs:106-127 | one UncoveredRequirement error is appended for each requirement with no coverage at or above the warning threshold, in some enumeration order |
| Validator.UncoveredErrorsExact | crates/covenant-requirements/src/validator.rs:113-125 | the uncovered errors are one per reported id, carrying that requirement's id, priority, snippet and span |
| Validator.ReportedUncoveredExact | crates/covenant-requirements/src/validator.rs:113-117 | an id is reported exactly when nothing covers it and its ordinal is at most the warning threshold |
| Validator.StrictReportsAllUncovered | crates/covenant-requirements/src/validator.rs:45-50 | under the strict configuration every uncovered requirement is reported |
| Validator.PrioritySummaryOf | crates/covenant-requirements/src/validator.rs:145-155 | a priority's total counts its requirements, covered counts those of them with coverage, and total = covered + uncovered |
| Validator.ComputeSummary | crates/covenant-requirements/src/validator.rs:130-165 | total, covered and uncovered counts of the requirements, and a per-priority entry under exactly the four priority names |
| Validator.ByPriorityComplete | crates/covenant-requirements/src/validator.rs:141-156 | the filled map has exactly the keys Critical, High, Medium, Low, each with that priority's counts |
| Validator.SummaryTotalsAddUp | crates/covenant-requirements/src/validator.rs:130-165 | the four per-priority totals add up to the total, and the per-priority covered counts to the covered count |
| Validator.Validate | crates/covenant-requirements/src/validator.rs:54-74 | the report keeps the tests; its requirements are the linked ones; its errors are extraction's, then dangling references, then uncovered ones; it carries their summary |
| Validator.FilterUncovered | crates/covenant-requirements/src/validator.rs:168-183 | exactly the uncovered requirements, unchanged; no tests; the same summary; every UncoveredRequirement error as often as the report holds it, and no other error |
| Validator.UncoveredErrorsInOrder | crates/covenant-requirements/src/validator.rs:178-181 | the kept errors keep report order: those of errors `a + b` are those kept from `a` followed by those kept from `b` |
| Validator.UncoveredErrorOfOne | crates/covenant-requirements/src/validator.rs:178-181 | a single error is kept exactly when it is an UncoveredRequirement error |
| Validator.FilterUncoveredIdempotent | crates/covenant-requirements/src/validator.rs:168-183 | taking the uncovered-only view twice gives the view once |
| Requirements.SeverityWithConfig | crates/covenant-requirements/src/lib.rs:170-190 | an uncovered requirement is an Error iff its ordinal is at most the error threshold; a Warning iff it lies between the two thresholds; Info iff it lies above both; every other error is an Error |
| Requirements.DefaultConfigAgrees | crates/covenant-requirements/src/lib.rs:144-190 | under the default configuration the configured severity equals the fixed one |
| Requirements.StrictIsAllErrors | crates/covenant-requirements/src/lib.rs:170-190 | under the strict configuration every error is an Error |
| Requirements.ReportedIsNotInfo | crates/covenant-requirements/src/lib.rs:170-190 | an uncovered requirement at or above the warning threshold is never Info |
| Requirements.AnyFailure | crates/covenant-requirements/src/lib.rs:215 | true iff some error of the list has severity Error |
| Requirements.HasCoverageErrors | crates/covenant-requirements/src/lib.rs:214-216 | true iff some error of the report has severity Error |
| Requirements.GetFailures | crates/covenant-requirements/src/lib.rs:219-221 | the errors of severity Error, each as often as the report holds it, and nothing else |
| Requirements.FailuresInOrder | crates/covenant-requirements/src/lib.rs:219-221 | failures keep report order: those of errors `a + b` are the failures of `a` followed by those of `b` |
| Requirements.FailureOfOne | crates/covenant-requirements/src/lib.rs:219-221 | a single error is kept exactly when its severity is Error |
| Requirements.FailuresIffErrors | crates/covenant-requirements/src/lib.rs:214-221 | a report has coverage errors exactly when its failure list is not empty |
| Requirements.ValidateProgram | crates/covenant-requirements/src/lib.rs:207-211 | extract then validate, under the given configuration or the default one |
| Requirements.ReportDeclarations | crates/covenant-requirements/src/lib.rs:207-211 | the report files exactly the declared requirement and test ids |
| Requirements.ReportLinks | crates/covenant-requirements/src/lib.rs:207-211 | a requirement lists a test exactly when the test claims to cover it, each once |
| Requirements.ReportUncovered | crates/covenant-requirements/src/lib.rs:207-211 | an UncoveredRequirement error names a requirement exactly when it is uncovered and at or above the warning threshold; extraction errors come first; per-priority totals add up |
| Requirements.LinksOf | crates/covenant-requirements/src/validator.rs:54-74 | the linking facts of a validation outcome from a well-formed extraction |
| Requirements.UncoveredNamedExactly | crates/covenant-requirements/src/validator.rs:54-74 | the uncovered errors of a validation outcome are exactly those of the reported requirements |
| Report.FromStr | crates/covenant-requirements/src/report.rs:18-25 | case-insensitive: text/txt, json, markdown/md name their format, anything else is the "Unknown format" error quoting the input |
| Report.FromStrIgnoresCase | crates/covenant-requirements/src/report.rs:19 | strings equal up to case parse alike |
| Report.FromStrRoundTrip | crates/covenant-requirements/src/report.rs:19-22 | every accepted name parses to its format and to no other |
| Report.DefaultIsText | crates/covenant-requirements/src/report.rs:7-10 | the default format is Text |
| Report.DefaultFormat | crates/covenant-requirements/src/report.rs:8-13 | the default format is the one named "text" |
| Report.PriorityMarker | crates/covenant-requirements/src/report.rs:95-100 | a bracketed marker per priority; `MarkersIdentify` shows that no two priorities share one |
| Report.SeverityMarker | crates/covenant-requirements/src/report.rs:120-124 | a marker of at least four characters per severity; `MarkersIdentify` shows that no two severities share one |
| Report.PriorityBadge | crates/covenant-requirements/src/report.rs:204-209 | the badge starts with `*` (bold) exactly for Critical; `MarkersIdentify` shows that no two priorities share one |
| Report.SeverityEmoji | crates/covenant-requirements/src/report.rs:229-233 | a single-character mark per severity; `MarkersIdentify` shows that no two severities share one |
| Report.MarkersIdentify | crates/covenant-requirements/src/report.rs:95-100 | the priority markers and badges and the severity markers and emoji each tell their values apart |
| Report.ValuesOf | crates/covenant-requirements/src/report.rs:62-64 | the requirement records in some enumeration order of the map's keys |
| Report.TextPriorityBreakdown | crates/covenant-requirements/src/report.rs:48-58 | the loop over the four names emits a line for each that is in the map with total > 0 |
| Report.TextCoveredSection | crates/covenant-requirements/src/report.rs:68-75 | one covered entry per covered requirement, in order |
| Report.TextUncoveredSection | crates/covenant-requirements/src/report.rs:94-108 | one uncovered entry per uncovered requirement, in order |
| Report.TextErrorSection | crates/covenant-requirements/src/report.rs:119-126 | one error entry per non-coverage error, in order |
| Report.FormatText | crates/covenant-requirements/src/report.rs:37-130 | the text report of the requirements in some enumeration order |
| Report.MdPriorityTable | crates/covenant-requirements/src/report.rs:154-166 | a table row for each of the four names present in the map |
| Report.MdCoveredSection | crates/covenant-requirements/src/report.rs:176-185 | one covered item per covered requirement, in order |
| Report.MdUncoveredSection | crates/covenant-requirements/src/report.rs:203-217 | one uncovered item per uncovered requirement, in order |
| Report.MdErrorSection | crates/covenant-requirements/src/report.rs:228-235 | one error item per non-coverage error, in order |
| Report.FormatMarkdown | crates/covenant-requirements/src/report.rs:136-239 | the Markdown report of the requirements in some enumeration order |
| Report.FormatReport | crates/covenant-requirements/src/report.rs:29-35 | each format selects its formatter; JSON carries the report itself |
| Report.SortByPriorityPermutes | crates/covenant-requirements/src/report.rs:85-90 | sorting by priority (`SortByPriority`: the Critical, High, Medium and Low records in turn) is a permutation |
| Report.SortByPriorityOrdered | crates/covenant-requirements/src/report.rs:85-90 | after `SortByPriority`, ordinals never decrease |
| Report.SortByPriorityStable | crates/covenant-requirements/src/report.rs:85-90 | `SortByPriority` keeps records of one priority in their relative order |
| Report.UncoveredReqsMembers | crates/covenant-requirements/src/report.rs:80-82 | the uncovered list holds exactly the records with no coverage |
| Report.ValuesOfMap | crates/covenant-requirements/src/report.rs:62-64 | the enumerated values are exactly the map's records |
| Report.CoveredListMatchesSummary | crates/covenant-requirements/src/report.rs:62-64 | the covered list has as many entries as the summary's covered count |
| Report.UncoveredListMatchesSummary | crates/covenant-requirements/src/report.rs:80-82 | the uncovered list has as many entries as the summary's uncovered count |
| Report.TextPriorityLinesOfSummary | crates/covenant-requirements/src/report.rs:49-58 | for a computed summary, a priority line appears exactly for each priority with requirements, with its counts |
| Report.TextSections | crates/covenant-requirements/src/report.rs:66-127 | each section heading appears exactly when its list is not empty |
| Report.TextCoveredEntries | crates/covenant-requirements/src/report.rs:61-77 | a covered entry appears exactly for each covered requirement, with its description and tests |
| Report.TextUncoveredEntries | crates/covenant-requirements/src/report.rs:79-110 | an uncovered entry appears exactly for each uncovered requirement, with its priority marker, description and snippet |
| Report.TextErrorEntries | crates/covenant-requirements/src/report.rs:112-127 | an error entry appears exactly for each non-coverage error, with its severity marker and code |
| Report.MdPriorityRowsOfSummary | crates/covenant-requirements/src/report.rs:154-166 | for a computed summary, every priority has a row with its counts |
| Report.MdSections | crates/covenant-requirements/src/report.rs:174-236 | each section heading appears exactly when its list is not empty |
| Report.MdCoveredItems | crates/covenant-requirements/src/report.rs:169-187 | a covered item appears exactly for each covered requirement, with its priority, description, tests and snippet |
| Report.MdUncoveredItems | crates/covenant-requirements/src/report.rs:189-219 | an uncovered item appears exactly for each uncovered requirement, with its badge, description and snippet |
| Report.MdErrorItems | crates/covenant-requirements/src/report.rs:221-236 | an error item appears exactly for each non-coverage error, with its emoji and code |
| CheckerTypes.IsError | crates/covenant-checker/src/types.rs:58-60 | an error type displays as `<error>` |
| CheckerTypes.IsOptional | crates/covenant-checker/src/types.rs:62-64 | an optional type's display ends in `?` |
| CheckerTypes.Display | crates/covenant-checker/src/types.rs:66-119 | the display is empty only for a union or an argument-less named type with an empty name; the error type displays as `<error>`, an unknown one as `?` |
| CheckerTypes.DisplayEach | crates/covenant-checker/src/types.rs:83 | the display of each component type, position by position |
| CheckerTypes.DisplayFields | crates/covenant-checker/src/types.rs:109-111 | `name: type` for each field, position by position |
| CheckerTypes.ErrorIsDisplayed | crates/covenant-checker/src/types.rs:66-119 | a type with an error type anywhere inside displays with `<error>` in it |
| CheckerTypes.PredicatesMatchDisplay | crates/covenant-checker/src/types.rs:58-64 | an error type displays as `<error>`, an optional type ends in `?`, and no type is both |
| CheckerTypes.PrimitiveNamesDistinct | crates/covenant-checker/src/types.rs:68-75 | distinct primitive types display differently |
| CheckerTypes.DisplayOfSimpleCompounds | crates/covenant-checker/src/types.rs:76-92 | a one-member union displays as its member; a named type without arguments as its name |
| CheckerTypes.FindField | crates/covenant-checker/src/types.rs:192-195 | the type of the first field with that name, or none when no field has it |
| CheckerTypes.VariantNames | crates/covenant-checker/src/types.rs:186 | the variants' names, position by position |
| CheckerTypes.TypeRegistry.RegisterStruct | crates/covenant-checker/src/types.rs:163-165 | the struct is filed under its name, replacing any earlier one; nothing else changes |
| CheckerTypes.TypeRegistry.RegisterEnum | crates/covenant-checker/src/types.rs:168-170 | the enum is filed under its name, replacing any earlier one; nothing else changes |
| CheckerTypes.TypeRegistry.GetStruct | crates/covenant-checker/src/types.rs:173-175 | the definition filed under the name, if any |
| CheckerTypes.TypeRegistry.GetEnum | crates/covenant-checker/src/types.rs:178-180 | the definition filed under the name, if any |
| CheckerTypes.TypeRegistry.GetEnumVariants | crates/covenant-checker/src/types.rs:183-187 | the variant names of the enum, in order; none for an unknown enum |
| CheckerTypes.TypeRegistry.GetStructField | crates/covenant-checker/src/types.rs:190-197 | the type of the first matching field of a known struct; none when the struct or the field is missing |
| CheckerTypes.RegisterThenLookUp | crates/covenant-checker/src/types.rs:163-197 | after registering a struct, looking up a field finds the first field of that name among the registered ones |
| Query.KindFilter | crates/covenant-runtime/src/query.rs:88-97 | the six plural names select kinds fn/struct/enum/module/database/extern; "all" and "*" select every kind; anything else is InvalidQuery quoting the name |
| Query.KindFilterInjective | crates/covenant-runtime/src/query.rs:88-94 | different names never select the same kind |
| Query.ApplyWhere | crates/covenant-runtime/src/query.rs:225-249 | each string key sets its part of the filter; an effects `contains` entry decides `has_effect`; a non-object clause changes nothing |
| Query.ContainsWins | crates/covenant-runtime/src/query.rs:227-248 | with both `has_effect` and an effects `contains` entry, the `contains` value wins |
| Query.FilterKindOfRequest | crates/covenant-runtime/src/query.rs:99-106 | without a kind key in the where clause, the filter's kind is the `from_type`'s |
| Query.ParseOrder | crates/covenant-runtime/src/query.rs:255-299 | split on ':'; direction defaults to asc; a direction other than asc/desc fails first, then a field other than id/kind/file/line, each with its message |
| Query.OrderRoundTrip | crates/covenant-runtime/src/query.rs:255-298 | every ordering parses back from its `field:dir` string |
| Query.FieldAloneIsAscending | crates/covenant-runtime/src/query.rs:258 | a field name without direction orders ascending |
| Query.EmptyOrderIsUnknownField | crates/covenant-runtime/src/query.rs:256-257 | the empty string is an unknown field, not the "id" default |
| Query.StrLe | crates/covenant-runtime/src/query.rs:266-284 | `String::cmp`: `a` is at most `b` exactly when it is a prefix of `b` or has the smaller character where they first differ |
| Query.Sort | crates/covenant-runtime/src/query.rs:266-296 | the sorted sequence is a permutation and each neighbour may precede the next under the ordering |
| Query.SortedPairwise | crates/covenant-runtime/src/query.rs:266-296 | in a sorted sequence every earlier symbol precedes every later one; descending orderings list keys from the largest down |
| Query.SortStable | crates/covenant-runtime/src/query.rs:266-296 | symbols with equal keys keep their relative order |
| Query.Paginate | crates/covenant-runtime/src/query.rs:124-136 | the slice from min(offset, n) to min(start + limit, n), or to n without a limit; no longer than the limit or n; `has_more` iff offset + page size < n |
| Query.HasMoreIffNextPage | crates/covenant-runtime/src/query.rs:136 | more results follow exactly when the page after this one is not empty |
| Query.PagesAdjoin | crates/covenant-runtime/src/query.rs:128-134 | two adjoining pages of a limit make the page of twice that limit |
| Query.FirstTwoOfThree | crates/covenant-runtime/src/query.rs:392-410 | a limit of 2 over 3 results gives the first two and has_more |
| Query.Execute | crates/covenant-runtime/src/query.rs:86-143 | kind and ordering errors as parsed; otherwise the store's version, and the page `Paginate` cuts from the store's list sorted by `Sort`, which is therefore sorted by the ordering (id ascending by default), drawn from the list, all of it without pagination, within the limit, with `has_more` as paginated |
| Query.ExecuteSelectsKind | crates/covenant-runtime/src/query.rs:334-350 | from a store honouring kind filters, a query for one kind returns only that kind |
| Query.DefaultOrderIsIdAscending | crates/covenant-runtime/src/query.rs:118-121 | without `order_by`, ids never decrease |
| Query.RetainPending | crates/covenant-runtime/src/query.rs:215 | exactly the Pending entries, unchanged |
| Query.QueryEngine.constructor | crates/covenant-runtime/src/query.rs:78-83 | handles start at 1 and the table is empty |
| Query.QueryEngine.StartQuery | crates/covenant-runtime/src/query.rs:146-156 | the handle is the counter, which then grows by one; the handle is new; the query is Pending with no result |
| Query.QueryEngine.PollQuery | crates/covenant-runtime/src/query.rs:159-164 | the query's status; Error for an unknown handle |
| Query.QueryEngine.ProcessQuery | crates/covenant-runtime/src/query.rs:170-192 | only a Pending query changes: Complete with an Ok result or Error with an Err result of executing its request |
| Query.QueryEngine.GetResult | crates/covenant-runtime/src/query.rs:195-201 | the stored result, none for an unknown or unfinished query |
| Query.QueryEngine.CancelQuery | crates/covenant-runtime/src/query.rs:204-211 | only a Pending query changes, to Cancelled with the QueryCancelled error |
| Query.QueryEngine.CleanupCompleted | crates/covenant-runtime/src/query.rs:214-216 | the table keeps exactly its Pending entries |
| Query.ResultOnceFinished | crates/covenant-runtime/src/query.rs:159-201 | a query has a result exactly when it is known and no longer Pending |
| Query.StartThenProcess | crates/covenant-runtime/src/query.rs:413-438 | a new query, once processed, is Complete or Error as its execution succeeds, with that result |
| Mutation.MutationResult.Ok | crates/covenant-runtime/src/mutation.rs:21-28 | success with no errors or warnings at the version |
| Mutation.MutationResult.Err | crates/covenant-runtime/src/mutation.rs:31-38 | failure with the errors, no warnings, version 0 |
| Mutation.MutationResult.WithWarning | crates/covenant-runtime/src/mutation.rs:41-44 | exactly one warning appended, everything else unchanged |
| Mutation.WarningsInOrder | crates/covenant-runtime/src/mutation.rs:41-44 | warnings accumulate in the order added |
| Mutation.CompileResult.Ok | crates/covenant-runtime/src/mutation.rs:58-64 | success with the module bytes and no errors |
| Mutation.CompileResult.Err | crates/covenant-runtime/src/mutation.rs:67-73 | failure with the errors and no module |
| Mutation.ParseSnippet | crates/covenant-runtime/src/mutation.rs:91-120 | a blank source is "Empty source"; otherwise the first failed check of snippet/id=/kind=/end is the one error; success at version 0 exactly when all pass |
| Mutation.ParseFailureIsSingle | crates/covenant-runtime/src/mutation.rs:98-117 | a failed parse has exactly one error, no warnings, version 0 |
| Mutation.EmptySourceIsRefused | crates/covenant-runtime/src/mutation.rs:212-218 | the empty source fails as "Empty source" |
| Mutation.WellFormedSnippetPasses | crates/covenant-runtime/src/mutation.rs:221-229 | a snippet with id, kind and end passes |
| Mutation.MissingIdIsReported | crates/covenant-runtime/src/mutation.rs:232-241 | a snippet without `id=` fails naming the id attribute |
| Mutation.DeclaredEffects | crates/covenant-runtime/src/mutation.rs:142-149 | "database" iff the source mentions `effect database`, "network" iff it mentions `effect network`, nothing else, no repeats |
| Mutation.BuildSymbol | crates/covenant-runtime/src/mutation.rs:138-149 | the pushes build `SnippetSymbol`: a "fn" symbol in `<runtime>` under the id, with the declared effects in both effects and effect closure (`WrittenSymbolEffects`) |
| Mutation.UpdateSnippet | crates/covenant-runtime/src/mutation.rs:125-155 | a failed parse is returned unchanged and nothing is written; otherwise the snippet's symbol is written and the result is success at the upsert's version |
| Mutation.WrittenSymbolEffects | crates/covenant-runtime/src/mutation.rs:138-149 | the written symbol is a "fn" symbol in `<runtime>` under the id, at line 0 with no calls; its effect closure equals its effects and holds each declared effect |
| Mutation.CompileSnippet | crates/covenant-runtime/src/mutation.rs:170-182 | always a failure without a module, with one error that names the snippet id |
| Mutation.RecompileSnippet | crates/covenant-runtime/src/mutation.rs:185-199 | a failed update's errors come back as a failed compilation and nothing is written; otherwise the compilation of the id; never a success |

## Left out

- `coverage_percent` and the `{:.1}%` columns are left out. They are floating point, and the report pieces for them (`CoverageLine`, `CoverageRow`, the percentage of a priority row) carry no value.
- The report text is modelled as a sequence of structured pieces (one per emitted line), not characters. The formatting inside each line (`format!`, `join(", ")`) and the error's `Display` text are not modelled.
- `format_json` is represented by the report value itself, because `serde_json` is a foreign library.
- The JSON parsing of where clauses is not modelled (`serde_json`). The clause is taken as an already-parsed value, so the "Invalid where clause JSON" error does not arise.
- `select_clause` is carried but never read, as in the source.
- `SymbolStore` is not part of this model:
  - `list` is an arbitrary function from filters to symbols, and `version` a number;
  - an update returns the symbol it writes, and takes the version that `upsert` returns as a parameter;
  - `recompute_backward_refs` is not modelled.
- `RuntimeSymbol::new` is not part of this model; its fields other than id and kind are assumed empty. Only the symbol fields the query engine and mutator use are modelled.
- The `RuntimeError` type is not part of this model beyond the two variants used here. `get_result`'s `to_string()` of the error is not modelled: the result keeps the error value.
- `Mutator::delete_snippet` is left out, because it consists only of calls into the store.
- `Query.QueryEngine.StartQuery`: the `AtomicU64` counter is a plain unbounded counter. There is no concurrency and no wrap-around at 2^64.
- `Query.Paginate`: `u32` limit and offset are modelled as unbounded naturals. The `usize` arithmetic does not overflow for `u32` inputs on 64-bit targets.
- `Query.Sort`: the library's stable `sort_by` is modelled as a function on sequences (insertion sort), not as an in-place sort of a vector.
- The priority sort of uncovered requirements is likewise modelled on sequences.
- String order is Rust's byte order of UTF-8, which agrees with the order of character codes used here.
- `to_lowercase` (in `Report.FromStr`) is modelled on ASCII letters only.
- `trim` (in `Mutation.ParseSnippet`) is modelled on ASCII white space only.
- `CheckerTypes.DisplayOfSimpleCompounds` covers unions and named types only. It does not state the tuple case.
- `has_coverage_errors` and `get_failures` use the fixed `severity()`, not `severity_with_config`, as the source does.
- The lexer, parser, optimizer, code generator and data-graph tests are not part of this model.
- `SymbolId` is modelled as a natural number.
