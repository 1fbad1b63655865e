/** Coverage reports: the output-format name parser, and the text and Markdown reports.

    A report is modelled as the sequence of pieces that `format_text` and `format_markdown`
    append to their output, one piece per append, each carrying the values it prints. The
    characters of each piece (and the floating-point percentages) are not modelled.

    The requirement map is read in its iteration order, which the source does not specify:
    `ValuesOf` chooses it, and every property below holds for every order. */
module Report {
  import opened Wrappers
  import opened Seqs
  import opened Ast
  import opened ReqTypes
  import opened Validator

  // ---------------------------------------------------------------------------
  // Output formats
  // ---------------------------------------------------------------------------

  datatype ReportFormat = Text | Json | Markdown

  /** Text is the default format. */
  function DefaultFormat(): (f: ReportFormat)
    ensures "text" in FormatNames(f)
  {
    Text
  }

  /** The lower-case names that select each format. */
  function FormatNames(f: ReportFormat): set<string> {
    match f
    case Text => {"text", "txt"}
    case Json => {"json"}
    case Markdown => {"markdown", "md"}
  }

  /** Parse a format name, ignoring case; any other name is an error naming what was given. */
  function FromStr(s: string): (r: Result<ReportFormat, string>)
    ensures r.Ok? ==> Lower(s) in FormatNames(r.value)
    ensures forall f :: Lower(s) in FormatNames(f) ==> r == Ok(f)
    ensures r.Err? ==> r.error == "Unknown format: " + s + ". Expected: text, json, or markdown"
  {
    var l := Lower(s);
    if l == "text" || l == "txt" then Ok(Text)
    else if l == "json" then Ok(Json)
    else if l == "markdown" || l == "md" then Ok(Markdown)
    else Err("Unknown format: " + s + ". Expected: text, json, or markdown")
  }

  /** Parsing ignores case: names that lower-case alike select the same format. */
  lemma FromStrIgnoresCase(s: string, t: string)
    requires Lower(s) == Lower(t)
    ensures FromStr(s).Ok? <==> FromStr(t).Ok?
    ensures FromStr(s).Ok? ==> FromStr(s) == FromStr(t)
  {
  }

  /** Every name of a format, in any case, parses back to that format, and the names of
      distinct formats are distinct. */
  lemma FromStrRoundTrip(f: ReportFormat, name: string)
    requires Lower(name) in FormatNames(f)
    ensures FromStr(name) == Ok(f)
    ensures forall g :: g != f ==> Lower(name) !in FormatNames(g)
  {
  }

  /** The default format is the one named "text". */
  lemma DefaultIsText()
    ensures FromStr("TEXT") == Ok(DefaultFormat())
  {
    assert Lower("TEXT") == "text";
  }

  // ---------------------------------------------------------------------------
  // The lists a report shows
  // ---------------------------------------------------------------------------

  /** The records of `reqs`, read in the key order `order`. */
  function ValuesIn(reqs: map<string, RequirementInfo>, order: seq<string>): seq<RequirementInfo> {
    if order == [] then []
    else
      var k := order[|order| - 1];
      ValuesIn(reqs, order[..|order| - 1]) + (if k in reqs then [reqs[k]] else [])
  }

  predicate IsCoveredReq(r: RequirementInfo) { r.coveredBy != [] }
  predicate IsUncoveredReq(r: RequirementInfo) { r.coveredBy == [] }
  predicate IsOtherError(e: RequirementError) { !e.UncoveredRequirement? }

  /** The test of the sort key: a record has this priority. */
  function PriorityIs(p: Priority): RequirementInfo -> bool {
    (r: RequirementInfo) => r.priority == p
  }

  /** The stable sort of `rs` by priority ordinal (Rust `sort_by_key`, which is stable):
      all Critical records in their original order, then High, then Medium, then Low. */
  function SortByPriority(rs: seq<RequirementInfo>): seq<RequirementInfo> {
    Filter(rs, PriorityIs(Critical)) + Filter(rs, PriorityIs(High))
      + Filter(rs, PriorityIs(Medium)) + Filter(rs, PriorityIs(Low))
  }

  /** The records listed as covered, in iteration order. */
  function CoveredReqs(values: seq<RequirementInfo>): seq<RequirementInfo> {
    Filter(values, IsCoveredReq)
  }

  /** The records listed as uncovered, most urgent first. */
  function UncoveredReqs(values: seq<RequirementInfo>): seq<RequirementInfo> {
    SortByPriority(Filter(values, IsUncoveredReq))
  }

  /** The errors listed under Validation Errors: all but the UncoveredRequirement ones. */
  function OtherErrors(errors: seq<RequirementError>): seq<RequirementError> {
    Filter(errors, IsOtherError)
  }

  function Description(r: RequirementInfo): string {
    r.text.GetOr("(no description)")
  }

  // ---------------------------------------------------------------------------
  // Markers
  // ---------------------------------------------------------------------------

  /** The text report's marker: the priority's name in capitals, in brackets. */
  function PriorityMarker(p: Priority): (m: string)
    ensures |m| >= 2 && m[0] == '[' && m[|m| - 1] == ']'
  {
    match p
    case Critical => "[CRITICAL]"
    case High => "[HIGH]"
    case Medium => "[MEDIUM]"
    case Low => "[LOW]"
  }

  /** The text report's severity marker: a word of at least four capitals. */
  function SeverityMarker(s: Severity): (m: string)
    ensures |m| >= 4
  {
    match s
    case Error => "ERROR"
    case Warning => "WARN"
    case Info => "INFO"
  }

  /** The Markdown badge: the priority's name, in bold exactly for Critical. */
  function PriorityBadge(p: Priority): (m: string)
    ensures |m| >= 3 && (p == Critical <==> m[0] == '*')
  {
    match p
    case Critical => "**CRITICAL**"
    case High => "HIGH"
    case Medium => "Medium"
    case Low => "Low"
  }

  /** The Markdown severity mark: a single character. */
  function SeverityEmoji(s: Severity): (m: string)
    ensures |m| == 1
  {
    match s
    case Error => "x"
    case Warning => "!"
    case Info => "i"
  }

  /** Each marker names one priority or one severity: a reader can tell them apart. */
  lemma MarkersIdentify(p: Priority, q: Priority, s: Severity, t: Severity)
    ensures PriorityMarker(p) == PriorityMarker(q) ==> p == q
    ensures PriorityBadge(p) == PriorityBadge(q) ==> p == q
    ensures SeverityMarker(s) == SeverityMarker(t) ==> s == t
    ensures SeverityEmoji(s) == SeverityEmoji(t) ==> s == t
  {
    if p != q {
      assert PriorityMarker(p)[1] != PriorityMarker(q)[1];
      assert PriorityBadge(p)[..2] != PriorityBadge(q)[..2] || PriorityBadge(p)[0] != PriorityBadge(q)[0];
    }
    if s != t {
      assert SeverityMarker(s)[0] != SeverityMarker(t)[0];
      assert SeverityEmoji(s)[0] != SeverityEmoji(t)[0];
    }
  }

  // ---------------------------------------------------------------------------
  // The text report
  // ---------------------------------------------------------------------------

  /** One append of `format_text`. */
  datatype TextPiece =
    | TextTitle                                    // the title line and a blank line
    | TotalLine(total: nat)
    | CoveredCountLine(covered: nat)
    | UncoveredCountLine(uncovered: nat)
    | CoverageLine                                 // the percentage, and a blank line
    | ByPriorityHeading
    | PriorityLine(name: string, covered: nat, total: nat)
    | TextNewline
    | CoveredHeading
    | CoveredEntry(id: string, text: string, coveredBy: seq<string>)
    | UncoveredHeading
    | UncoveredEntry(marker: string, id: string, text: string, snippetId: string)
    | ErrorsHeading
    | ErrorEntry(marker: string, code: string, error: RequirementError)

  /** A line for each of `names` whose summary exists and counts at least one requirement. */
  function TextPriorityLines(byPriority: map<string, PrioritySummary>, names: seq<string>): seq<TextPiece> {
    if names == [] then []
    else
      var name := names[|names| - 1];
      TextPriorityLines(byPriority, names[..|names| - 1])
        + (if name in byPriority && byPriority[name].total > 0
           then [PriorityLine(name, byPriority[name].covered, byPriority[name].total)] else [])
  }

  /** The entry of a covered requirement: id, description and the tests that cover it. */
  function CoveredEntryOf(r: RequirementInfo): TextPiece {
    CoveredEntry(r.id, Description(r), r.coveredBy)
  }

  /** The entry of an uncovered requirement: priority marker, id, description and snippet. */
  function UncoveredEntryOf(r: RequirementInfo): TextPiece {
    UncoveredEntry(PriorityMarker(r.priority), r.id, Description(r), r.snippetId)
  }

  /** The entry of a validation error: severity marker, code and the error. */
  function ErrorEntryOf(e: RequirementError): TextPiece {
    ErrorEntry(SeverityMarker(e.Severity()), e.Code(), e)
  }

  /** The opening lines: title, the three counts, the coverage line and the priority heading. */
  function TextHeader(s: CoverageSummary): seq<TextPiece> {
    [TextTitle, TotalLine(s.totalRequirements), CoveredCountLine(s.coveredRequirements),
     UncoveredCountLine(s.uncoveredRequirements), CoverageLine, ByPriorityHeading]
  }

  /** The covered section, absent when nothing is covered. */
  function TextCoveredBlock(covered: seq<RequirementInfo>): seq<TextPiece> {
    if covered == [] then [] else [CoveredHeading] + MapSeq(covered, CoveredEntryOf) + [TextNewline]
  }

  /** The uncovered section, absent when everything is covered. */
  function TextUncoveredBlock(uncovered: seq<RequirementInfo>): seq<TextPiece> {
    if uncovered == [] then [] else [UncoveredHeading] + MapSeq(uncovered, UncoveredEntryOf) + [TextNewline]
  }

  /** The validation-error section, absent when there are no other errors. */
  function TextErrorBlock(others: seq<RequirementError>): seq<TextPiece> {
    if others == [] then [] else [ErrorsHeading] + MapSeq(others, ErrorEntryOf)
  }

  /** The text report assembled from its lists. */
  function TextAssemble(s: CoverageSummary, lines: seq<TextPiece>, covered: seq<RequirementInfo>,
                        uncovered: seq<RequirementInfo>, others: seq<RequirementError>): seq<TextPiece> {
    TextHeader(s) + lines + [TextNewline]
    + TextCoveredBlock(covered) + TextUncoveredBlock(uncovered) + TextErrorBlock(others)
  }

  /** The whole text report, reading the requirement records in the order `values`. */
  function TextReport(report: CoverageReport, values: seq<RequirementInfo>): seq<TextPiece> {
    TextAssemble(report.summary, TextPriorityLines(report.summary.byPriority, PriorityNames),
                 CoveredReqs(values), UncoveredReqs(values), OtherErrors(report.errors))
  }

  // ---------------------------------------------------------------------------
  // The Markdown report
  // ---------------------------------------------------------------------------

  /** One append of `format_markdown`. */
  datatype MarkdownPiece =
    | MdTitle                                      // the title and a blank line
    | SummaryHeading
    | SummaryTableHeader
    | SummaryTableRule
    | TotalRow(total: nat)
    | CoveredRow(covered: nat)
    | UncoveredRow(uncovered: nat)
    | CoverageRow                                  // the percentage, and a blank line
    | MdByPriorityHeading
    | PriorityTableHeader
    | PriorityTableRule
    | PriorityRow(name: string, covered: nat, total: nat)
    | MdNewline
    | MdCoveredHeading
    | CoveredItem(id: string, priority: Priority, text: string, coveredBy: seq<string>, snippetId: string)
    | MdUncoveredHeading
    | UncoveredItem(id: string, badge: string, text: string, snippetId: string)
    | MdErrorsHeading
    | ErrorItem(emoji: string, code: string, error: RequirementError)

  /** A table row for each of `names` whose summary exists, whatever its counts. */
  function MdPriorityRows(byPriority: map<string, PrioritySummary>, names: seq<string>): seq<MarkdownPiece> {
    if names == [] then []
    else
      var name := names[|names| - 1];
      MdPriorityRows(byPriority, names[..|names| - 1])
        + (if name in byPriority then [PriorityRow(name, byPriority[name].covered, byPriority[name].total)] else [])
  }

  function CoveredItemOf(r: RequirementInfo): MarkdownPiece {
    CoveredItem(r.id, r.priority, Description(r), r.coveredBy, r.snippetId)
  }

  function UncoveredItemOf(r: RequirementInfo): MarkdownPiece {
    UncoveredItem(r.id, PriorityBadge(r.priority), Description(r), r.snippetId)
  }

  function ErrorItemOf(e: RequirementError): MarkdownPiece {
    ErrorItem(SeverityEmoji(e.Severity()), e.Code(), e)
  }

  /** The opening lines: title, the summary table and the priority table's heading. */
  function MdHeader(s: CoverageSummary): seq<MarkdownPiece> {
    [MdTitle, SummaryHeading, SummaryTableHeader, SummaryTableRule, TotalRow(s.totalRequirements),
     CoveredRow(s.coveredRequirements), UncoveredRow(s.uncoveredRequirements), CoverageRow,
     MdByPriorityHeading, PriorityTableHeader, PriorityTableRule]
  }

  function MdCoveredBlock(covered: seq<RequirementInfo>): seq<MarkdownPiece> {
    if covered == [] then [] else [MdCoveredHeading] + MapSeq(covered, CoveredItemOf) + [MdNewline]
  }

  function MdUncoveredBlock(uncovered: seq<RequirementInfo>): seq<MarkdownPiece> {
    if uncovered == [] then [] else [MdUncoveredHeading] + MapSeq(uncovered, UncoveredItemOf) + [MdNewline]
  }

  function MdErrorBlock(others: seq<RequirementError>): seq<MarkdownPiece> {
    if others == [] then [] else [MdErrorsHeading] + MapSeq(others, ErrorItemOf)
  }

  /** The Markdown report assembled from its lists. */
  function MdAssemble(s: CoverageSummary, rows: seq<MarkdownPiece>, covered: seq<RequirementInfo>,
                      uncovered: seq<RequirementInfo>, others: seq<RequirementError>): seq<MarkdownPiece> {
    MdHeader(s) + rows + [MdNewline]
    + MdCoveredBlock(covered) + MdUncoveredBlock(uncovered) + MdErrorBlock(others)
  }

  /** The whole Markdown report, reading the requirement records in the order `values`. */
  function MarkdownReport(report: CoverageReport, values: seq<RequirementInfo>): seq<MarkdownPiece> {
    MdAssemble(report.summary, MdPriorityRows(report.summary.byPriority, PriorityNames),
               CoveredReqs(values), UncoveredReqs(values), OtherErrors(report.errors))
  }

  // ---------------------------------------------------------------------------
  // The imperative formatters
  // ---------------------------------------------------------------------------

  /** Read the records of a map in an iteration order of its keys (Rust `values()`). */
  method ValuesOf(reqs: map<string, RequirementInfo>) returns (values: seq<RequirementInfo>, ghost order: seq<string>)
    ensures Enumerates(order, reqs.Keys)
    ensures values == ValuesIn(reqs, order)
  {
    values, order := [], [];
    var remaining := reqs.Keys;
    while remaining != {}
      invariant remaining <= reqs.Keys
      invariant NoDup(order)
      invariant forall k :: k in order ==> k in reqs && k !in remaining
      invariant forall k :: k in reqs ==> k in order || k in remaining
      invariant values == ValuesIn(reqs, order)
      decreases remaining
    {
      var k :| k in remaining;
      NoDupSnoc(order, k);
      assert (order + [k])[..|order|] == order;
      values := values + [reqs[k]];
      order := order + [k];
      remaining := remaining - {k};
    }
  }

  method TextPriorityBreakdown(byPriority: map<string, PrioritySummary>) returns (pieces: seq<TextPiece>)
    ensures pieces == TextPriorityLines(byPriority, PriorityNames)
  {
    pieces := [];
    var names := PriorityNames;
    for i := 0 to |names|
      invariant pieces == TextPriorityLines(byPriority, names[..i])
    {
      assert names[..i + 1][..i] == names[..i];
      var name := names[i];
      if name in byPriority {
        var stats := byPriority[name];
        if stats.total > 0 {
          pieces := pieces + [PriorityLine(name, stats.covered, stats.total)];
        }
      }
    }
    assert names[..|names|] == names;
  }

  method TextCoveredSection(covered: seq<RequirementInfo>) returns (pieces: seq<TextPiece>)
    ensures pieces == MapSeq(covered, CoveredEntryOf)
  {
    pieces := [];
    for i := 0 to |covered|
      invariant pieces == MapSeq(covered[..i], CoveredEntryOf)
    {
      assert covered[..i + 1][..i] == covered[..i];
      var req := covered[i];
      pieces := pieces + [CoveredEntry(req.id, req.text.GetOr("(no description)"), req.coveredBy)];
    }
    assert covered[..|covered|] == covered;
  }

  method TextUncoveredSection(uncovered: seq<RequirementInfo>) returns (pieces: seq<TextPiece>)
    ensures pieces == MapSeq(uncovered, UncoveredEntryOf)
  {
    pieces := [];
    for i := 0 to |uncovered|
      invariant pieces == MapSeq(uncovered[..i], UncoveredEntryOf)
    {
      assert uncovered[..i + 1][..i] == uncovered[..i];
      var req := uncovered[i];
      var marker := PriorityMarker(req.priority);
      pieces := pieces + [UncoveredEntry(marker, req.id, req.text.GetOr("(no description)"), req.snippetId)];
    }
    assert uncovered[..|uncovered|] == uncovered;
  }

  method TextErrorSection(errors: seq<RequirementError>) returns (pieces: seq<TextPiece>)
    ensures pieces == MapSeq(errors, ErrorEntryOf)
  {
    pieces := [];
    for i := 0 to |errors|
      invariant pieces == MapSeq(errors[..i], ErrorEntryOf)
    {
      assert errors[..i + 1][..i] == errors[..i];
      var error := errors[i];
      var marker := SeverityMarker(error.Severity());
      pieces := pieces + [ErrorEntry(marker, error.Code(), error)];
    }
    assert errors[..|errors|] == errors;
  }

  /** Build the text report. */
  method FormatText(report: CoverageReport) returns (output: seq<TextPiece>, ghost order: seq<string>)
    ensures Enumerates(order, report.requirements.Keys)
    ensures output == TextReport(report, ValuesIn(report.requirements, order))
  {
    var s := report.summary;
    var breakdown := TextPriorityBreakdown(s.byPriority);
    var values;
    values, order := ValuesOf(report.requirements);

    var coveredBlock: seq<TextPiece> := [];
    var covered := Filter(values, IsCoveredReq);
    if covered != [] {
      var entries := TextCoveredSection(covered);
      coveredBlock := [CoveredHeading] + entries + [TextNewline];
    }
    var uncoveredBlock: seq<TextPiece> := [];
    var uncovered := SortByPriority(Filter(values, IsUncoveredReq));
    if uncovered != [] {
      var entries := TextUncoveredSection(uncovered);
      uncoveredBlock := [UncoveredHeading] + entries + [TextNewline];
    }
    var errorBlock: seq<TextPiece> := [];
    var others := Filter(report.errors, IsOtherError);
    if others != [] {
      var entries := TextErrorSection(others);
      errorBlock := [ErrorsHeading] + entries;
    }
    output := TextHeader(s) + breakdown + [TextNewline] + coveredBlock + uncoveredBlock + errorBlock;
    assert output == TextAssemble(s, breakdown, covered, uncovered, others);
  }

  method MdPriorityTable(byPriority: map<string, PrioritySummary>) returns (pieces: seq<MarkdownPiece>)
    ensures pieces == MdPriorityRows(byPriority, PriorityNames)
  {
    pieces := [];
    var names := PriorityNames;
    for i := 0 to |names|
      invariant pieces == MdPriorityRows(byPriority, names[..i])
    {
      assert names[..i + 1][..i] == names[..i];
      var name := names[i];
      if name in byPriority {
        var stats := byPriority[name];
        pieces := pieces + [PriorityRow(name, stats.covered, stats.total)];
      }
    }
    assert names[..|names|] == names;
  }

  method MdCoveredSection(covered: seq<RequirementInfo>) returns (pieces: seq<MarkdownPiece>)
    ensures pieces == MapSeq(covered, CoveredItemOf)
  {
    pieces := [];
    for i := 0 to |covered|
      invariant pieces == MapSeq(covered[..i], CoveredItemOf)
    {
      assert covered[..i + 1][..i] == covered[..i];
      var req := covered[i];
      pieces := pieces + [CoveredItem(req.id, req.priority, req.text.GetOr("(no description)"), req.coveredBy, req.snippetId)];
    }
    assert covered[..|covered|] == covered;
  }

  method MdUncoveredSection(uncovered: seq<RequirementInfo>) returns (pieces: seq<MarkdownPiece>)
    ensures pieces == MapSeq(uncovered, UncoveredItemOf)
  {
    pieces := [];
    for i := 0 to |uncovered|
      invariant pieces == MapSeq(uncovered[..i], UncoveredItemOf)
    {
      assert uncovered[..i + 1][..i] == uncovered[..i];
      var req := uncovered[i];
      var badge := PriorityBadge(req.priority);
      pieces := pieces + [UncoveredItem(req.id, badge, req.text.GetOr("(no description)"), req.snippetId)];
    }
    assert uncovered[..|uncovered|] == uncovered;
  }

  method MdErrorSection(errors: seq<RequirementError>) returns (pieces: seq<MarkdownPiece>)
    ensures pieces == MapSeq(errors, ErrorItemOf)
  {
    pieces := [];
    for i := 0 to |errors|
      invariant pieces == MapSeq(errors[..i], ErrorItemOf)
    {
      assert errors[..i + 1][..i] == errors[..i];
      var error := errors[i];
      var emoji := SeverityEmoji(error.Severity());
      pieces := pieces + [ErrorItem(emoji, error.Code(), error)];
    }
    assert errors[..|errors|] == errors;
  }

  /** Build the Markdown report. */
  method FormatMarkdown(report: CoverageReport) returns (output: seq<MarkdownPiece>, ghost order: seq<string>)
    ensures Enumerates(order, report.requirements.Keys)
    ensures output == MarkdownReport(report, ValuesIn(report.requirements, order))
  {
    var s := report.summary;
    var table := MdPriorityTable(s.byPriority);
    var values;
    values, order := ValuesOf(report.requirements);

    var coveredBlock: seq<MarkdownPiece> := [];
    var covered := Filter(values, IsCoveredReq);
    if covered != [] {
      var items := MdCoveredSection(covered);
      coveredBlock := [MdCoveredHeading] + items + [MdNewline];
    }
    var uncoveredBlock: seq<MarkdownPiece> := [];
    var uncovered := SortByPriority(Filter(values, IsUncoveredReq));
    if uncovered != [] {
      var items := MdUncoveredSection(uncovered);
      uncoveredBlock := [MdUncoveredHeading] + items + [MdNewline];
    }
    var errorBlock: seq<MarkdownPiece> := [];
    var others := Filter(report.errors, IsOtherError);
    if others != [] {
      var items := MdErrorSection(others);
      errorBlock := [MdErrorsHeading] + items;
    }
    output := MdHeader(s) + table + [MdNewline] + coveredBlock + uncoveredBlock + errorBlock;
    assert output == MdAssemble(s, table, covered, uncovered, others);
  }

  /** A formatted report: text and Markdown as their pieces; JSON is the serialized report itself,
      whose serialization is not modelled. */
  datatype Formatted = TextOutput(text: seq<TextPiece>) | JsonOutput(report: CoverageReport)
                     | MarkdownOutput(markdown: seq<MarkdownPiece>)

  /** Format a report in the chosen format. */
  method FormatReport(report: CoverageReport, format: ReportFormat) returns (out: Formatted, ghost order: seq<string>)
    ensures format == Text ==> Enumerates(order, report.requirements.Keys)
                               && out == TextOutput(TextReport(report, ValuesIn(report.requirements, order)))
    ensures format == Json ==> out == JsonOutput(report)
    ensures format == Markdown ==> Enumerates(order, report.requirements.Keys)
                                   && out == MarkdownOutput(MarkdownReport(report, ValuesIn(report.requirements, order)))
  {
    match format {
      case Text =>
        var pieces;
        pieces, order := FormatText(report);
        out := TextOutput(pieces);
      case Json =>
        order := [];
        out := JsonOutput(report);
      case Markdown =>
        var pieces;
        pieces, order := FormatMarkdown(report);
        out := MarkdownOutput(pieces);
    }
  }

  // ---------------------------------------------------------------------------
  // Properties of the lists
  // ---------------------------------------------------------------------------

  /** The four priority filters split any list of records. */
  lemma PriorityFiltersPartition(rs: seq<RequirementInfo>)
    ensures multiset(Filter(rs, PriorityIs(Critical))) + multiset(Filter(rs, PriorityIs(High)))
          + multiset(Filter(rs, PriorityIs(Medium))) + multiset(Filter(rs, PriorityIs(Low))) == multiset(rs)
  {
    FilterPartition4(rs, PriorityIs(Critical), PriorityIs(High), PriorityIs(Medium), PriorityIs(Low));
  }

  /** Sorting by priority keeps every record, as often as it occurs. */
  lemma SortByPriorityPermutes(rs: seq<RequirementInfo>)
    ensures multiset(SortByPriority(rs)) == multiset(rs)
    ensures |SortByPriority(rs)| == |rs|
  {
    PriorityFiltersPartition(rs);
    assert |multiset(SortByPriority(rs))| == |multiset(rs)|;
  }

  /** Sorting by priority puts the records in ascending priority ordinal: most urgent first. */
  lemma SortByPriorityOrdered(rs: seq<RequirementInfo>)
    ensures forall i, j :: 0 <= i < j < |SortByPriority(rs)| ==>
      PriorityOrd(SortByPriority(rs)[i].priority) <= PriorityOrd(SortByPriority(rs)[j].priority)
  {
    var a, b, c, d := Filter(rs, PriorityIs(Critical)), Filter(rs, PriorityIs(High)),
                      Filter(rs, PriorityIs(Medium)), Filter(rs, PriorityIs(Low));
    FilterMembers(rs, PriorityIs(Critical));
    FilterMembers(rs, PriorityIs(High));
    FilterMembers(rs, PriorityIs(Medium));
    FilterMembers(rs, PriorityIs(Low));
    var sorted := SortByPriority(rs);
    assert sorted == a + b + c + d;
    forall i | 0 <= i < |sorted|
      ensures PriorityOrd(sorted[i].priority) ==
        (if i < |a| then 0 else if i < |a| + |b| then 1 else if i < |a| + |b| + |c| then 2 else 3)
    {
      if i < |a| {
        assert sorted[i] == a[i] && a[i] in a;
      } else if i < |a| + |b| {
        assert sorted[i] == b[i - |a|] && b[i - |a|] in b;
      } else if i < |a| + |b| + |c| {
        assert sorted[i] == c[i - |a| - |b|] && c[i - |a| - |b|] in c;
      } else {
        assert sorted[i] == d[i - |a| - |b| - |c|] && d[i - |a| - |b| - |c|] in d;
      }
    }
  }

  /** Filtering the records of one priority out of those of another. */
  lemma FilterPriorityTwice(rs: seq<RequirementInfo>, q: Priority, p: Priority)
    ensures Filter(Filter(rs, PriorityIs(q)), PriorityIs(p)) == if p == q then Filter(rs, PriorityIs(p)) else []
  {
    if p == q {
      FilterIdempotent(rs, PriorityIs(p));
    } else {
      FilterMembers(rs, PriorityIs(q));
      FilterNone(Filter(rs, PriorityIs(q)), PriorityIs(p));
    }
  }

  /** The sort is stable: records of equal priority keep their relative order. */
  lemma SortByPriorityStable(rs: seq<RequirementInfo>, p: Priority)
    ensures Filter(SortByPriority(rs), PriorityIs(p)) == Filter(rs, PriorityIs(p))
  {
    var a, b, c, d := Filter(rs, PriorityIs(Critical)), Filter(rs, PriorityIs(High)),
                      Filter(rs, PriorityIs(Medium)), Filter(rs, PriorityIs(Low));
    var fa, fb, fc, fd := Filter(a, PriorityIs(p)), Filter(b, PriorityIs(p)),
                          Filter(c, PriorityIs(p)), Filter(d, PriorityIs(p));
    assert Filter(SortByPriority(rs), PriorityIs(p)) == fa + fb + fc + fd by {
      FilterConcat(a + b + c, d, PriorityIs(p));
      FilterConcat(a + b, c, PriorityIs(p));
      FilterConcat(a, b, PriorityIs(p));
    }
    FilterPriorityTwice(rs, Critical, p);
    FilterPriorityTwice(rs, High, p);
    FilterPriorityTwice(rs, Medium, p);
    FilterPriorityTwice(rs, Low, p);
    match p
    case Critical => assert fa + fb + fc + fd == fa + [] + [] + [];
    case High => assert fa + fb + fc + fd == [] + fb + [] + [];
    case Medium => assert fa + fb + fc + fd == [] + [] + fc + [];
    case Low => assert fa + fb + fc + fd == [] + [] + [] + fd;
  }

  /** The uncovered list holds exactly the uncovered records. */
  lemma UncoveredReqsMembers(values: seq<RequirementInfo>)
    ensures forall r :: r in UncoveredReqs(values) <==> r in values && r.coveredBy == []
  {
    FilterMembers(values, IsUncoveredReq);
    SortByPriorityMembers(Filter(values, IsUncoveredReq));
  }

  /** Sorting neither adds nor drops a record. */
  lemma SortByPriorityMembers(rs: seq<RequirementInfo>)
    ensures forall r :: r in SortByPriority(rs) <==> r in rs
  {
    var sorted := SortByPriority(rs);
    SortByPriorityPermutes(rs);
    forall r ensures r in sorted <==> r in rs {
      assert r in sorted <==> r in multiset(sorted);
      assert r in rs <==> r in multiset(rs);
    }
  }

  /** Reading a map in a key order: one record per key of the order. */
  lemma {:induction false} ValuesInMembers(reqs: map<string, RequirementInfo>, order: seq<string>)
    requires forall k :: k in order ==> k in reqs
    ensures |ValuesIn(reqs, order)| == |order|
    ensures forall r :: r in ValuesIn(reqs, order) ==> exists k :: k in order && reqs[k] == r
    ensures forall k :: k in order ==> reqs[k] in ValuesIn(reqs, order)
  {
    if order != [] {
      var init := order[..|order| - 1];
      assert forall k :: k in order <==> k in init || k == order[|order| - 1];
      ValuesInMembers(reqs, init);
    }
  }

  /** The keys in `order` whose records satisfy `p`. */
  function KeysWhere(reqs: map<string, RequirementInfo>, order: seq<string>, p: RequirementInfo -> bool): set<string> {
    set k | k in order && k in reqs && p(reqs[k])
  }

  /** Removing the last key of a duplicate-free order. */
  lemma KeysWhereSnoc(reqs: map<string, RequirementInfo>, order: seq<string>, p: RequirementInfo -> bool)
    requires order != [] && order[|order| - 1] in reqs
    ensures var k := order[|order| - 1];
      KeysWhere(reqs, order, p) == KeysWhere(reqs, order[..|order| - 1], p) + (if p(reqs[k]) then {k} else {})
  {
    var init, k := order[..|order| - 1], order[|order| - 1];
    assert forall j :: j in order <==> j in init || j == k;
  }

  /** The records of a map read in a key order that satisfy `p` are as many as its keys whose
      records do. */
  lemma {:induction false} ValuesInCount(reqs: map<string, RequirementInfo>, order: seq<string>, p: RequirementInfo -> bool)
    requires NoDup(order)
    requires forall k :: k in order ==> k in reqs
    ensures |Filter(ValuesIn(reqs, order), p)| == |KeysWhere(reqs, order, p)|
  {
    if order != [] {
      var init, k := order[..|order| - 1], order[|order| - 1];
      assert NoDup(init) && k !in init by {
        forall i, j | 0 <= i < j < |init| ensures init[i] != init[j] {
          assert init[i] == order[i] && init[j] == order[j];
        }
        forall i | 0 <= i < |init| ensures init[i] != k {
          assert init[i] == order[i];
        }
      }
      ValuesInCount(reqs, init, p);
      FilterConcat(ValuesIn(reqs, init), [reqs[k]], p);
      KeysWhereSnoc(reqs, order, p);
      assert k !in KeysWhere(reqs, init, p);
    }
  }

  /** Every record of the map is read, and (keys being ids) each record read is the map's
      record for its id. */
  lemma ValuesOfMap(reqs: map<string, RequirementInfo>, order: seq<string>)
    requires Enumerates(order, reqs.Keys)
    requires forall k :: k in reqs ==> reqs[k].id == k
    ensures forall id :: id in reqs ==> reqs[id] in ValuesIn(reqs, order)
    ensures forall r :: r in ValuesIn(reqs, order) ==> r.id in reqs && reqs[r.id] == r
  {
    ValuesInMembers(reqs, order);
  }

  /** A key order of a map reads as many records as the map holds. */
  lemma ValuesInLength(reqs: map<string, RequirementInfo>, order: seq<string>)
    requires Enumerates(order, reqs.Keys)
    ensures |ValuesIn(reqs, order)| == |reqs|
  {
    ValuesInMembers(reqs, order);
    NoDupCard(order);
    assert ToSet(order) == reqs.Keys;
  }

  /** The covered list of a report holds as many records as the summary counts covered. */
  lemma CoveredListMatchesSummary(report: CoverageReport, order: seq<string>)
    requires Enumerates(order, report.requirements.Keys)
    requires IsSummaryOf(report.summary, report.requirements)
    ensures |CoveredReqs(ValuesIn(report.requirements, order))| == report.summary.coveredRequirements
  {
    var reqs := report.requirements;
    ValuesInCount(reqs, order, IsCoveredReq);
    assert KeysWhere(reqs, order, IsCoveredReq) == CoveredIds(reqs);
  }

  /** The uncovered list of a report holds as many records as the summary counts uncovered. */
  lemma UncoveredListMatchesSummary(report: CoverageReport, order: seq<string>)
    requires Enumerates(order, report.requirements.Keys)
    requires IsSummaryOf(report.summary, report.requirements)
    ensures |UncoveredReqs(ValuesIn(report.requirements, order))| == report.summary.uncoveredRequirements
  {
    var values := ValuesIn(report.requirements, order);
    CoveredListMatchesSummary(report, order);
    ValuesInLength(report.requirements, order);
    FilterSplitCount(values, IsCoveredReq, IsUncoveredReq);
    SortByPriorityPermutes(Filter(values, IsUncoveredReq));
  }

  // ---------------------------------------------------------------------------
  // Properties of the text report
  // ---------------------------------------------------------------------------

  /** The priority lines: one for each listed name whose summary counts a requirement. */
  lemma {:induction false} TextPriorityLinesMembers(byPriority: map<string, PrioritySummary>, names: seq<string>)
    ensures forall x :: x in TextPriorityLines(byPriority, names) <==>
      exists n :: n in names && n in byPriority && byPriority[n].total > 0
                  && x == PriorityLine(n, byPriority[n].covered, byPriority[n].total)
  {
    if names != [] {
      var init := names[..|names| - 1];
      assert forall n :: n in names <==> n in init || n == names[|names| - 1];
      TextPriorityLinesMembers(byPriority, init);
    }
  }

  /** The priority lines are all priority lines. */
  lemma {:induction false} TextPriorityLinesKind(byPriority: map<string, PrioritySummary>, names: seq<string>)
    ensures forall x :: x in TextPriorityLines(byPriority, names) ==> x.PriorityLine?
  {
    if names != [] {
      TextPriorityLinesKind(byPriority, names[..|names| - 1]);
    }
  }

  /** For a summary of the requirements, the text report shows the line of a priority exactly
      when some requirement has that priority, with that priority's counts. */
  lemma TextPriorityLinesOfSummary(report: CoverageReport)
    requires IsSummaryOf(report.summary, report.requirements)
    ensures forall x :: x in TextPriorityLines(report.summary.byPriority, PriorityNames) <==>
      exists p :: PrioritySummaryOf(report.requirements, p).total > 0
                  && x == PriorityLine(PriorityName(p), PrioritySummaryOf(report.requirements, p).covered,
                                       PrioritySummaryOf(report.requirements, p).total)
  {
    TextPriorityLinesMembers(report.summary.byPriority, PriorityNames);
    assert forall n :: n in PriorityNames <==> exists p :: n == PriorityName(p) by {
      assert PriorityNames == [PriorityName(Critical), PriorityName(High), PriorityName(Medium), PriorityName(Low)];
    }
  }

  /** The opening lines hold none of the section headings and no entry. */
  lemma TextHeaderKinds(s: CoverageSummary)
    ensures forall x :: x in TextHeader(s) ==>
      x.TextTitle? || x.TotalLine? || x.CoveredCountLine? || x.UncoveredCountLine? || x.CoverageLine? || x.ByPriorityHeading?
  {
  }

  /** The covered block: its heading and closing line when there is something to list, and
      one entry per record. */
  lemma TextCoveredBlockKinds(covered: seq<RequirementInfo>)
    ensures forall x :: x in TextCoveredBlock(covered) <==>
      (covered != [] && (x == CoveredHeading || x == TextNewline)) || x in MapSeq(covered, CoveredEntryOf)
    ensures forall x :: x in MapSeq(covered, CoveredEntryOf) ==> x.CoveredEntry?
  {
    MapSeqInto(covered, CoveredEntryOf, (x: TextPiece) => x.CoveredEntry?);
    if covered == [] {
      assert MapSeq(covered, CoveredEntryOf) == [];
    }
  }

  lemma TextUncoveredBlockKinds(uncovered: seq<RequirementInfo>)
    ensures forall x :: x in TextUncoveredBlock(uncovered) <==>
      (uncovered != [] && (x == UncoveredHeading || x == TextNewline)) || x in MapSeq(uncovered, UncoveredEntryOf)
    ensures forall x :: x in MapSeq(uncovered, UncoveredEntryOf) ==> x.UncoveredEntry?
  {
    MapSeqInto(uncovered, UncoveredEntryOf, (x: TextPiece) => x.UncoveredEntry?);
    if uncovered == [] {
      assert MapSeq(uncovered, UncoveredEntryOf) == [];
    }
  }

  lemma TextErrorBlockKinds(others: seq<RequirementError>)
    ensures forall x :: x in TextErrorBlock(others) <==>
      (others != [] && x == ErrorsHeading) || x in MapSeq(others, ErrorEntryOf)
    ensures forall x :: x in MapSeq(others, ErrorEntryOf) ==> x.ErrorEntry?
  {
    MapSeqInto(others, ErrorEntryOf, (x: TextPiece) => x.ErrorEntry?);
    if others == [] {
      assert MapSeq(others, ErrorEntryOf) == [];
    }
  }

  /** The text report is its header, its priority lines, a blank line and its three blocks. */
  lemma TextAssembleMembers(s: CoverageSummary, lines: seq<TextPiece>, covered: seq<RequirementInfo>,
                            uncovered: seq<RequirementInfo>, others: seq<RequirementError>)
    ensures forall x :: x in TextAssemble(s, lines, covered, uncovered, others) <==>
      x in TextHeader(s) || x in lines || x == TextNewline || x in TextCoveredBlock(covered)
      || x in TextUncoveredBlock(uncovered) || x in TextErrorBlock(others)
  {
  }

  /** The covered entries of the text report are those of its covered block. */
  lemma TextCoveredEntriesIn(s: CoverageSummary, lines: seq<TextPiece>, covered: seq<RequirementInfo>,
                            uncovered: seq<RequirementInfo>, others: seq<RequirementError>)
    requires forall x :: x in lines ==> x.PriorityLine?
    ensures forall x :: x in TextAssemble(s, lines, covered, uncovered, others) && x.CoveredEntry? <==>
      x in MapSeq(covered, CoveredEntryOf)
  {
    TextAssembleMembers(s, lines, covered, uncovered, others);
    TextHeaderKinds(s);
    TextCoveredBlockKinds(covered);
    TextUncoveredBlockKinds(uncovered);
    TextErrorBlockKinds(others);
  }

  /** The uncovered entries of the text report are those of its uncovered block. */
  lemma TextUncoveredEntriesIn(s: CoverageSummary, lines: seq<TextPiece>, covered: seq<RequirementInfo>,
                            uncovered: seq<RequirementInfo>, others: seq<RequirementError>)
    requires forall x :: x in lines ==> x.PriorityLine?
    ensures forall x :: x in TextAssemble(s, lines, covered, uncovered, others) && x.UncoveredEntry? <==>
      x in MapSeq(uncovered, UncoveredEntryOf)
  {
    TextAssembleMembers(s, lines, covered, uncovered, others);
    TextHeaderKinds(s);
    TextCoveredBlockKinds(covered);
    TextUncoveredBlockKinds(uncovered);
    TextErrorBlockKinds(others);
  }

  /** The error entries of the text report are those of its error block. */
  lemma TextErrorEntriesIn(s: CoverageSummary, lines: seq<TextPiece>, covered: seq<RequirementInfo>,
                            uncovered: seq<RequirementInfo>, others: seq<RequirementError>)
    requires forall x :: x in lines ==> x.PriorityLine?
    ensures forall x :: x in TextAssemble(s, lines, covered, uncovered, others) && x.ErrorEntry? <==>
      x in MapSeq(others, ErrorEntryOf)
  {
    TextAssembleMembers(s, lines, covered, uncovered, others);
    TextHeaderKinds(s);
    TextCoveredBlockKinds(covered);
    TextUncoveredBlockKinds(uncovered);
    TextErrorBlockKinds(others);
  }

  /** The covered heading appears exactly when that block has something to list. */
  lemma TextCoveredHeadingIn(s: CoverageSummary, lines: seq<TextPiece>, covered: seq<RequirementInfo>,
                            uncovered: seq<RequirementInfo>, others: seq<RequirementError>)
    requires forall x :: x in lines ==> x.PriorityLine?
    ensures CoveredHeading in TextAssemble(s, lines, covered, uncovered, others) <==> covered != []
  {
    TextAssembleMembers(s, lines, covered, uncovered, others);
    TextHeaderKinds(s);
    TextCoveredBlockKinds(covered);
    TextUncoveredBlockKinds(uncovered);
    TextErrorBlockKinds(others);
  }

  /** The uncovered heading appears exactly when that block has something to list. */
  lemma TextUncoveredHeadingIn(s: CoverageSummary, lines: seq<TextPiece>, covered: seq<RequirementInfo>,
                            uncovered: seq<RequirementInfo>, others: seq<RequirementError>)
    requires forall x :: x in lines ==> x.PriorityLine?
    ensures UncoveredHeading in TextAssemble(s, lines, covered, uncovered, others) <==> uncovered != []
  {
    TextAssembleMembers(s, lines, covered, uncovered, others);
    TextHeaderKinds(s);
    TextCoveredBlockKinds(covered);
    TextUncoveredBlockKinds(uncovered);
    TextErrorBlockKinds(others);
  }

  /** The validation-error heading appears exactly when that block has something to list. */
  lemma TextErrorsHeadingIn(s: CoverageSummary, lines: seq<TextPiece>, covered: seq<RequirementInfo>,
                            uncovered: seq<RequirementInfo>, others: seq<RequirementError>)
    requires forall x :: x in lines ==> x.PriorityLine?
    ensures ErrorsHeading in TextAssemble(s, lines, covered, uncovered, others) <==> others != []
  {
    TextAssembleMembers(s, lines, covered, uncovered, others);
    TextHeaderKinds(s);
    TextCoveredBlockKinds(covered);
    TextUncoveredBlockKinds(uncovered);
    TextErrorBlockKinds(others);
  }

  /** The text report has a section exactly when it has something to list in it. */
  lemma TextSections(report: CoverageReport, values: seq<RequirementInfo>)
    ensures CoveredHeading in TextReport(report, values) <==> CoveredReqs(values) != []
    ensures UncoveredHeading in TextReport(report, values) <==> UncoveredReqs(values) != []
    ensures ErrorsHeading in TextReport(report, values) <==> OtherErrors(report.errors) != []
  {
    TextPriorityLinesKind(report.summary.byPriority, PriorityNames);
    var lines := TextPriorityLines(report.summary.byPriority, PriorityNames);
    TextCoveredHeadingIn(report.summary, lines, CoveredReqs(values), UncoveredReqs(values), OtherErrors(report.errors));
    TextUncoveredHeadingIn(report.summary, lines, CoveredReqs(values), UncoveredReqs(values), OtherErrors(report.errors));
    TextErrorsHeadingIn(report.summary, lines, CoveredReqs(values), UncoveredReqs(values), OtherErrors(report.errors));
  }

  /** The covered entries of the text report: one per covered requirement. */
  lemma TextCoveredEntries(report: CoverageReport, order: seq<string>)
    requires Enumerates(order, report.requirements.Keys)
    requires forall k :: k in report.requirements ==> report.requirements[k].id == k
    ensures forall id, text, tests :: CoveredEntry(id, text, tests) in TextReport(report, ValuesIn(report.requirements, order)) <==>
      (id in report.requirements && report.requirements[id].coveredBy != []
       && text == Description(report.requirements[id]) && tests == report.requirements[id].coveredBy)
  {
    var reqs := report.requirements;
    var values := ValuesIn(reqs, order);
    var covered := CoveredReqs(values);
    ValuesOfMap(reqs, order);
    TextPriorityLinesKind(report.summary.byPriority, PriorityNames);
    TextCoveredEntriesIn(report.summary, TextPriorityLines(report.summary.byPriority, PriorityNames), covered, UncoveredReqs(values), OtherErrors(report.errors));
    FilterMembers(values, IsCoveredReq);
    MapSeqMembers(covered, CoveredEntryOf);
  }

  /** The uncovered entries of the text report: one per uncovered requirement, with the marker
      of its priority. */
  lemma TextUncoveredEntries(report: CoverageReport, order: seq<string>)
    requires Enumerates(order, report.requirements.Keys)
    requires forall k :: k in report.requirements ==> report.requirements[k].id == k
    ensures forall m, id, text, sid :: UncoveredEntry(m, id, text, sid) in TextReport(report, ValuesIn(report.requirements, order)) <==>
      (id in report.requirements && report.requirements[id].coveredBy == []
       && m == PriorityMarker(report.requirements[id].priority)
       && text == Description(report.requirements[id]) && sid == report.requirements[id].snippetId)
  {
    var reqs := report.requirements;
    var values := ValuesIn(reqs, order);
    var uncovered := UncoveredReqs(values);
    ValuesOfMap(reqs, order);
    TextPriorityLinesKind(report.summary.byPriority, PriorityNames);
    TextUncoveredEntriesIn(report.summary, TextPriorityLines(report.summary.byPriority, PriorityNames), CoveredReqs(values), uncovered, OtherErrors(report.errors));
    UncoveredReqsMembers(values);
    MapSeqMembers(uncovered, UncoveredEntryOf);
  }

  /** The error entries of the text report: one per error that is not an uncovered requirement,
      with the marker of its severity and its code. */
  lemma TextErrorEntries(report: CoverageReport, values: seq<RequirementInfo>)
    ensures forall m, c, e :: ErrorEntry(m, c, e) in TextReport(report, values) <==>
      (e in report.errors && !e.UncoveredRequirement? && m == SeverityMarker(e.Severity()) && c == e.Code())
  {
    var others := OtherErrors(report.errors);
    TextPriorityLinesKind(report.summary.byPriority, PriorityNames);
    TextErrorEntriesIn(report.summary, TextPriorityLines(report.summary.byPriority, PriorityNames), CoveredReqs(values), UncoveredReqs(values), others);
    FilterMembers(report.errors, IsOtherError);
    MapSeqMembers(others, ErrorEntryOf);
  }

  // ---------------------------------------------------------------------------
  // Properties of the Markdown report
  // ---------------------------------------------------------------------------

  /** The priority rows: one for each listed name that has a summary, whatever its counts. */
  lemma {:induction false} MdPriorityRowsMembers(byPriority: map<string, PrioritySummary>, names: seq<string>)
    ensures forall x :: x in MdPriorityRows(byPriority, names) <==>
      exists n :: n in names && n in byPriority && x == PriorityRow(n, byPriority[n].covered, byPriority[n].total)
  {
    if names != [] {
      var init := names[..|names| - 1];
      assert forall n :: n in names <==> n in init || n == names[|names| - 1];
      MdPriorityRowsMembers(byPriority, init);
    }
  }

  /** The priority rows are all priority rows. */
  lemma {:induction false} MdPriorityRowsKind(byPriority: map<string, PrioritySummary>, names: seq<string>)
    ensures forall x :: x in MdPriorityRows(byPriority, names) ==> x.PriorityRow?
  {
    if names != [] {
      MdPriorityRowsKind(byPriority, names[..|names| - 1]);
    }
  }

  /** For a summary of the requirements, the Markdown table has the row of every priority,
      including those no requirement has, with that priority's counts. */
  lemma MdPriorityRowsOfSummary(report: CoverageReport)
    requires IsSummaryOf(report.summary, report.requirements)
    ensures forall x :: x in MdPriorityRows(report.summary.byPriority, PriorityNames) <==>
      exists p :: x == PriorityRow(PriorityName(p), PrioritySummaryOf(report.requirements, p).covered,
                                   PrioritySummaryOf(report.requirements, p).total)
  {
    MdPriorityRowsMembers(report.summary.byPriority, PriorityNames);
    assert forall n :: n in PriorityNames <==> exists p :: n == PriorityName(p) by {
      assert PriorityNames == [PriorityName(Critical), PriorityName(High), PriorityName(Medium), PriorityName(Low)];
    }
  }

  lemma MdHeaderKinds(s: CoverageSummary)
    ensures forall x :: x in MdHeader(s) ==>
      x.MdTitle? || x.SummaryHeading? || x.SummaryTableHeader? || x.SummaryTableRule? || x.TotalRow?
      || x.CoveredRow? || x.UncoveredRow? || x.CoverageRow? || x.MdByPriorityHeading? || x.PriorityTableHeader?
      || x.PriorityTableRule?
  {
  }

  lemma MdCoveredBlockKinds(covered: seq<RequirementInfo>)
    ensures forall x :: x in MdCoveredBlock(covered) <==>
      (covered != [] && (x == MdCoveredHeading || x == MdNewline)) || x in MapSeq(covered, CoveredItemOf)
    ensures forall x :: x in MapSeq(covered, CoveredItemOf) ==> x.CoveredItem?
  {
    MapSeqInto(covered, CoveredItemOf, (x: MarkdownPiece) => x.CoveredItem?);
    if covered == [] {
      assert MapSeq(covered, CoveredItemOf) == [];
    }
  }

  lemma MdUncoveredBlockKinds(uncovered: seq<RequirementInfo>)
    ensures forall x :: x in MdUncoveredBlock(uncovered) <==>
      (uncovered != [] && (x == MdUncoveredHeading || x == MdNewline)) || x in MapSeq(uncovered, UncoveredItemOf)
    ensures forall x :: x in MapSeq(uncovered, UncoveredItemOf) ==> x.UncoveredItem?
  {
    MapSeqInto(uncovered, UncoveredItemOf, (x: MarkdownPiece) => x.UncoveredItem?);
    if uncovered == [] {
      assert MapSeq(uncovered, UncoveredItemOf) == [];
    }
  }

  lemma MdErrorBlockKinds(others: seq<RequirementError>)
    ensures forall x :: x in MdErrorBlock(others) <==>
      (others != [] && x == MdErrorsHeading) || x in MapSeq(others, ErrorItemOf)
    ensures forall x :: x in MapSeq(others, ErrorItemOf) ==> x.ErrorItem?
  {
    MapSeqInto(others, ErrorItemOf, (x: MarkdownPiece) => x.ErrorItem?);
    if others == [] {
      assert MapSeq(others, ErrorItemOf) == [];
    }
  }

  /** The Markdown report is its header, its priority rows, a blank line and its three blocks. */
  lemma MdAssembleMembers(s: CoverageSummary, rows: seq<MarkdownPiece>, covered: seq<RequirementInfo>,
                          uncovered: seq<RequirementInfo>, others: seq<RequirementError>)
    ensures forall x :: x in MdAssemble(s, rows, covered, uncovered, others) <==>
      x in MdHeader(s) || x in rows || x == MdNewline || x in MdCoveredBlock(covered)
      || x in MdUncoveredBlock(uncovered) || x in MdErrorBlock(others)
  {
  }

  lemma MdCoveredItemsIn(s: CoverageSummary, rows: seq<MarkdownPiece>, covered: seq<RequirementInfo>,
                          uncovered: seq<RequirementInfo>, others: seq<RequirementError>)
    requires forall x :: x in rows ==> x.PriorityRow?
    ensures forall x :: x in MdAssemble(s, rows, covered, uncovered, others) && x.CoveredItem? <==>
      x in MapSeq(covered, CoveredItemOf)
  {
    MdAssembleMembers(s, rows, covered, uncovered, others);
    MdHeaderKinds(s);
    MdCoveredBlockKinds(covered);
    MdUncoveredBlockKinds(uncovered);
    MdErrorBlockKinds(others);
  }

  lemma MdUncoveredItemsIn(s: CoverageSummary, rows: seq<MarkdownPiece>, covered: seq<RequirementInfo>,
                          uncovered: seq<RequirementInfo>, others: seq<RequirementError>)
    requires forall x :: x in rows ==> x.PriorityRow?
    ensures forall x :: x in MdAssemble(s, rows, covered, uncovered, others) && x.UncoveredItem? <==>
      x in MapSeq(uncovered, UncoveredItemOf)
  {
    MdAssembleMembers(s, rows, covered, uncovered, others);
    MdHeaderKinds(s);
    MdCoveredBlockKinds(covered);
    MdUncoveredBlockKinds(uncovered);
    MdErrorBlockKinds(others);
  }

  lemma MdErrorItemsIn(s: CoverageSummary, rows: seq<MarkdownPiece>, covered: seq<RequirementInfo>,
                          uncovered: seq<RequirementInfo>, others: seq<RequirementError>)
    requires forall x :: x in rows ==> x.PriorityRow?
    ensures forall x :: x in MdAssemble(s, rows, covered, uncovered, others) && x.ErrorItem? <==>
      x in MapSeq(others, ErrorItemOf)
  {
    MdAssembleMembers(s, rows, covered, uncovered, others);
    MdHeaderKinds(s);
    MdCoveredBlockKinds(covered);
    MdUncoveredBlockKinds(uncovered);
    MdErrorBlockKinds(others);
  }

  lemma MdCoveredHeadingIn(s: CoverageSummary, rows: seq<MarkdownPiece>, covered: seq<RequirementInfo>,
                          uncovered: seq<RequirementInfo>, others: seq<RequirementError>)
    requires forall x :: x in rows ==> x.PriorityRow?
    ensures MdCoveredHeading in MdAssemble(s, rows, covered, uncovered, others) <==> covered != []
  {
    MdAssembleMembers(s, rows, covered, uncovered, others);
    MdHeaderKinds(s);
    MdCoveredBlockKinds(covered);
    MdUncoveredBlockKinds(uncovered);
    MdErrorBlockKinds(others);
  }

  lemma MdUncoveredHeadingIn(s: CoverageSummary, rows: seq<MarkdownPiece>, covered: seq<RequirementInfo>,
                          uncovered: seq<RequirementInfo>, others: seq<RequirementError>)
    requires forall x :: x in rows ==> x.PriorityRow?
    ensures MdUncoveredHeading in MdAssemble(s, rows, covered, uncovered, others) <==> uncovered != []
  {
    MdAssembleMembers(s, rows, covered, uncovered, others);
    MdHeaderKinds(s);
    MdCoveredBlockKinds(covered);
    MdUncoveredBlockKinds(uncovered);
    MdErrorBlockKinds(others);
  }

  lemma MdErrorsHeadingIn(s: CoverageSummary, rows: seq<MarkdownPiece>, covered: seq<RequirementInfo>,
                          uncovered: seq<RequirementInfo>, others: seq<RequirementError>)
    requires forall x :: x in rows ==> x.PriorityRow?
    ensures MdErrorsHeading in MdAssemble(s, rows, covered, uncovered, others) <==> others != []
  {
    MdAssembleMembers(s, rows, covered, uncovered, others);
    MdHeaderKinds(s);
    MdCoveredBlockKinds(covered);
    MdUncoveredBlockKinds(uncovered);
    MdErrorBlockKinds(others);
  }

  /** The Markdown report has a section exactly when it has something to list in it. */
  lemma MdSections(report: CoverageReport, values: seq<RequirementInfo>)
    ensures MdCoveredHeading in MarkdownReport(report, values) <==> CoveredReqs(values) != []
    ensures MdUncoveredHeading in MarkdownReport(report, values) <==> UncoveredReqs(values) != []
    ensures MdErrorsHeading in MarkdownReport(report, values) <==> OtherErrors(report.errors) != []
  {
    var rows := MdPriorityRows(report.summary.byPriority, PriorityNames);
    MdPriorityRowsKind(report.summary.byPriority, PriorityNames);
    MdCoveredHeadingIn(report.summary, rows, CoveredReqs(values), UncoveredReqs(values), OtherErrors(report.errors));
    MdUncoveredHeadingIn(report.summary, rows, CoveredReqs(values), UncoveredReqs(values), OtherErrors(report.errors));
    MdErrorsHeadingIn(report.summary, rows, CoveredReqs(values), UncoveredReqs(values), OtherErrors(report.errors));
  }

  /** The covered items of the Markdown report: one per covered requirement, with its priority,
      the tests that cover it and its snippet. */
  lemma MdCoveredItems(report: CoverageReport, order: seq<string>)
    requires Enumerates(order, report.requirements.Keys)
    requires forall k :: k in report.requirements ==> report.requirements[k].id == k
    ensures forall id, p, text, tests, sid ::
      CoveredItem(id, p, text, tests, sid) in MarkdownReport(report, ValuesIn(report.requirements, order)) <==>
      (id in report.requirements && report.requirements[id].coveredBy != [] && p == report.requirements[id].priority
       && text == Description(report.requirements[id]) && tests == report.requirements[id].coveredBy
       && sid == report.requirements[id].snippetId)
  {
    var reqs := report.requirements;
    var values := ValuesIn(reqs, order);
    var covered := CoveredReqs(values);
    ValuesOfMap(reqs, order);
    MdPriorityRowsKind(report.summary.byPriority, PriorityNames);
    MdCoveredItemsIn(report.summary, MdPriorityRows(report.summary.byPriority, PriorityNames), covered,
                     UncoveredReqs(values), OtherErrors(report.errors));
    FilterMembers(values, IsCoveredReq);
    MapSeqMembers(covered, CoveredItemOf);
  }

  /** The uncovered items of the Markdown report: one per uncovered requirement, with the badge
      of its priority. */
  lemma MdUncoveredItems(report: CoverageReport, order: seq<string>)
    requires Enumerates(order, report.requirements.Keys)
    requires forall k :: k in report.requirements ==> report.requirements[k].id == k
    ensures forall id, badge, text, sid ::
      UncoveredItem(id, badge, text, sid) in MarkdownReport(report, ValuesIn(report.requirements, order)) <==>
      (id in report.requirements && report.requirements[id].coveredBy == []
       && badge == PriorityBadge(report.requirements[id].priority)
       && text == Description(report.requirements[id]) && sid == report.requirements[id].snippetId)
  {
    var reqs := report.requirements;
    var values := ValuesIn(reqs, order);
    var uncovered := UncoveredReqs(values);
    ValuesOfMap(reqs, order);
    MdPriorityRowsKind(report.summary.byPriority, PriorityNames);
    MdUncoveredItemsIn(report.summary, MdPriorityRows(report.summary.byPriority, PriorityNames), CoveredReqs(values),
                       uncovered, OtherErrors(report.errors));
    UncoveredReqsMembers(values);
    MapSeqMembers(uncovered, UncoveredItemOf);
  }

  /** The error items of the Markdown report: one per error that is not an uncovered requirement,
      with the emoji of its severity and its code. */
  lemma MdErrorItems(report: CoverageReport, values: seq<RequirementInfo>)
    ensures forall emoji, c, e :: ErrorItem(emoji, c, e) in MarkdownReport(report, values) <==>
      (e in report.errors && !e.UncoveredRequirement? && emoji == SeverityEmoji(e.Severity()) && c == e.Code())
  {
    var others := OtherErrors(report.errors);
    var md := MarkdownReport(report, values);
    MdPriorityRowsKind(report.summary.byPriority, PriorityNames);
    MdErrorItemsIn(report.summary, MdPriorityRows(report.summary.byPriority, PriorityNames), CoveredReqs(values),
                   UncoveredReqs(values), others);
    FilterMembers(report.errors, IsOtherError);
    MapSeqMembers(others, ErrorItemOf);
    forall emoji, c, e
      ensures ErrorItem(emoji, c, e) in md <==>
        (e in report.errors && !e.UncoveredRequirement? && emoji == SeverityEmoji(e.Severity()) && c == e.Code())
    {
      var x := ErrorItem(emoji, c, e);
      if x in md {
        var e' :| e' in others && x == ErrorItemOf(e');
      }
      if e in report.errors && !e.UncoveredRequirement? && emoji == SeverityEmoji(e.Severity()) && c == e.Code() {
        assert x == ErrorItemOf(e) && e in others;
      }
    }
  }
}
