/** The parts of the parsed Covenant program that requirement extraction reads.
    Only the fields the extractor consumes are represented. */
module Ast {
  import opened Wrappers

  /** Requirement priority, most urgent first. */
  datatype Priority = Critical | High | Medium | Low

  /** Lifecycle status of a requirement. */
  datatype ReqStatus = Draft | Approved | Implemented | Tested

  /** Kind of a test declaration. */
  datatype TestKind = Unit | Integration | Golden | Property

  /** Byte range of a declaration in the source text. */
  datatype Span = Span(start: nat, end: nat)

  /** A `req` declaration inside a `requires` section; priority and status may be omitted. */
  datatype ReqDecl = ReqDecl(id: string, text: Option<string>, priority: Option<Priority>, status: Option<ReqStatus>, span: Span)

  /** A `test` declaration inside a `tests` section, with the requirement ids it claims to cover. */
  datatype TestDecl = TestDecl(id: string, kind: TestKind, covers: seq<string>, span: Span)

  /** A section of a snippet; sections other than `requires` and `tests` are irrelevant here. */
  datatype Section =
    | Requires(requirements: seq<ReqDecl>)
    | Tests(tests: seq<TestDecl>)
    | OtherSection

  /** A snippet: its id and its sections in source order. */
  datatype Snippet = Snippet(id: string, sections: seq<Section>)

  /** A whole program: a list of snippets, or a legacy program without requirement sections. */
  datatype Program = Snippets(snippets: seq<Snippet>) | Legacy
}
