/** The runtime mutator: pre-validation of a snippet's source, the symbol an update writes to
    the store, and (re)compilation results. The store itself is not part of this model: an update
    yields the symbol it writes and takes the version the store's upsert returns. */
module Mutation {
  import opened Wrappers
  import opened Seqs
  import opened RuntimeTypes

  /** The result of a mutation. */
  datatype MutationResult = MutationResult(success: bool, errors: seq<string>, warnings: seq<string>,
                                           newVersion: nat)
  {
    /** A success at `version`, with no errors and no warnings. */
    static function Ok(version: nat): (r: MutationResult)
      ensures r.success && r.errors == [] && r.warnings == [] && r.newVersion == version
    {
      MutationResult(true, [], [], version)
    }

    /** A failure with `errors`, no warnings and version 0. */
    static function Err(errors: seq<string>): (r: MutationResult)
      ensures !r.success && r.errors == errors && r.warnings == [] && r.newVersion == 0
    {
      MutationResult(false, errors, [], 0)
    }

    /** This result with one more warning at the end of its warnings. */
    function WithWarning(warning: string): (r: MutationResult)
      ensures r.warnings == warnings + [warning]
      ensures r.success == success && r.errors == errors && r.newVersion == newVersion
    {
      this.(warnings := warnings + [warning])
    }
  }

  /** Warnings accumulate in the order they are added. */
  lemma WarningsInOrder(r: MutationResult, a: string, b: string)
    ensures r.WithWarning(a).WithWarning(b).warnings == r.warnings + [a, b]
  {
  }

  /** The result of a compilation. */
  datatype CompileResult = CompileResult(success: bool, errors: seq<string>, wasm: Option<seq<bv8>>)
  {
    /** A success carrying the module's bytes and no errors. */
    static function Ok(wasm: seq<bv8>): (r: CompileResult)
      ensures r.success && r.errors == [] && r.wasm == Some(wasm)
    {
      CompileResult(true, [], Some(wasm))
    }

    /** A failure with `errors` and no module. */
    static function Err(errors: seq<string>): (r: CompileResult)
      ensures !r.success && r.errors == errors && r.wasm.None?
    {
      CompileResult(false, errors, None)
    }
  }

  // ---------------------------------------------------------------------------------------
  // Pre-validation

  /** The structural checks, in the order they are made: the text that must occur in the
      source and the error reported when it does not. */
  const Checks: seq<(string, string)> := [
    ("snippet", "Source must contain 'snippet' declaration"),
    ("id=", "Snippet must have an 'id' attribute"),
    ("kind=", "Snippet must have a 'kind' attribute"),
    ("end", "Snippet must be terminated with 'end'")]

  /** The source passes the structural checks before position `k`. */
  predicate PassesBefore(source: string, k: nat)
    requires k <= |Checks|
  {
    forall j :: 0 <= j < k ==> Contains(source, Checks[j].0)
  }

  /** Parse and validate a snippet's source: a blank source is "Empty source"; otherwise the
      first structural check the source fails is its one error; a source that passes them all is
      a success at version 0. */
  function ParseSnippet(source: string): (r: MutationResult)
    ensures IsBlank(source) ==> r == MutationResult.Err(["Empty source"])
    ensures !IsBlank(source) && !r.success ==>
      exists k :: 0 <= k < |Checks| && PassesBefore(source, k) && !Contains(source, Checks[k].0)
                  && r == MutationResult.Err([Checks[k].1])
    ensures r.success <==> !IsBlank(source) && PassesBefore(source, |Checks|)
    ensures r.success ==> r == MutationResult.Ok(0)
  {
    if IsBlank(source) then MutationResult.Err(["Empty source"])
    else if !Contains(source, "snippet") then
      assert PassesBefore(source, 0);
      MutationResult.Err(["Source must contain 'snippet' declaration"])
    else if !Contains(source, "id=") then
      assert PassesBefore(source, 1);
      MutationResult.Err(["Snippet must have an 'id' attribute"])
    else if !Contains(source, "kind=") then
      assert PassesBefore(source, 2);
      MutationResult.Err(["Snippet must have a 'kind' attribute"])
    else if !Contains(source, "end") then
      assert PassesBefore(source, 3);
      MutationResult.Err(["Snippet must be terminated with 'end'"])
    else MutationResult.Ok(0)
  }

  /** A failed parse reports exactly one error and nothing else. */
  lemma ParseFailureIsSingle(source: string)
    requires !ParseSnippet(source).success
    ensures |ParseSnippet(source).errors| == 1
    ensures ParseSnippet(source).warnings == [] && ParseSnippet(source).newVersion == 0
  {
  }

  /** The empty source is refused as empty. */
  lemma EmptySourceIsRefused()
    ensures ParseSnippet("") == MutationResult.Err(["Empty source"])
  {
  }

  /** A well-formed snippet header and terminator pass pre-validation. */
  lemma WellFormedSnippetPasses()
    ensures ParseSnippet("snippet id=\"test.foo\" kind=\"fn\"\nend") == MutationResult.Ok(0)
  {
    var source := "snippet id=\"test.foo\" kind=\"fn\"\nend";
    assert !IsBlank(source) by { assert !IsSpace(source[0]); }
    ContainsAt(source, "snippet", 0);
    ContainsAt(source, "id=", 8);
    ContainsAt(source, "kind=", 22);
    ContainsAt(source, "end", 32);
    PassesAllChecks(source);
  }

  /** Text matching `p` character by character from position `i` contains `p`. */
  lemma ContainsAt(s: string, p: string, i: nat)
    requires i + |p| <= |s| && forall k :: 0 <= k < |p| ==> s[i + k] == p[k]
    ensures Contains(s, p)
  {
    assert s[i..i + |p|] == p;
    assert OccursAt(s, p, i);
  }

  /** A non-blank source holding every required piece of text passes pre-validation. */
  lemma PassesAllChecks(source: string)
    requires !IsBlank(source)
    requires Contains(source, "snippet") && Contains(source, "id=") && Contains(source, "kind=") && Contains(source, "end")
    ensures ParseSnippet(source) == MutationResult.Ok(0)
  {
  }

  /** A non-blank source that declares a snippet but has no "id=" is refused for the missing id. */
  lemma MissingIdIsReported(source: string)
    requires !IsBlank(source) && Contains(source, "snippet") && !Contains(source, "id=")
    ensures ParseSnippet(source).errors == ["Snippet must have an 'id' attribute"]
  {
  }

  // ---------------------------------------------------------------------------------------
  // Updating

  /** The effects an updated snippet declares: "database" and then "network", each when the
      source mentions `effect database` or `effect network`. */
  function DeclaredEffects(source: string): (e: seq<string>)
    ensures "database" in e <==> Contains(source, "effect database")
    ensures "network" in e <==> Contains(source, "effect network")
    ensures forall x :: x in e ==> x == "database" || x == "network"
    ensures NoDup(e)
  {
    (if Contains(source, "effect database") then ["database"] else [])
    + (if Contains(source, "effect network") then ["network"] else [])
  }

  /** The symbol an update writes, built the way `update_snippet` builds it: a new "fn" symbol in
      file "<runtime>", each declared effect pushed onto both its effects and its effect closure. */
  method BuildSymbol(id: string, source: string) returns (symbol: RuntimeSymbol)
    ensures symbol == SnippetSymbol(id, source)
  {
    symbol := NewSymbol(id, "fn");
    symbol := symbol.(file := "<runtime>");
    if Contains(source, "effect database") {
      symbol := symbol.(effects := symbol.effects + ["database"], effectClosure := symbol.effectClosure + ["database"]);
    }
    if Contains(source, "effect network") {
      symbol := symbol.(effects := symbol.effects + ["network"], effectClosure := symbol.effectClosure + ["network"]);
    }
  }

  /** The symbol of `BuildSymbol`, as a value. */
  function SnippetSymbol(id: string, source: string): RuntimeSymbol {
    NewSymbol(id, "fn").(file := "<runtime>", effects := DeclaredEffects(source),
                         effectClosure := DeclaredEffects(source))
  }

  /** What an update does: its result, and the symbol it writes to the store, if any. */
  datatype Update = Update(result: MutationResult, written: Option<RuntimeSymbol>)

  /** Update a snippet: a source that fails pre-validation returns the parse result unchanged
      and writes nothing; otherwise the snippet's symbol is written and the result is a success
      at the version the store's upsert returns (`upsertVersion`). */
  method UpdateSnippet(id: string, source: string, upsertVersion: nat) returns (u: Update)
    ensures !ParseSnippet(source).success ==> u == Update(ParseSnippet(source), None)
    ensures ParseSnippet(source).success ==>
      u == Update(MutationResult.Ok(upsertVersion), Some(SnippetSymbol(id, source)))
  {
    var parsed := ParseSnippet(source);
    if !parsed.success {
      return Update(parsed, None);
    }
    var symbol := BuildSymbol(id, source);
    u := Update(MutationResult.Ok(upsertVersion), Some(symbol));
  }

  /** A written symbol is a "fn" symbol in "<runtime>" under the updated id, with no calls, and
      carries a declared effect in its effects and its effect closure alike. */
  lemma WrittenSymbolEffects(id: string, source: string)
    ensures SnippetSymbol(id, source).id == id && SnippetSymbol(id, source).kind == "fn"
    ensures SnippetSymbol(id, source).file == "<runtime>" && SnippetSymbol(id, source).line == 0
    ensures SnippetSymbol(id, source).calls == [] && SnippetSymbol(id, source).calledBy == []
    ensures forall x :: x in SnippetSymbol(id, source).effectClosure <==> x in SnippetSymbol(id, source).effects
    ensures "database" in SnippetSymbol(id, source).effectClosure <==> Contains(source, "effect database")
    ensures "network" in SnippetSymbol(id, source).effectClosure <==> Contains(source, "effect network")
  {
  }

  // ---------------------------------------------------------------------------------------
  // Compiling

  /** Compiling a snippet always fails, with one error naming the snippet. */
  function CompileSnippet(id: string): (r: CompileResult)
    ensures !r.success && r.wasm.None? && |r.errors| == 1
    ensures Contains(r.errors[0], id)
  {
    var message := "Compilation not yet implemented for snippet '" + id + "'";
    assert Contains(id, id) by { assert OccursAt(id, id, 0); }
    ContainsAround("Compilation not yet implemented for snippet '", id, "'", id);
    CompileResult.Err([message])
  }

  /** Update then compile: a failed update's errors come back as a failed compilation (and
      nothing is written); otherwise the compilation's result after the write. */
  method RecompileSnippet(id: string, source: string, upsertVersion: nat)
    returns (r: CompileResult, written: Option<RuntimeSymbol>)
    ensures !ParseSnippet(source).success ==>
      r == CompileResult.Err(ParseSnippet(source).errors) && written.None?
    ensures ParseSnippet(source).success ==>
      r == CompileSnippet(id) && written == Some(SnippetSymbol(id, source))
    ensures !r.success && r.wasm.None?
  {
    var update := UpdateSnippet(id, source, upsertVersion);
    written := update.written;
    if !update.result.success {
      return CompileResult.Err(update.result.errors), written;
    }
    r := CompileSnippet(id);
  }
}
