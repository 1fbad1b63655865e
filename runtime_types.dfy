/** The runtime's symbol records, filters, errors and the symbol store, as the query engine and
    the mutator see them. The store's own implementation is not part of this model: it appears
    only through its `list` and `version` operations. */
module RuntimeTypes {
  import opened Wrappers

  /** A symbol of the runtime symbol graph (the fields the query engine and mutator use). */
  datatype RuntimeSymbol = RuntimeSymbol(
    id: string,
    kind: string,
    file: string,
    line: nat,
    effects: seq<string>,
    effectClosure: seq<string>,
    calls: seq<string>,
    calledBy: seq<string>)

  /** `RuntimeSymbol::new(id, kind)`: the given id and kind, every other field empty. */
  function NewSymbol(id: string, kind: string): RuntimeSymbol {
    RuntimeSymbol(id, kind, "", 0, [], [], [], [])
  }

  /** The filter `SymbolStore::list` takes. */
  datatype SymbolFilter = SymbolFilter(
    kind: Option<string>,
    hasEffect: Option<string>,
    callsFn: Option<string>,
    calledByFn: Option<string>)

  /** `SymbolFilter::default()`: no constraint at all. */
  const DefaultFilter := SymbolFilter(None, None, None, None)

  /** The runtime errors the query engine produces. */
  datatype RuntimeError =
    | InvalidQuery(message: string)
    | QueryCancelled

  /** The symbol store as the query engine reads it: the symbols `list` returns for each filter,
      and the current version. */
  datatype SymbolStore = SymbolStore(list: SymbolFilter -> seq<RuntimeSymbol>, version: nat)

  /** A store whose `list` keeps only symbols of the kind the filter asks for. */
  ghost predicate HonoursKind(store: SymbolStore) {
    forall f: SymbolFilter, s: RuntimeSymbol :: f.kind.Some? && s in store.list(f) ==> s.kind == f.kind.value
  }
}
