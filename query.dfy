/** The runtime query engine: a query names a kind of symbol, an optional where clause, an
    optional ordering and a page; `Execute` lists the matching symbols of the store, sorts them
    and cuts out the page. Asynchronous queries are kept in a table of handles by the
    `QueryEngine` class, each Pending until it is processed or cancelled. */
module Query {
  import opened Wrappers
  import opened Seqs
  import opened RuntimeTypes

  /** Opaque handle of an asynchronous query. */
  type QueryHandle = nat

  /** Status of an asynchronous query. */
  datatype QueryStatus = Pending | Complete | Error | Cancelled

  /** A where clause after JSON parsing: only strings and objects are looked at. */
  datatype Json = JString(str: string) | JObject(fields: map<string, Json>) | JOther

  /** A query request. Limit and offset are `u32` in the source. */
  datatype QueryRequest = QueryRequest(
    selectClause: string,
    fromType: string,
    whereClause: Option<Json>,
    orderBy: Option<string>,
    limit: Option<nat>,
    offset: Option<nat>)

  /** The result of a query. */
  datatype QueryResult = QueryResult(symbols: seq<RuntimeSymbol>, version: nat, hasMore: bool)

  // ---------------------------------------------------------------------------------------
  // The kind a query selects

  /** The `from_type` names that select one kind, and the kinds they select, position by
      position. */
  const FromTypeNames: seq<string> := ["functions", "structs", "enums", "modules", "databases", "externs"]
  const KindNames: seq<string> := ["fn", "struct", "enum", "module", "database", "extern"]

  /** The kind filter of a `from_type`: one of the six names selects its kind, "all" and "*"
      select every kind, and any other name is an invalid query. */
  function KindFilter(fromType: string): (r: Result<Option<string>, RuntimeError>)
    ensures (r.Ok? && r.value.Some?) <==> fromType in FromTypeNames
    ensures forall i :: 0 <= i < |FromTypeNames| && fromType == FromTypeNames[i] ==> r == Ok(Some(KindNames[i]))
    ensures r == Ok(None) <==> (fromType == "all" || fromType == "*")
    ensures r.Err? ==> r.error == InvalidQuery("Unknown from_type: " + fromType)
  {
    if fromType == "functions" then Ok(Some("fn"))
    else if fromType == "structs" then Ok(Some("struct"))
    else if fromType == "enums" then Ok(Some("enum"))
    else if fromType == "modules" then Ok(Some("module"))
    else if fromType == "databases" then Ok(Some("database"))
    else if fromType == "externs" then Ok(Some("extern"))
    else if fromType == "all" || fromType == "*" then Ok(None)
    else Err(InvalidQuery("Unknown from_type: " + fromType))
  }

  /** Different `from_type` names never select the same kind. */
  lemma KindFilterInjective(a: string, b: string)
    requires KindFilter(a).Ok? && KindFilter(a).value.Some?
    requires KindFilter(a) == KindFilter(b)
    ensures a == b
  {
    var i :| 0 <= i < |FromTypeNames| && a == FromTypeNames[i];
    var j :| 0 <= j < |FromTypeNames| && b == FromTypeNames[j];
    assert KindNames[i] == KindNames[j];
  }

  // ---------------------------------------------------------------------------------------
  // The where clause

  /** The string stored under `key`, if there is one. */
  function StrAt(obj: map<string, Json>, key: string): Option<string> {
    if key in obj && obj[key].JString? then Some(obj[key].str) else None
  }

  /** The value of a `contains` entry whose field is "effects", if there is one. */
  function ContainsEffect(obj: map<string, Json>): Option<string> {
    if "contains" in obj && obj["contains"].JObject?
       && StrAt(obj["contains"].fields, "field") == Some("effects")
    then StrAt(obj["contains"].fields, "value")
    else None
  }

  /** The filter after a where clause: each string-valued key sets its part of the filter, and
      a `contains` entry on the effects field is applied last, so it decides `hasEffect`; a
      clause that is not an object changes nothing. */
  function ApplyWhere(filter: SymbolFilter, parsed: Json): (r: SymbolFilter)
    ensures !parsed.JObject? ==> r == filter
    ensures parsed.JObject? ==>
      var obj := parsed.fields;
      && (ContainsEffect(obj).Some? ==> r.hasEffect == ContainsEffect(obj))
      && (ContainsEffect(obj).None? && StrAt(obj, "has_effect").Some? ==> r.hasEffect == StrAt(obj, "has_effect"))
      && (ContainsEffect(obj).None? && StrAt(obj, "has_effect").None? ==> r.hasEffect == filter.hasEffect)
      && r.callsFn == (if StrAt(obj, "calls").Some? then StrAt(obj, "calls") else filter.callsFn)
      && r.calledByFn == (if StrAt(obj, "called_by").Some? then StrAt(obj, "called_by") else filter.calledByFn)
      && r.kind == (if StrAt(obj, "kind").Some? then StrAt(obj, "kind") else filter.kind)
  {
    match parsed
    case JObject(obj) =>
      var f1 := if StrAt(obj, "has_effect").Some? then filter.(hasEffect := StrAt(obj, "has_effect")) else filter;
      var f2 := if StrAt(obj, "calls").Some? then f1.(callsFn := StrAt(obj, "calls")) else f1;
      var f3 := if StrAt(obj, "called_by").Some? then f2.(calledByFn := StrAt(obj, "called_by")) else f2;
      var f4 := if StrAt(obj, "kind").Some? then f3.(kind := StrAt(obj, "kind")) else f3;
      if ContainsEffect(obj).Some? then f4.(hasEffect := ContainsEffect(obj)) else f4
    case _ => filter
  }

  /** A `contains` entry on the effects field wins over a `has_effect` key in the same clause. */
  lemma ContainsWins(filter: SymbolFilter, effect: string, other: string)
    ensures ApplyWhere(filter, JObject(map["has_effect" := JString(other),
                                          "contains" := JObject(map["field" := JString("effects"),
                                                                    "value" := JString(effect)])])).hasEffect
            == Some(effect)
  {
    var inner := map["field" := JString("effects"), "value" := JString(effect)];
    var obj := map["has_effect" := JString(other), "contains" := JObject(inner)];
    assert StrAt(inner, "field") == Some("effects");
    assert ContainsEffect(obj) == Some(effect);
  }

  /** Applying the same clause twice gives the filter of applying it once. */
  lemma WhereIdempotent(filter: SymbolFilter, parsed: Json)
    ensures ApplyWhere(ApplyWhere(filter, parsed), parsed) == ApplyWhere(filter, parsed)
  {
  }

  /** The filter of a request: the kind of its `from_type`, refined by its where clause. */
  function QueryFilter(request: QueryRequest): Result<SymbolFilter, RuntimeError> {
    match KindFilter(request.fromType)
    case Err(e) => Err(e)
    case Ok(kind) =>
      var filter := DefaultFilter.(kind := kind);
      Ok(if request.whereClause.Some? then ApplyWhere(filter, request.whereClause.value) else filter)
  }

  /** A where clause that sets the kind explicitly. */
  predicate SetsKind(parsed: Json) {
    parsed.JObject? && StrAt(parsed.fields, "kind").Some?
  }

  /** Without a kind in its where clause the request's filter asks for its `from_type`'s kind. */
  lemma FilterKindOfRequest(request: QueryRequest)
    requires KindFilter(request.fromType).Ok?
    requires request.whereClause.None? || !SetsKind(request.whereClause.value)
    ensures QueryFilter(request).Ok?
    ensures QueryFilter(request).value.kind == KindFilter(request.fromType).value
  {
  }

  // ---------------------------------------------------------------------------------------
  // Ordering

  /** The fields results can be ordered by. */
  datatype OrderField = ById | ByKind | ByFile | ByLine

  /** An ordering: a field and a direction. */
  datatype Ordering = Ordering(field: OrderField, ascending: bool)

  /** The name of each field in an order string. */
  function FieldName(f: OrderField): string {
    match f
    case ById => "id"
    case ByKind => "kind"
    case ByFile => "file"
    case ByLine => "line"
  }

  /** The direction part of a split order string; "asc" when there is none. */
  function DirectionPart(parts: seq<string>): string {
    if |parts| > 1 then parts[1] else "asc"
  }

  /** The ordering an order string `field:dir` names. The direction is checked first: anything
      but "asc" or "desc" is an error, then a field other than id/kind/file/line is. The split
      always has a first piece, so the field never takes its "id" default: an empty string is an
      unknown field. */
  function ParseOrder(order: string): (r: Result<Ordering, RuntimeError>)
    ensures var parts := Split(order, ':');
      var dir := DirectionPart(parts);
      && (r.Ok? <==> (dir == "asc" || dir == "desc") && parts[0] in {"id", "kind", "file", "line"})
      && (dir != "asc" && dir != "desc" ==> r == Err(InvalidQuery("Invalid order direction: " + dir)))
      && ((dir == "asc" || dir == "desc") && parts[0] !in {"id", "kind", "file", "line"} ==>
            r == Err(InvalidQuery("Unknown order field: " + parts[0])))
      && (r.Ok? ==> FieldName(r.value.field) == parts[0] && r.value.ascending == (dir == "asc"))
  {
    var parts := Split(order, ':');
    var field := parts[0];
    var dir := DirectionPart(parts);
    if dir != "asc" && dir != "desc" then Err(InvalidQuery("Invalid order direction: " + dir))
    else
      var ascending := dir == "asc";
      if field == "id" then Ok(Ordering(ById, ascending))
      else if field == "kind" then Ok(Ordering(ByKind, ascending))
      else if field == "file" then Ok(Ordering(ByFile, ascending))
      else if field == "line" then Ok(Ordering(ByLine, ascending))
      else Err(InvalidQuery("Unknown order field: " + field))
  }

  /** The order string of an ordering. */
  function OrderString(o: Ordering): string {
    FieldName(o.field) + ":" + (if o.ascending then "asc" else "desc")
  }

  /** Every ordering reads back from its order string. */
  lemma OrderRoundTrip(o: Ordering)
    ensures ParseOrder(OrderString(o)) == Ok(o)
  {
    var dir := if o.ascending then "asc" else "desc";
    assert ':' !in FieldName(o.field);
    assert ':' !in dir;
    SplitAfter(FieldName(o.field), ':', dir);
    SplitWithout(dir, ':');
    assert Split(OrderString(o), ':') == [FieldName(o.field), dir];
  }

  /** A field name alone orders ascending. */
  lemma FieldAloneIsAscending(f: OrderField)
    ensures ParseOrder(FieldName(f)) == Ok(Ordering(f, true))
  {
    SplitWithout(FieldName(f), ':');
  }

  /** The empty order string names no field. */
  lemma EmptyOrderIsUnknownField()
    ensures ParseOrder("") == Err(InvalidQuery("Unknown order field: "))
  {
    assert Split("", ':') == [""];
    assert DirectionPart([""]) == "asc";
    assert "Unknown order field: " + "" == "Unknown order field: ";
  }

  /** The ordering of a request: by id ascending when it names none. */
  function RequestOrdering(orderBy: Option<string>): Result<Ordering, RuntimeError> {
    match orderBy
    case None => Ok(Ordering(ById, true))
    case Some(order) => ParseOrder(order)
  }

  // ---------------------------------------------------------------------------------------
  // Sorting (the library's stable `sort_by`, on values)

  /** Lexicographic order of strings by character code (Rust's `String` order). */
  function StrLe(a: string, b: string): (le: bool)
    ensures le <==> IsPrefix(a, b) || FirstDifferenceBelow(a, b)
  {
    if a == [] then true
    else if b == [] then false
    else if a[0] != b[0] then
      assert a[..0] == b[..0];
      a[0] < b[0]
    else
      var le := StrLe(a[1..], b[1..]);
      assert IsPrefix(a[1..], b[1..]) <==> IsPrefix(a, b) by {
        if IsPrefix(a[1..], b[1..]) { assert b[..|a|] == [b[0]] + b[1..][..|a| - 1]; assert a == [a[0]] + a[1..]; }
        if IsPrefix(a, b) { assert b[1..][..|a| - 1] == b[..|a|][1..]; }
      }
      assert FirstDifferenceBelow(a[1..], b[1..]) ==> FirstDifferenceBelow(a, b) by {
        if FirstDifferenceBelow(a[1..], b[1..]) {
          var k :| 0 <= k < |a[1..]| && k < |b[1..]| && a[1..][..k] == b[1..][..k] && a[1..][k] < b[1..][k];
          assert a[..k + 1] == [a[0]] + a[1..][..k] && b[..k + 1] == [b[0]] + b[1..][..k];
          assert a[k + 1] < b[k + 1];
        }
      }
      assert FirstDifferenceBelow(a, b) ==> FirstDifferenceBelow(a[1..], b[1..]) by {
        if FirstDifferenceBelow(a, b) {
          var k :| 0 <= k < |a| && k < |b| && a[..k] == b[..k] && a[k] < b[k];
          assert k > 0;
          assert a[1..][..k - 1] == a[..k][1..] && b[1..][..k - 1] == b[..k][1..];
          assert a[1..][k - 1] < b[1..][k - 1];
        }
      }
      le
  }

  /** At the first position where `a` and `b` differ, `a` has the smaller character. */
  predicate FirstDifferenceBelow(a: string, b: string) {
    exists k :: 0 <= k < |a| && k < |b| && a[..k] == b[..k] && a[k] < b[k]
  }

  lemma {:induction false} StrLeTotal(a: string, b: string)
    ensures StrLe(a, b) || StrLe(b, a)
  {
    if a != [] && b != [] && a[0] == b[0] {
      StrLeTotal(a[1..], b[1..]);
    }
  }

  lemma {:induction false} StrLeTrans(a: string, b: string, c: string)
    requires StrLe(a, b) && StrLe(b, c)
    ensures StrLe(a, c)
  {
    if a != [] && b != [] && c != [] && a[0] == b[0] == c[0] {
      StrLeTrans(a[1..], b[1..], c[1..]);
    }
  }

  lemma {:induction false} StrLeRefl(a: string)
    ensures StrLe(a, a)
  {
    if a != [] {
      StrLeRefl(a[1..]);
    }
  }

  /** `x`'s key is at most `y`'s. */
  predicate KeyLe(x: RuntimeSymbol, y: RuntimeSymbol, f: OrderField) {
    match f
    case ById => StrLe(x.id, y.id)
    case ByKind => StrLe(x.kind, y.kind)
    case ByFile => StrLe(x.file, y.file)
    case ByLine => x.line <= y.line
  }

  /** `x` and `y` have the same key. */
  predicate SameKey(x: RuntimeSymbol, y: RuntimeSymbol, f: OrderField) {
    match f
    case ById => x.id == y.id
    case ByKind => x.kind == y.kind
    case ByFile => x.file == y.file
    case ByLine => x.line == y.line
  }

  /** `x` may come before `y` in the ordering: ascending keys, or descending ones. */
  predicate Before(x: RuntimeSymbol, y: RuntimeSymbol, o: Ordering) {
    if o.ascending then KeyLe(x, y, o.field) else KeyLe(y, x, o.field)
  }

  lemma BeforeTotal(x: RuntimeSymbol, y: RuntimeSymbol, o: Ordering)
    ensures Before(x, y, o) || Before(y, x, o)
  {
    match o.field
    case ById => StrLeTotal(x.id, y.id);
    case ByKind => StrLeTotal(x.kind, y.kind);
    case ByFile => StrLeTotal(x.file, y.file);
    case ByLine =>
  }

  lemma BeforeTrans(x: RuntimeSymbol, y: RuntimeSymbol, z: RuntimeSymbol, o: Ordering)
    requires Before(x, y, o) && Before(y, z, o)
    ensures Before(x, z, o)
  {
    match o.field
    case ById => if o.ascending { StrLeTrans(x.id, y.id, z.id); } else { StrLeTrans(z.id, y.id, x.id); }
    case ByKind => if o.ascending { StrLeTrans(x.kind, y.kind, z.kind); } else { StrLeTrans(z.kind, y.kind, x.kind); }
    case ByFile => if o.ascending { StrLeTrans(x.file, y.file, z.file); } else { StrLeTrans(z.file, y.file, x.file); }
    case ByLine =>
  }

  lemma SameKeyBefore(x: RuntimeSymbol, y: RuntimeSymbol, o: Ordering)
    requires SameKey(x, y, o.field)
    ensures Before(x, y, o)
  {
    match o.field
    case ById => StrLeRefl(x.id);
    case ByKind => StrLeRefl(x.kind);
    case ByFile => StrLeRefl(x.file);
    case ByLine =>
  }

  /** Each neighbour may come before the next. */
  predicate SortedBy(s: seq<RuntimeSymbol>, o: Ordering) {
    forall i :: 0 <= i < |s| - 1 ==> Before(s[i], s[i + 1], o)
  }

  /** `x` placed before the first element it may precede. */
  function Insert(x: RuntimeSymbol, t: seq<RuntimeSymbol>, o: Ordering): (r: seq<RuntimeSymbol>)
    ensures |r| == |t| + 1
    ensures multiset(r) == multiset(t) + multiset{x}
    ensures r[0] == x || (t != [] && r[0] == t[0])
  {
    if t == [] || Before(x, t[0], o) then [x] + t
    else
      assert t == [t[0]] + t[1..];
      [t[0]] + Insert(x, t[1..], o)
  }

  /** Inserting into a sorted sequence keeps it sorted. */
  lemma {:induction false} InsertSorted(x: RuntimeSymbol, t: seq<RuntimeSymbol>, o: Ordering)
    requires SortedBy(t, o)
    ensures SortedBy(Insert(x, t, o), o)
  {
    if t != [] && !Before(x, t[0], o) {
      var rest := Insert(x, t[1..], o);
      assert SortedBy(t[1..], o) by {
        forall i | 0 <= i < |t[1..]| - 1 ensures Before(t[1..][i], t[1..][i + 1], o) {
          assert t[1..][i] == t[i + 1] && t[1..][i + 1] == t[i + 2];
        }
      }
      InsertSorted(x, t[1..], o);
      BeforeTotal(x, t[0], o);
      assert Before(t[0], rest[0], o);
      SortedCons(t[0], rest, o);
    }
  }

  /** A sorted sequence stays sorted behind an element that may precede its head. */
  lemma SortedCons(a: RuntimeSymbol, s: seq<RuntimeSymbol>, o: Ordering)
    requires SortedBy(s, o) && s != [] && Before(a, s[0], o)
    ensures SortedBy([a] + s, o)
  {
    forall i | 0 <= i < |[a] + s| - 1 ensures Before(([a] + s)[i], ([a] + s)[i + 1], o) {
      if i > 0 {
        assert ([a] + s)[i] == s[i - 1] && ([a] + s)[i + 1] == s[i];
      }
    }
  }

  /** Insertion sort: a stable sort of `s` by `o`, the same symbols in order. */
  function Sort(s: seq<RuntimeSymbol>, o: Ordering): (r: seq<RuntimeSymbol>)
    ensures multiset(r) == multiset(s)
    ensures SortedBy(r, o)
  {
    if s == [] then []
    else
      assert s == [s[0]] + s[1..];
      InsertSorted(s[0], Sort(s[1..], o), o);
      Insert(s[0], Sort(s[1..], o), o)
  }

  /** Sorted neighbours make every earlier element come before every later one; descending
      orderings therefore list keys from the largest down. */
  lemma {:induction false} SortedPairwise(s: seq<RuntimeSymbol>, o: Ordering)
    requires SortedBy(s, o)
    ensures forall i, j :: 0 <= i < j < |s| ==> Before(s[i], s[j], o)
  {
    if |s| > 1 {
      SortedPairwise(s[1..], o);
      forall j | 1 < j < |s| ensures Before(s[0], s[j], o) {
        assert Before(s[1], s[j], o) by { assert s[1..][0] == s[1] && s[1..][j - 1] == s[j]; }
        BeforeTrans(s[0], s[1], s[j], o);
      }
      forall i, j | 0 < i < j < |s| ensures Before(s[i], s[j], o) {
        assert s[1..][i - 1] == s[i] && s[1..][j - 1] == s[j];
      }
    }
  }

  /** The symbols with the same key as `k`. */
  function SameKeyAs(k: RuntimeSymbol, f: OrderField): RuntimeSymbol -> bool {
    (y: RuntimeSymbol) => SameKey(y, k, f)
  }

  /** Inserting `x` keeps it ahead of the symbols with its key. */
  lemma {:induction false} InsertStable(x: RuntimeSymbol, t: seq<RuntimeSymbol>, o: Ordering, k: RuntimeSymbol)
    ensures Filter(Insert(x, t, o), SameKeyAs(k, o.field))
         == (if SameKey(x, k, o.field) then [x] else []) + Filter(t, SameKeyAs(k, o.field))
  {
    var p := SameKeyAs(k, o.field);
    var head := if SameKey(x, k, o.field) then [x] else [];
    if t == [] || Before(x, t[0], o) {
      var r := [x] + t;
      assert r[0] == x && r[1..] == t;
    } else {
      var r := Insert(x, t[1..], o);
      InsertStable(x, t[1..], o, k);
      assert ([t[0]] + r)[0] == t[0] && ([t[0]] + r)[1..] == r;
      if p(t[0]) && SameKey(x, k, o.field) {
        assert SameKey(x, t[0], o.field);
        SameKeyBefore(x, t[0], o);
      }
      if p(t[0]) {
        AppendAssoc([t[0]], head, Filter(t[1..], p));
      }
    }
  }

  /** Sorting is stable: the symbols sharing a key keep their relative order. */
  lemma {:induction false} SortStable(s: seq<RuntimeSymbol>, o: Ordering, k: RuntimeSymbol)
    ensures Filter(Sort(s, o), SameKeyAs(k, o.field)) == Filter(s, SameKeyAs(k, o.field))
  {
    if s != [] {
      SortStable(s[1..], o, k);
      InsertStable(s[0], Sort(s[1..], o), o, k);
    }
  }

  // ---------------------------------------------------------------------------------------
  // Pagination

  function Min(a: nat, b: nat): nat {
    if a <= b then a else b
  }

  /** A page of results and whether more results follow. */
  datatype Page = Page(symbols: seq<RuntimeSymbol>, hasMore: bool)

  /** Offset/limit pagination. The page is the slice from the offset (at most the length) of
      `limit` symbols (everything when there is no limit), and more follow exactly when the
      offset plus the page size falls short of the total. */
  function Paginate(symbols: seq<RuntimeSymbol>, offset: Option<nat>, limit: Option<nat>): (r: Page)
    ensures var start := Min(offset.GetOr(0), |symbols|);
      r.symbols == symbols[start..if limit.Some? then Min(start + limit.value, |symbols|) else |symbols|]
    ensures limit.Some? ==> |r.symbols| <= limit.value
    ensures |r.symbols| <= |symbols|
    ensures r.hasMore <==> offset.GetOr(0) + |r.symbols| < |symbols|
  {
    var off := offset.GetOr(0);
    var page :=
      if off > 0 || limit.Some? then
        var start := Min(off, |symbols|);
        var end := if limit.Some? then Min(start + limit.value, |symbols|) else |symbols|;
        symbols[start..end]
      else symbols;
    Page(page, off + |page| < |symbols|)
  }

  /** More results follow exactly when the page starting after this one is not empty. */
  lemma HasMoreIffNextPage(symbols: seq<RuntimeSymbol>, offset: nat, limit: Option<nat>)
    ensures var page := Paginate(symbols, Some(offset), limit);
      page.hasMore <==> Paginate(symbols, Some(offset + |page.symbols|), None).symbols != []
  {
  }

  /** Two adjoining pages of `limit` make the page of twice the limit. */
  lemma PagesAdjoin(symbols: seq<RuntimeSymbol>, offset: nat, limit: nat)
    ensures Paginate(symbols, Some(offset), Some(limit)).symbols
          + Paginate(symbols, Some(offset + limit), Some(limit)).symbols
         == Paginate(symbols, Some(offset), Some(2 * limit)).symbols
  {
    var n := |symbols|;
    var a := Min(offset, n);
    var b := Min(a + limit, n);
    var c := Min(offset + limit, n);
    assert b == c;
    assert symbols[a..b] + symbols[b..Min(b + limit, n)] == symbols[a..Min(b + limit, n)];
  }

  /** Two of three results with no offset: more follow. */
  lemma FirstTwoOfThree(symbols: seq<RuntimeSymbol>)
    requires |symbols| == 3
    ensures Paginate(symbols, Some(0), Some(2)) == Page(symbols[..2], true)
  {
  }

  lemma SortedSlice(s: seq<RuntimeSymbol>, o: Ordering, i: nat, j: nat)
    requires SortedBy(s, o) && i <= j <= |s|
    ensures SortedBy(s[i..j], o)
  {
    forall k | 0 <= k < j - i - 1 ensures Before(s[i..j][k], s[i..j][k + 1], o) {
      assert s[i..j][k] == s[i + k] && s[i..j][k + 1] == s[i + k + 1];
    }
  }

  lemma SliceMultiset(s: seq<RuntimeSymbol>, i: nat, j: nat)
    requires i <= j <= |s|
    ensures multiset(s[i..j]) <= multiset(s)
  {
    assert s == s[..i] + s[i..j] + s[j..];
  }

  /** A page of a sorted sequence is sorted and holds some of its symbols, all of them when the
      page starts at 0 with no limit. */
  lemma PageOfSorted(sorted: seq<RuntimeSymbol>, o: Ordering, offset: Option<nat>, limit: Option<nat>)
    requires SortedBy(sorted, o)
    ensures SortedBy(Paginate(sorted, offset, limit).symbols, o)
    ensures multiset(Paginate(sorted, offset, limit).symbols) <= multiset(sorted)
    ensures offset.GetOr(0) == 0 && limit.None? ==> Paginate(sorted, offset, limit).symbols == sorted
  {
    var start := Min(offset.GetOr(0), |sorted|);
    var end := if limit.Some? then Min(start + limit.value, |sorted|) else |sorted|;
    SortedSlice(sorted, o, start, end);
    SliceMultiset(sorted, start, end);
    assert offset.GetOr(0) == 0 && limit.None? ==> sorted[start..end] == sorted;
  }

  // ---------------------------------------------------------------------------------------
  // Executing a query

  /** Execute a query against the store: an unknown `from_type` or a bad ordering is an error;
      otherwise the page holds symbols the store lists for the request's filter, sorted by the
      request's ordering (id ascending by default), with the store's version, and `hasMore`
      says whether the offset plus the page falls short of all matches. */
  function Execute(store: SymbolStore, request: QueryRequest): (r: Result<QueryResult, RuntimeError>)
    ensures KindFilter(request.fromType).Err? ==> r == Err(KindFilter(request.fromType).error)
    ensures KindFilter(request.fromType).Ok? && RequestOrdering(request.orderBy).Err? ==>
      r == Err(RequestOrdering(request.orderBy).error)
    ensures r.Ok? <==> KindFilter(request.fromType).Ok? && RequestOrdering(request.orderBy).Ok?
    ensures r.Ok? ==>
      var matches := store.list(QueryFilter(request).value);
      && r.value.version == store.version
      && SortedBy(r.value.symbols, RequestOrdering(request.orderBy).value)
      && multiset(r.value.symbols) <= multiset(matches)
      && (request.offset.GetOr(0) == 0 && request.limit.None? ==> multiset(r.value.symbols) == multiset(matches))
      && (request.limit.Some? ==> |r.value.symbols| <= request.limit.value)
      && (r.value.hasMore <==> request.offset.GetOr(0) + |r.value.symbols| < |matches|)
    ensures r.Ok? ==>
      var page := Paginate(Sort(store.list(QueryFilter(request).value), RequestOrdering(request.orderBy).value),
                           request.offset, request.limit);
      r.value.symbols == page.symbols && r.value.hasMore == page.hasMore
  {
    match QueryFilter(request)
    case Err(e) => Err(e)
    case Ok(filter) =>
      var symbols := store.list(filter);
      match RequestOrdering(request.orderBy)
      case Err(e) => Err(e)
      case Ok(o) =>
        var sorted := Sort(symbols, o);
        var page := Paginate(sorted, request.offset, request.limit);
        PageOfSorted(sorted, o, request.offset, request.limit);
        Ok(QueryResult(page.symbols, store.version, page.hasMore))
  }

  /** From a store that honours kind filters, a query for one kind without a kind of its own in
      the where clause returns only symbols of that kind. */
  lemma ExecuteSelectsKind(store: SymbolStore, request: QueryRequest)
    requires HonoursKind(store)
    requires KindFilter(request.fromType).Ok? && KindFilter(request.fromType).value.Some?
    requires request.whereClause.None? || !SetsKind(request.whereClause.value)
    requires Execute(store, request).Ok?
    ensures forall s :: s in Execute(store, request).value.symbols ==> s.kind == KindFilter(request.fromType).value.value
  {
    FilterKindOfRequest(request);
    var filter := QueryFilter(request).value;
    forall s | s in Execute(store, request).value.symbols
      ensures s.kind == KindFilter(request.fromType).value.value
    {
      assert s in multiset(Execute(store, request).value.symbols);
      assert s in store.list(filter);
    }
  }

  /** Without an ordering, results come by id ascending, every earlier id at most every later. */
  lemma DefaultOrderIsIdAscending(store: SymbolStore, request: QueryRequest)
    requires request.orderBy.None? && Execute(store, request).Ok?
    ensures var symbols := Execute(store, request).value.symbols;
      forall i, j :: 0 <= i < j < |symbols| ==> StrLe(symbols[i].id, symbols[j].id)
  {
    SortedPairwise(Execute(store, request).value.symbols, Ordering(ById, true));
  }

  // ---------------------------------------------------------------------------------------
  // Asynchronous queries

  /** An asynchronous query: its request, its status and, once finished, its result. */
  datatype AsyncQuery = AsyncQuery(request: QueryRequest, status: QueryStatus,
                                   result: Option<Result<QueryResult, RuntimeError>>)

  /** The status and the result of a query agree: a Pending query has no result yet, a Complete
      one a success, an Error one a failure, and a Cancelled one the cancellation error. */
  predicate Consistent(q: AsyncQuery) {
    match q.status
    case Pending => q.result.None?
    case Complete => q.result.Some? && q.result.value.Ok?
    case Error => q.result.Some? && q.result.value.Err?
    case Cancelled => q.result == Some(Err(QueryCancelled))
  }

  /** The queries of `m` that are still Pending. */
  function RetainPending(m: map<QueryHandle, AsyncQuery>): (r: map<QueryHandle, AsyncQuery>)
    ensures forall h :: h in r <==> h in m && m[h].status == Pending
    ensures forall h :: h in r ==> r[h] == m[h]
  {
    map h | h in m && m[h].status == Pending :: m[h]
  }

  /** The query engine: a handle counter and the table of asynchronous queries. */
  class QueryEngine {
    var nextHandle: QueryHandle
    var pending: map<QueryHandle, AsyncQuery>

    /** Every handle in the table was handed out (from 1, below the counter), and every query's
        status agrees with its result. */
    ghost predicate Valid()
      reads this
    {
      1 <= nextHandle
      && (forall h :: h in pending ==> 1 <= h < nextHandle)
      && (forall h :: h in pending ==> Consistent(pending[h]))
    }

    /** A new engine: handles start at 1 and no query is known. */
    constructor ()
      ensures Valid()
      ensures nextHandle == 1 && pending == map[]
    {
      nextHandle := 1;
      pending := map[];
    }

    /** Start a query: it gets the next handle, which is new, and is Pending. */
    method StartQuery(request: QueryRequest) returns (handle: QueryHandle)
      requires Valid()
      modifies this
      ensures Valid()
      ensures handle == old(nextHandle) && nextHandle == handle + 1
      ensures handle !in old(pending)
      ensures pending == old(pending)[handle := AsyncQuery(request, Pending, None)]
      ensures PollQuery(handle) == Pending
    {
      handle := nextHandle;
      nextHandle := nextHandle + 1;
      pending := pending[handle := AsyncQuery(request, Pending, None)];
    }

    /** The status of a query; an unknown handle reads as Error. */
    function PollQuery(handle: QueryHandle): (s: QueryStatus)
      reads this
      ensures handle !in pending ==> s == Error
      ensures handle in pending ==> s == pending[handle].status
    {
      if handle in pending then pending[handle].status else Error
    }

    /** Process a query: a Pending one gets the result of executing its request, Complete on
        success and Error on failure; any other handle changes nothing. */
    method ProcessQuery(handle: QueryHandle, store: SymbolStore)
      requires Valid()
      modifies this
      ensures Valid()
      ensures nextHandle == old(nextHandle)
      ensures old(PollQuery(handle)) == Pending && handle in old(pending) ==>
        var result := Execute(store, old(pending)[handle].request);
        pending == old(pending)[handle := AsyncQuery(old(pending)[handle].request,
                                                     if result.Ok? then Complete else Error,
                                                     Some(result))]
      ensures !(old(PollQuery(handle)) == Pending && handle in old(pending)) ==> pending == old(pending)
    {
      if handle in pending && pending[handle].status == Pending {
        var request := pending[handle].request;
        var result := Execute(store, request);
        var status := if result.Ok? then Complete else Error;
        pending := pending[handle := AsyncQuery(request, status, Some(result))];
      }
    }

    /** The result of a query, once it has one. */
    function GetResult(handle: QueryHandle): (r: Option<Result<QueryResult, RuntimeError>>)
      reads this
      ensures r.None? <==> handle !in pending || pending[handle].result.None?
      ensures r.Some? ==> r == pending[handle].result
    {
      if handle in pending then pending[handle].result else None
    }

    /** Cancel a query: only a Pending one changes, to Cancelled with the cancellation error. */
    method CancelQuery(handle: QueryHandle)
      requires Valid()
      modifies this
      ensures Valid()
      ensures nextHandle == old(nextHandle)
      ensures old(PollQuery(handle)) == Pending && handle in old(pending) ==>
        pending == old(pending)[handle := old(pending)[handle].(status := Cancelled,
                                                                  result := Some(Err(QueryCancelled)))]
      ensures !(old(PollQuery(handle)) == Pending && handle in old(pending)) ==> pending == old(pending)
    {
      if handle in pending && pending[handle].status == Pending {
        pending := pending[handle := pending[handle].(status := Cancelled, result := Some(Err(QueryCancelled)))];
      }
    }

    /** Drop every query that is no longer Pending. */
    method CleanupCompleted()
      requires Valid()
      modifies this
      ensures Valid()
      ensures nextHandle == old(nextHandle)
      ensures pending == RetainPending(old(pending))
    {
      pending := RetainPending(pending);
    }
  }

  /** In a valid engine a query has a result exactly when it is known and no longer Pending. */
  lemma ResultOnceFinished(engine: QueryEngine, handle: QueryHandle)
    requires engine.Valid()
    ensures engine.GetResult(handle).Some? <==> handle in engine.pending && engine.PollQuery(handle) != Pending
  {
  }

  /** Start a query, then process it: it is Complete exactly when its request executes, and
      its result is that execution's. */
  method StartThenProcess(engine: QueryEngine, request: QueryRequest, store: SymbolStore)
    returns (handle: QueryHandle)
    requires engine.Valid()
    modifies engine
    ensures engine.Valid()
    ensures engine.PollQuery(handle) == (if Execute(store, request).Ok? then Complete else Error)
    ensures engine.GetResult(handle) == Some(Execute(store, request))
  {
    handle := engine.StartQuery(request);
    engine.ProcessQuery(handle, store);
  }
}
