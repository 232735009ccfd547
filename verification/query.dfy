/** List-query parsing: pagination, sorting and `filter[field][op]` keys taken
    from URL query values, and the translation of filters into WHERE clauses. */
module Query {
  import opened Text
  import opened AppErrors

  const MaxInt64: int := 0x7FFF_FFFF_FFFF_FFFF
  const MinInt64: int := -0x8000_0000_0000_0000

  /** URL query values: every key maps to the values given for it, in order. */
  type Values = map<string, seq<string>>

  /** Filters: field -> operator -> value. */
  type Filters = map<string, map<string, string>>

  datatype QueryParams = QueryParams(page: int, limit: int, sort: string, order: string, filters: Filters)

  /** The parameters of a list request that names none. */
  function NewQueryParams(): (q: QueryParams)
    ensures q.page == 1 && q.limit == 20 && q.sort == "id" && q.order == "ASC"
    ensures q.filters == map[]
  {
    QueryParams(1, 20, "id", "ASC", map[])
  }

  /** The first value given for a key, or "" when there is none. */
  function Get(values: Values, key: string): (v: string)
    ensures key in values && values[key] != [] ==> v == values[key][0]
    ensures !(key in values && values[key] != []) ==> v == ""
  {
    if key in values && values[key] != [] then values[key][0] else ""
  }

  /** Base-10 integer parsing with an optional sign, rejecting anything outside 64 bits. */
  function Atoi(s: string): (r: Option<int>)
    ensures r.Some? ==> MinInt64 <= r.value <= MaxInt64
  {
    if s == [] then None
    else
      var neg := s[0] == '-';
      var body := if s[0] == '+' || s[0] == '-' then s[1..] else s;
      if body == [] || !AllDigits(body) then None
      else
        var v: int := if neg then 0 - DigitsValue(body) as int else DigitsValue(body);
        if MinInt64 <= v <= MaxInt64 then Some(v) else None
  }

  /** Every 64-bit natural number written in decimal parses back to itself. */
  lemma AtoiDecimal(n: nat)
    requires n <= MaxInt64
    ensures Atoi(Decimal(n)) == Some(n)
  {
    DecimalIsCanonical(n);
  }

  /** A value replaces the default only when it parses as an integer greater than zero. */
  function PositiveOr(s: string, default: int): (r: int)
    ensures (Atoi(s).Some? && Atoi(s).value > 0) ==> r == Atoi(s).value
    ensures !(Atoi(s).Some? && Atoi(s).value > 0) ==> r == default
  {
    match Atoi(s)
    case Some(p) => if p > 0 then p else default
    case None => default
  }

  /** A sort order is upper-cased and kept only when it is ASC or DESC. */
  function NormalisedOrder(v: string, default: string): (r: string)
    ensures r == default || r == "ASC" || r == "DESC"
    ensures (ToUpper(v) == "ASC" || ToUpper(v) == "DESC") ==> r == ToUpper(v)
    ensures (ToUpper(v) != "ASC" && ToUpper(v) != "DESC") ==> r == default
  {
    var up := ToUpper(v);
    if up == "ASC" || up == "DESC" then up else default
  }

  /** True when "][" starts at position i of s. */
  predicate SepAt(s: string, i: int) {
    0 <= i && i + 1 < |s| && s[i] == ']' && s[i + 1] == '['
  }

  predicate ContainsSep(s: string) {
    exists i | 0 <= i < |s| :: SepAt(s, i)
  }

  /** The first position at or after `from` where "][" starts. */
  function FindSep(s: string, from: nat): (r: Option<nat>)
    decreases |s| - from
    ensures r.Some? ==> from <= r.value && SepAt(s, r.value)
    ensures r.Some? ==> forall j | from <= j < r.value :: !SepAt(s, j)
    ensures r.None? ==> forall j | from <= j < |s| :: !SepAt(s, j)
  {
    if from + 1 >= |s| then None
    else if SepAt(s, from) then Some(from)
    else FindSep(s, from + 1)
  }

  /** strings.Split(s, "][") yielding exactly two parts, or None otherwise. */
  function SplitPair(s: string): (r: Option<(string, string)>)
  {
    match FindSep(s, 0)
    case None => None
    case Some(i) => if FindSep(s, i + 2).Some? then None else Some((s[..i], s[i + 2..]))
  }

  /** Cutting s around its only separator gives two parts without one. */
  lemma SplitAtOnlySep(s: string, i: nat)
    requires SepAt(s, i) && forall j | 0 <= j < |s| && j != i :: !SepAt(s, j)
    ensures s == s[..i] + "][" + s[i + 2..]
    ensures !ContainsSep(s[..i]) && !ContainsSep(s[i + 2..])
  {
    var a, b := s[..i], s[i + 2..];
    assert forall j | 0 <= j < |a| :: SepAt(a, j) ==> SepAt(s, j);
    assert forall j | 0 <= j < |b| :: SepAt(b, j) ==> SepAt(s, j + i + 2);
  }

  /** SplitPair succeeds exactly when "][" occurs once, and then the parts rebuild s. */
  lemma SplitPairSpec(s: string)
    ensures SplitPair(s).Some? <==> (exists i | 0 <= i < |s| :: SepAt(s, i) && forall j | 0 <= j < |s| && j != i :: !SepAt(s, j))
    ensures SplitPair(s).Some? ==> s == SplitPair(s).value.0 + "][" + SplitPair(s).value.1
    ensures SplitPair(s).Some? ==> !ContainsSep(SplitPair(s).value.0) && !ContainsSep(SplitPair(s).value.1)
  {
    match FindSep(s, 0)
    case None =>
    case Some(i) =>
      assert !SepAt(s, i + 1);
      if FindSep(s, i + 2).None? {
        assert forall j | 0 <= j < |s| && j != i :: !SepAt(s, j);
        SplitAtOnlySep(s, i);
      } else {
        var k := FindSep(s, i + 2).value;
        assert SepAt(s, k) && k != i;
      }
  }

  /** The (field, operator) named by a `filter[field][op]` key, if it names one. */
  function ParseFilterKey(key: string): (r: Option<(string, string)>)
  {
    if !HasPrefix(key, "filter[") then None
    else
      var trim := key[7..];
      var trim' := if trim != [] && trim[|trim| - 1] == ']' then trim[..|trim| - 1] else trim;
      SplitPair(trim')
  }

  /** Only keys starting with "filter[" name a filter, and a key that does is
      rebuilt from its field and operator, with or without the closing
      bracket; neither part contains the separator. */
  lemma ParseFilterKeyShape(key: string)
    ensures !HasPrefix(key, "filter[") ==> ParseFilterKey(key).None?
    ensures ParseFilterKey(key).Some? ==>
              var (field, op) := ParseFilterKey(key).value;
              && !ContainsSep(field) && !ContainsSep(op)
              && (key == FilterKey(field, op) || key == "filter[" + field + "][" + op)
  {
    if HasPrefix(key, "filter[") {
      var trim := key[7..];
      var trim' := if trim != [] && trim[|trim| - 1] == ']' then trim[..|trim| - 1] else trim;
      SplitPairSpec(trim');
      assert key == "filter[" + trim;
      assert trim' != trim ==> trim == trim' + "]";
    }
  }

  function FilterKey(field: string, op: string): string {
    "filter[" + field + "][" + op + "]"
  }

  /** Writing a filter key and parsing it gives back its field and operator,
      provided neither contains the separator "][". */
  lemma ParseFilterKeyRoundTrip(field: string, op: string)
    requires !ContainsSep(field) && !ContainsSep(op)
    ensures ParseFilterKey(FilterKey(field, op)) == Some((field, op))
  {
    var key := FilterKey(field, op);
    assert key[..7] == "filter[";
    var trim := key[7..];
    assert trim == field + "][" + op + "]";
    var s := trim[..|trim| - 1];
    assert s == field + "][" + op;
    var n := |field|;
    assert SepAt(s, n);
    forall j | 0 <= j < |s| && j != n
      ensures !SepAt(s, j)
    {
      if j < n - 1 {
        assert SepAt(s, j) ==> SepAt(field, j);
      } else if n + 2 <= j {
        assert SepAt(s, j) ==> SepAt(op, j - n - 2);
      }
    }
    assert FindSep(s, 0) == Some(n);
    assert FindSep(s, n + 2).None?;
    assert s[..n] == field && s[n + 2..] == op;
  }

  /** Parses query values as the list endpoints do: defaults, then `page` and
      `limit` (positive integers), `sort` (any non-empty value), `order`
      (ASC/DESC after upper-casing), then every `filter[field][op]` key. */
  method ParseFromValues(values: Values) returns (q: QueryParams)
    requires forall k | k in values && ParseFilterKey(k).Some? :: values[k] != []
    ensures q.page == PositiveOr(Get(values, "page"), 1) && q.page >= 1
    ensures q.limit == PositiveOr(Get(values, "limit"), 20) && q.limit >= 1
    ensures q.sort == if Get(values, "sort") != "" then Get(values, "sort") else "id"
    ensures q.order == (if Get(values, "order") != "" then NormalisedOrder(Get(values, "order"), "ASC") else "ASC")
    ensures q.order == "ASC" || q.order == "DESC"
    ensures FiltersOf(values, q.filters)
  {
    q := NewQueryParams();

    var v := Get(values, "page");
    if v != "" {
      q := q.(page := PositiveOr(v, q.page));
    }

    v := Get(values, "limit");
    if v != "" {
      q := q.(limit := PositiveOr(v, q.limit));
    }

    v := Get(values, "sort");
    if v != "" {
      q := q.(sort := v);
    }

    v := Get(values, "order");
    if v != "" {
      q := q.(order := NormalisedOrder(v, q.order));
    }

    var filters := ParseFilters(values);
    q := q.(filters := filters);
  }

  /** The filters hold an entry for every well-formed filter key and nothing
      else, each entry being the first value of some key that names it. */
  ghost predicate FiltersOf(values: Values, filters: Filters)
    requires forall k | k in values && ParseFilterKey(k).Some? :: values[k] != []
  {
    && (forall k | k in values && ParseFilterKey(k).Some? ::
          InFilters(filters, ParseFilterKey(k).value))
    && (forall f, o | f in filters && o in filters[f] ::
          exists k | k in values :: ParseFilterKey(k) == Some((f, o)) && filters[f][o] == values[k][0])
  }

  /** Sets the value of one (field, operator) pair, creating the field's
      inner map when it is missing; every other pair keeps its value. */
  function Store(filters: Filters, field: string, op: string, val: string): (r: Filters)
    ensures field in r && op in r[field] && r[field][op] == val
    ensures forall f, o | f in filters && o in filters[f] :: f in r && o in r[f]
    ensures forall f, o | f in r && o in r[f] && (f, o) != (field, op) ::
              f in filters && o in filters[f] && r[f][o] == filters[f][o]
  {
    var ops := if field in filters then filters[field] else map[];
    filters[field := ops[op := val]]
  }

  /** The key loop of ParseFromValues: keys are visited in no fixed order and
      each well-formed one stores its first value under its field and operator
      (when two keys name the same pair, the one visited last wins). */
  method ParseFilters(values: Values) returns (filters: Filters)
    requires forall k | k in values && ParseFilterKey(k).Some? :: values[k] != []
    ensures FiltersOf(values, filters)
  {
    filters := map[];
    ghost var source: map<(string, string), string> := map[];
    var pending := values.Keys;
    while pending != {}
      invariant pending <= values.Keys
      invariant forall k | k in values.Keys - pending && ParseFilterKey(k).Some? ::
                  InFilters(filters, ParseFilterKey(k).value)
      invariant forall f, o | f in filters && o in filters[f] ::
                  (f, o) in source && source[(f, o)] in values && ParseFilterKey(source[(f, o)]) == Some((f, o))
                  && filters[f][o] == values[source[(f, o)]][0]
      decreases pending
    {
      var key :| key in pending;
      pending := pending - {key};
      var parsed := ParseFilterKey(key);
      if parsed.Some? {
        var (field, op) := parsed.value;
        filters := Store(filters, field, op, values[key][0]);
        source := source[(field, op) := key];
      }
    }
    forall f, o | f in filters && o in filters[f]
      ensures exists k | k in values :: ParseFilterKey(k) == Some((f, o)) && filters[f][o] == values[k][0]
    {
      var k := source[(f, o)];
      assert k in values && ParseFilterKey(k) == Some((f, o)) && filters[f][o] == values[k][0];
    }
  }

  /** The argument bound to a WHERE clause: one value or a list of values. */
  datatype Arg = Value(s: string) | List(items: seq<string>)

  /** A WHERE clause template with its single placeholder argument. */
  datatype Clause = Clause(template: string, arg: Arg)

  predicate KnownOp(op: string) {
    op in {"eq", "ne", "gt", "lt", "gte", "lte", "like", "in"}
  }

  /** The clause a (field, operator, value) filter adds; unknown operators add none. */
  function ClauseFor(field: string, op: string, val: string): (c: Option<Clause>)
    ensures c.Some? <==> KnownOp(op)
    ensures op == "like" ==> c == Some(Clause(field + " LIKE ?", Value("%" + val + "%")))
    ensures op == "in" ==> c == Some(Clause(field + " IN ?", List(Split(val, ','))))
  {
    if op == "eq" then Some(Clause(field + " = ?", Value(val)))
    else if op == "ne" then Some(Clause(field + " <> ?", Value(val)))
    else if op == "gt" then Some(Clause(field + " > ?", Value(val)))
    else if op == "lt" then Some(Clause(field + " < ?", Value(val)))
    else if op == "gte" then Some(Clause(field + " >= ?", Value(val)))
    else if op == "lte" then Some(Clause(field + " <= ?", Value(val)))
    else if op == "like" then Some(Clause(field + " LIKE ?", Value("%" + val + "%")))
    else if op == "in" then Some(Clause(field + " IN ?", List(Split(val, ','))))
    else None
  }

  predicate InFilters(filters: Filters, p: (string, string)) {
    p.0 in filters && p.1 in filters[p.0]
  }

  /** The clauses added while visiting filter entries in the given order. */
  function ClausesAlong(order: seq<(string, string)>, filters: Filters): (cs: seq<Clause>)
    requires forall i | 0 <= i < |order| :: InFilters(filters, order[i])
    ensures |cs| <= |order|
  {
    if order == [] then []
    else
      var rest := ClausesAlong(order[..|order| - 1], filters);
      var (f, o) := order[|order| - 1];
      assert InFilters(filters, order[|order| - 1]);
      match ClauseFor(f, o, filters[f][o])
      case Some(c) => rest + [c]
      case None => rest
  }

  /** Every clause comes from a visited entry with a known operator, and every
      visited entry with a known operator contributes its clause. */
  lemma {:induction false} ClausesAlongSpec(order: seq<(string, string)>, filters: Filters)
    requires forall i | 0 <= i < |order| :: InFilters(filters, order[i])
    ensures forall c | c in ClausesAlong(order, filters) ::
              exists i | 0 <= i < |order| :: ClauseFor(order[i].0, order[i].1, filters[order[i].0][order[i].1]) == Some(c)
    ensures forall i | 0 <= i < |order| && InFilters(filters, order[i]) && KnownOp(order[i].1) ::
              ClauseFor(order[i].0, order[i].1, filters[order[i].0][order[i].1]).value in ClausesAlong(order, filters)
  {
    if order != [] {
      var init := order[..|order| - 1];
      ClausesAlongSpec(init, filters);
      forall c | c in ClausesAlong(order, filters)
        ensures exists i | 0 <= i < |order| :: ClauseFor(order[i].0, order[i].1, filters[order[i].0][order[i].1]) == Some(c)
      {
        if c in ClausesAlong(init, filters) {
          var i :| 0 <= i < |init| && ClauseFor(init[i].0, init[i].1, filters[init[i].0][init[i].1]) == Some(c);
          assert order[i] == init[i];
        } else {
          assert ClauseFor(order[|order| - 1].0, order[|order| - 1].1, filters[order[|order| - 1].0][order[|order| - 1].1]) == Some(c);
        }
      }
      forall i | 0 <= i < |order| && InFilters(filters, order[i]) && KnownOp(order[i].1)
        ensures ClauseFor(order[i].0, order[i].1, filters[order[i].0][order[i].1]).value in ClausesAlong(order, filters)
      {
        if i < |init| {
          assert order[i] == init[i];
        }
      }
    }
  }

  /** Every (field, operator) pair of the filters, each exactly once. */
  ghost predicate Enumerates(order: seq<(string, string)>, filters: Filters) {
    && (forall i | 0 <= i < |order| :: InFilters(filters, order[i]))
    && (forall i, j | 0 <= i < j < |order| :: order[i] != order[j])
    && (forall f, o | f in filters && o in filters[f] :: (f, o) in order)
  }

  /** Visiting every entry once yields exactly the clauses of the entries
      with a known operator, whatever the order of the visit. */
  lemma EnumeratedClauses(order: seq<(string, string)>, filters: Filters)
    requires Enumerates(order, filters)
    ensures forall c | c in ClausesAlong(order, filters) ::
              exists f, o | f in filters && o in filters[f] :: ClauseFor(f, o, filters[f][o]) == Some(c)
    ensures forall f, o | f in filters && o in filters[f] && KnownOp(o) ::
              ClauseFor(f, o, filters[f][o]).value in ClausesAlong(order, filters)
  {
    ClausesAlongSpec(order, filters);
    forall c | c in ClausesAlong(order, filters)
      ensures exists f, o | f in filters && o in filters[f] :: ClauseFor(f, o, filters[f][o]) == Some(c)
    {
      var i :| 0 <= i < |order| && ClauseFor(order[i].0, order[i].1, filters[order[i].0][order[i].1]) == Some(c);
      assert InFilters(filters, order[i]);
    }
    forall f, o | f in filters && o in filters[f] && KnownOp(o)
      ensures ClauseFor(f, o, filters[f][o]).value in ClausesAlong(order, filters)
    {
      var i :| 0 <= i < |order| && order[i] == (f, o);
    }
  }

  /** Adds one WHERE clause per filter entry with a known operator, visiting
      fields and operators in no fixed order; `order` records the visit. */
  method ApplyFilters(filters: Filters) returns (clauses: seq<Clause>, ghost order: seq<(string, string)>)
    ensures forall c | c in clauses ::
              exists f, o | f in filters && o in filters[f] :: ClauseFor(f, o, filters[f][o]) == Some(c)
    ensures forall f, o | f in filters && o in filters[f] && KnownOp(o) :: ClauseFor(f, o, filters[f][o]).value in clauses
    ensures Enumerates(order, filters)
    ensures clauses == ClausesAlong(order, filters)
  {
    clauses, order := [], [];
    var fields := filters.Keys;
    while fields != {}
      invariant fields <= filters.Keys
      invariant forall i | 0 <= i < |order| :: InFilters(filters, order[i]) && order[i].0 !in fields
      invariant forall i, j | 0 <= i < j < |order| :: order[i] != order[j]
      invariant forall f, o | f in filters.Keys - fields && o in filters[f] :: (f, o) in order
      invariant clauses == ClausesAlong(order, filters)
      decreases fields
    {
      var field :| field in fields;
      ghost var before := order;
      clauses, order := ApplyFieldFilters(filters, field, clauses, order);
      forall i | 0 <= i < |before|
        ensures order[i] == before[i]
      {
        assert order[..|before|][i] == order[i];
      }
      forall f, o | f in filters.Keys - (fields - {field}) && o in filters[f]
        ensures (f, o) in order
      {
        if f != field {
          var i :| 0 <= i < |before| && before[i] == (f, o);
          assert order[i] == (f, o);
        }
      }
      fields := fields - {field};
      assert forall i | 0 <= i < |order| :: order[i].0 !in fields;
    }
    EnumeratedClauses(order, filters);
  }

  /** The inner loop of ApplyFilters: visits the operators of one field, in
      no fixed order, after the entries already visited. */
  method ApplyFieldFilters(filters: Filters, field: string, clauses0: seq<Clause>, ghost order0: seq<(string, string)>)
    returns (clauses: seq<Clause>, ghost order: seq<(string, string)>)
    requires field in filters
    requires forall i | 0 <= i < |order0| :: InFilters(filters, order0[i]) && order0[i].0 != field
    requires forall i, j | 0 <= i < j < |order0| :: order0[i] != order0[j]
    requires clauses0 == ClausesAlong(order0, filters)
    ensures |order0| <= |order| && order[..|order0|] == order0
    ensures forall i | |order0| <= i < |order| :: order[i].0 == field
    ensures forall i | 0 <= i < |order| :: InFilters(filters, order[i])
    ensures forall i, j | 0 <= i < j < |order| :: order[i] != order[j]
    ensures forall o | o in filters[field] :: (field, o) in order
    ensures clauses == ClausesAlong(order, filters)
  {
    clauses, order := clauses0, order0;
    var ops := filters[field];
    var pendingOps := ops.Keys;
    while pendingOps != {}
      invariant pendingOps <= ops.Keys
      invariant |order0| <= |order| && order[..|order0|] == order0
      invariant forall i | |order0| <= i < |order| :: order[i].0 == field && order[i].1 in ops && order[i].1 !in pendingOps
      invariant forall i | 0 <= i < |order| :: InFilters(filters, order[i])
      invariant forall i, j | 0 <= i < j < |order| :: order[i] != order[j]
      invariant forall o | o in ops.Keys - pendingOps :: (field, o) in order
      invariant clauses == ClausesAlong(order, filters)
      decreases pendingOps
    {
      var op :| op in pendingOps;
      pendingOps := pendingOps - {op};
      var c := ClauseFor(field, op, ops[op]);
      if c.Some? {
        clauses := clauses + [c.value];
      }
      ghost var before := order;
      order := order + [(field, op)];
      assert order[..|order| - 1] == before;
      assert order[..|order0|] == before[..|order0|];
    }
  }
}
