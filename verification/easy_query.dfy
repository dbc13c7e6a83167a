/** sequelize-easy-query.js: one call turns a query string and an options
    object into a Sequelize `where` object, an `order` list, or null.

    The query string enters as the decoded `key=value` pairs that
    `querystring.parse` reads from it; `querystring.parse` of the full query
    string (the raw one, the stringified defaults and `search=`) is `Parse` of
    the concatenated pairs. */
module EasyQuery {
  import opened Js
  import opened Sequelize

  /** The options object. An option that is undefined or falsy is `None`;
      `search` is "" when it is undefined or falsy, since both stringify to
      `search=` and both fail the truthiness tests. */
  datatype Options = Options(
    filter: Option<Dict<Value>>,
    filterBy: Option<seq<string>>,
    filterByAlias: Option<Dict<string>>,
    order: Option<Dict<Value>>,
    orderBy: Option<seq<string>>,
    orderByAlias: Option<Dict<string>>,
    search: string,
    searchBy: Option<seq<string>>)
  {
    /** The objects among the options are well-formed objects. */
    predicate Valid() {
      && (filter.Some? ==> filter.value.Valid())
      && (filterByAlias.Some? ==> filterByAlias.value.Valid())
      && (order.Some? ==> order.value.Valid())
      && (orderByAlias.Some? ==> orderByAlias.value.Valid())
    }

    /** An option for the `where` clause is set. */
    predicate WhereFamily() {
      filter.Some? || filterBy.Some? || filterByAlias.Some? || search != "" || searchBy.Some?
    }

    /** An option for the `order` clause is set. */
    predicate OrderFamily() {
      order.Some? || orderBy.Some? || orderByAlias.Some?
    }
  }

  /** The second argument, by the kind `Object.prototype.toString` reports. */
  datatype OptionsArg = PlainObject(options: Options) | NotPlainObject

  datatype Error =
    | OptionsNotObject   // "The second parameter: options should be type of Object"
    | WhereWithOrder     // "Configurations for "order" clause cannot be used with ..."

  /** What the function returns: null, a `where` object (its string-keyed
      fields in insertion order and its `[Op.or]` group), or an `order` list. */
  datatype Output =
    | Null
    | Where(fields: Dict<seq<string>>, or: Option<seq<ColumnCond>>)
    | Order(pairs: seq<(string, string)>)

  // ---------------------------------------------------------------------
  // Preparing the query object

  /** `filter || order`, whose stringified form is merged into the query. */
  function Defaults(o: Options): Dict<Value> {
    if o.filter.Some? then o.filter.value else if o.order.Some? then o.order.value else Empty()
  }

  /** `filterByAlias || orderByAlias || {}`. */
  function AliasTable(o: Options): Dict<string> {
    if o.filterByAlias.Some? then o.filterByAlias.value
    else if o.orderByAlias.Some? then o.orderByAlias.value
    else Empty()
  }

  /** The parsed full query string: the raw pairs, then the stringified
      defaults, then `search=<search>`. */
  function Merged(raw: seq<(string, string)>, o: Options): (q: Dict<Value>)
    requires o.Valid()
    ensures q.Valid()
  {
    Parse(raw + FormPairs(Defaults(o)) + [("search", o.search)])
  }

  /** One alias entry `key -> newKey`; an entry naming the same key twice is
      skipped. */
  function AliasEntry(q: Dict<Value>, key: string, newKey: string): (r: Dict<Value>)
    requires q.Valid()
    ensures r.Valid()
    ensures key == newKey ==> r == q
  {
    if newKey == key then q else Rename(q, key, newKey)
  }

  /** The query object after the first `n` entries of the alias table. */
  function Aliased(q: Dict<Value>, alias: Dict<string>, n: nat): (r: Dict<Value>)
    requires q.Valid() && alias.Valid() && n <= |alias.keys|
    ensures r.Valid()
  {
    if n == 0 then q
    else
      var key := alias.keys[n - 1];
      AliasEntry(Aliased(q, alias, n - 1), key, alias.vals[key])
  }

  /** The query object the clauses are read from. */
  function Prepared(raw: seq<(string, string)>, o: Options): (q: Dict<Value>)
    requires o.Valid()
    ensures q.Valid()
  {
    var alias := AliasTable(o);
    Aliased(Merged(raw, o), alias, |alias.keys|)
  }

  /** `filterBy` once the keys of `filter` and of `filterByAlias` are pushed. */
  function FilterAllowed(o: Options): seq<string> {
    GetOr(o.filterBy, []) + GetOr(o.filter, Empty()).keys + GetOr(o.filterByAlias, Empty()).keys
  }

  /** `orderBy` once the keys of `order` and of `orderByAlias` are pushed. */
  function OrderAllowed(o: Options): seq<string> {
    GetOr(o.orderBy, []) + GetOr(o.order, Empty()).keys + GetOr(o.orderByAlias, Empty()).keys
  }

  // ---------------------------------------------------------------------
  // The three clause builders, as reference definitions

  /** Key `k` of `q` goes into the `where` object. */
  predicate FilterKey(q: Dict<Value>, allowed: seq<string>, k: string) {
    k in allowed && k != "search" && k in q.vals && HasValue(q.vals[k])
  }

  /** The `where` fields built from the first `n` keys of `q`. */
  function FilterFields(q: Dict<Value>, allowed: seq<string>, n: nat): (f: Dict<seq<string>>)
    requires q.Valid() && n <= |q.keys|
    ensures f.Valid()
  {
    if n == 0 then Empty()
    else
      var f := FilterFields(q, allowed, n - 1);
      var k := q.keys[n - 1];
      if FilterKey(q, allowed, k) then f.Put(k, Segments(q.vals[k])) else f
  }

  /** The `where` fields hold exactly the keys among the first `n` that pass
      `FilterKey`, each with the non-empty pieces of its value. */
  lemma {:induction false} FilterFieldsKeys(q: Dict<Value>, allowed: seq<string>, n: nat)
    requires q.Valid() && n <= |q.keys|
    ensures forall k :: k in FilterFields(q, allowed, n).vals <==> k in q.keys[..n] && FilterKey(q, allowed, k)
    ensures forall k :: k in FilterFields(q, allowed, n).vals ==>
      FilterFields(q, allowed, n).vals[k] == Segments(q.vals[k])
  {
    if n > 0 {
      FilterFieldsKeys(q, allowed, n - 1);
      var f, k := FilterFields(q, allowed, n - 1), q.keys[n - 1];
      assert q.keys[..n] == q.keys[..n - 1] + [k];
      if FilterKey(q, allowed, k) {
        assert FilterFields(q, allowed, n).vals == f.vals[k := Segments(q.vals[k])];
      } else {
        assert FilterFields(q, allowed, n) == f;
      }
    }
  }

  /** The `where` fields keep the order of the query object. */
  lemma {:induction false} FilterFieldsOrder(q: Dict<Value>, allowed: seq<string>, n: nat)
    requires q.Valid() && n <= |q.keys|
    ensures Subseq(FilterFields(q, allowed, n).keys, q.keys[..n])
  {
    if n > 0 {
      FilterFieldsOrder(q, allowed, n - 1);
      FilterFieldsKeys(q, allowed, n - 1);
      var f := FilterFields(q, allowed, n - 1);
      var k := q.keys[n - 1];
      assert q.keys[..n] == q.keys[..n - 1] + [k];
      if FilterKey(q, allowed, k) {
        assert k !in f.vals by {
          assert k !in q.keys[..n - 1];
        }
        assert FilterFields(q, allowed, n).keys == f.keys + [k];
        SubseqAppend(f.keys, q.keys[..n - 1], k);
      } else {
        assert FilterFields(q, allowed, n) == f;
        SubseqExtend(f.keys, q.keys[..n - 1], k);
      }
    }
  }

  /** There are no `where` fields exactly when no key passes `FilterKey`. */
  lemma {:induction false} FilterFieldsEmpty(q: Dict<Value>, allowed: seq<string>, n: nat)
    requires q.Valid() && n <= |q.keys|
    ensures FilterFields(q, allowed, n).keys == [] <==> forall k :: k in q.keys[..n] ==> !FilterKey(q, allowed, k)
  {
    if n > 0 {
      FilterFieldsEmpty(q, allowed, n - 1);
      assert q.keys[..n] == q.keys[..n - 1] + [q.keys[n - 1]];
    }
  }

  /** The `[Op.or]` group for `columns`: per column, in order, an `[Op.or]` of
      one `%term%` LIKE per non-empty comma-separated term of `search`. */
  function SearchGroup(columns: seq<string>, search: Value): (g: seq<ColumnCond>)
    ensures |g| == |columns|
    ensures forall i :: 0 <= i < |g| ==> g[i].column == columns[i] && g[i].cond.Or?
    ensures forall i :: 0 <= i < |g| ==> |g[i].cond.alternatives| == |Segments(search)|
    ensures forall i, j :: 0 <= i < |g| && 0 <= j < |Segments(search)| ==>
      g[i].cond.alternatives[j] == Like(Contains(Segments(search)[j]))
  {
    var terms := Segments(search);
    var likes := seq(|terms|, j requires 0 <= j < |terms| => Like(Contains(terms[j])));
    seq(|columns|, i requires 0 <= i < |columns| => ColumnCond(columns[i], Or(likes)))
  }

  /** The search group, when `searchBy` is non-empty and `search` is truthy. */
  function Search(q: Dict<Value>, columns: seq<string>): Option<seq<ColumnCond>> {
    if |columns| > 0 && "search" in q.vals && HasValue(q.vals["search"])
    then Some(SearchGroup(columns, q.vals["search"]))
    else None
  }

  /** Key `k` of `q` goes into the `order` list. */
  predicate OrderKey(q: Dict<Value>, allowed: seq<string>, k: string) {
    k in allowed && k in q.vals && HasValue(q.vals[k])
  }

  function PairKeys(ps: seq<(string, string)>): (ks: seq<string>)
    ensures |ks| == |ps| && forall i :: 0 <= i < |ps| ==> ks[i] == ps[i].0
  {
    seq(|ps|, i requires 0 <= i < |ps| => ps[i].0)
  }

  /** The `order` pairs built from the first `n` keys of `q`. */
  function OrderPairs(q: Dict<Value>, allowed: seq<string>, n: nat): seq<(string, string)>
    requires q.Valid() && n <= |q.keys|
  {
    if n == 0 then []
    else
      var ps := OrderPairs(q, allowed, n - 1);
      var k := q.keys[n - 1];
      if OrderKey(q, allowed, k) then ps + [(k, Split(ToString(q.vals[k]))[0])] else ps
  }

  /** The pair `p` names a key that passes `OrderKey` and carries the first
      comma separated piece of its value. */
  predicate PairSound(q: Dict<Value>, allowed: seq<string>, p: (string, string)) {
    OrderKey(q, allowed, p.0) && p.1 == Split(ToString(q.vals[p.0]))[0]
  }

  /** Every `order` pair is sound. */
  lemma {:induction false} OrderPairsSound(q: Dict<Value>, allowed: seq<string>, n: nat)
    requires q.Valid() && n <= |q.keys|
    ensures forall i :: 0 <= i < |OrderPairs(q, allowed, n)| ==> PairSound(q, allowed, OrderPairs(q, allowed, n)[i])
  {
    if n > 0 {
      OrderPairsSound(q, allowed, n - 1);
      var ps := OrderPairs(q, allowed, n - 1);
      var k := q.keys[n - 1];
      if OrderKey(q, allowed, k) {
        var qs := ps + [(k, Split(ToString(q.vals[k]))[0])];
        assert OrderPairs(q, allowed, n) == qs;
        forall i | 0 <= i < |qs|
          ensures PairSound(q, allowed, qs[i])
        {
          if i < |ps| {
            assert qs[i] == ps[i];
          }
        }
      } else {
        assert OrderPairs(q, allowed, n) == ps;
      }
    }
  }

  /** The `order` pairs name exactly the keys among the first `n` that pass
      `OrderKey`. */
  lemma {:induction false} OrderPairsKeys(q: Dict<Value>, allowed: seq<string>, n: nat)
    requires q.Valid() && n <= |q.keys|
    ensures forall k :: k in q.keys[..n] && OrderKey(q, allowed, k) <==> k in PairKeys(OrderPairs(q, allowed, n))
  {
    if n > 0 {
      OrderPairsKeys(q, allowed, n - 1);
      var ps := OrderPairs(q, allowed, n - 1);
      var k := q.keys[n - 1];
      assert q.keys[..n] == q.keys[..n - 1] + [k];
      if OrderKey(q, allowed, k) {
        assert PairKeys(ps + [(k, Split(ToString(q.vals[k]))[0])]) == PairKeys(ps) + [k];
      }
    }
  }

  /** The `order` pairs name each key once, in the order of the query object. */
  lemma {:induction false} OrderPairsOrder(q: Dict<Value>, allowed: seq<string>, n: nat)
    requires q.Valid() && n <= |q.keys|
    ensures Distinct(PairKeys(OrderPairs(q, allowed, n)))
    ensures Subseq(PairKeys(OrderPairs(q, allowed, n)), q.keys[..n])
  {
    if n > 0 {
      OrderPairsOrder(q, allowed, n - 1);
      var ps := OrderPairs(q, allowed, n - 1);
      var k := q.keys[n - 1];
      assert q.keys[..n] == q.keys[..n - 1] + [k];
      if OrderKey(q, allowed, k) {
        assert PairKeys(OrderPairs(q, allowed, n)) == PairKeys(ps) + [k] by {
          assert OrderPairs(q, allowed, n) == ps + [(k, Split(ToString(q.vals[k]))[0])];
        }
        assert k !in PairKeys(ps) by {
          OrderPairsKeys(q, allowed, n - 1);
          assert k !in q.keys[..n - 1];
        }
        DistinctAppend(PairKeys(ps), k);
        SubseqAppend(PairKeys(ps), q.keys[..n - 1], k);
      } else {
        assert OrderPairs(q, allowed, n) == ps;
        SubseqExtend(PairKeys(ps), q.keys[..n - 1], k);
      }
    }
  }

  /** There are no `order` pairs exactly when no key passes `OrderKey`. */
  lemma {:induction false} OrderPairsEmpty(q: Dict<Value>, allowed: seq<string>, n: nat)
    requires q.Valid() && n <= |q.keys|
    ensures OrderPairs(q, allowed, n) == [] <==> forall k :: k in q.keys[..n] ==> !OrderKey(q, allowed, k)
  {
    if n > 0 {
      OrderPairsEmpty(q, allowed, n - 1);
      assert q.keys[..n] == q.keys[..n - 1] + [q.keys[n - 1]];
    }
  }

  /** The value returned: null when nothing was produced. */
  function Assemble(orderMode: bool, fields: Dict<seq<string>>, group: Option<seq<ColumnCond>>,
                    pairs: seq<(string, string)>): Output
  {
    if orderMode then (if pairs == [] then Null else Order(pairs))
    else if fields.keys == [] && group.None? then Null
    else Where(fields, group)
  }

  /** The exported function, as a reference definition. */
  function Translated(raw: seq<(string, string)>, arg: OptionsArg): (r: Result<Output, Error>)
    requires arg.PlainObject? ==> arg.options.Valid()
    ensures arg.NotPlainObject? ==> r == Failure(OptionsNotObject)
    ensures arg.PlainObject? ==>
      (r == Failure(WhereWithOrder) <==> arg.options.WhereFamily() && arg.options.OrderFamily())
    ensures r.Failure? ==> arg.NotPlainObject? || (arg.options.WhereFamily() && arg.options.OrderFamily())
    ensures r.Success? && r.value.Order? ==> arg.options.OrderFamily()
    ensures r.Success? && r.value.Where? ==> !arg.options.OrderFamily()
  {
    if arg.NotPlainObject? then Failure(OptionsNotObject)
    else
      var o := arg.options;
      if o.WhereFamily() && o.OrderFamily() then Failure(WhereWithOrder)
      else
        var q := Prepared(raw, o);
        Success(Assemble(o.OrderFamily(),
                         FilterFields(q, FilterAllowed(o), |q.keys|),
                         Search(q, GetOr(o.searchBy, [])),
                         OrderPairs(q, OrderAllowed(o), |q.keys|)))
  }

  // ---------------------------------------------------------------------
  // The function itself, step by step

  /** The body of the alias loop, deleting and assigning keys of the query
      object in place. */
  method ApplyEntry(q0: Dict<Value>, key: string, newKey: string) returns (q: Dict<Value>)
    requires q0.Valid()
    ensures q == AliasEntry(q0, key, newKey)
  {
    q := q0;
    if newKey == key {
      return;
    }
    if key in q.vals {
      q := q.Delete(key);
    }
    if newKey in q.vals {
      q := q.Put(key, q.vals[newKey]);
      q := q.Delete(newKey);
    }
  }

  /** The alias loop: each entry renames the query-string key `newKey` to the
      output name `key`, in place. */
  method ResolveAliases(q0: Dict<Value>, alias: Dict<string>) returns (q: Dict<Value>)
    requires q0.Valid() && alias.Valid()
    ensures q == Aliased(q0, alias, |alias.keys|)
  {
    q := q0;
    var i := 0;
    while i < |alias.keys|
      invariant 0 <= i <= |alias.keys|
      invariant q == Aliased(q0, alias, i)
    {
      var key := alias.keys[i];
      var newKey := alias.vals[key];
      q := ApplyEntry(q, key, newKey);
      i := i + 1;
    }
  }

  /** The "filter by" loop. */
  method CollectFilters(q: Dict<Value>, filterBy: seq<string>) returns (fields: Dict<seq<string>>)
    requires q.Valid()
    ensures fields == FilterFields(q, filterBy, |q.keys|)
  {
    fields := Empty();
    var i := 0;
    while i < |q.keys|
      invariant 0 <= i <= |q.keys|
      invariant fields == FilterFields(q, filterBy, i)
    {
      var key := q.keys[i];
      if key in filterBy && key != "search" {
        var queryValue := q.vals[key];
        if HasValue(queryValue) {
          fields := fields.Put(key, Segments(queryValue));
        }
      }
      i := i + 1;
    }
  }

  /** The "order by" loop. */
  method CollectOrder(q: Dict<Value>, orderBy: seq<string>) returns (pairs: seq<(string, string)>)
    requires q.Valid()
    ensures pairs == OrderPairs(q, orderBy, |q.keys|)
  {
    pairs := [];
    var i := 0;
    while i < |q.keys|
      invariant 0 <= i <= |q.keys|
      invariant pairs == OrderPairs(q, orderBy, i)
    {
      var key := q.keys[i];
      if key in orderBy {
        var queryValue := q.vals[key];
        if HasValue(queryValue) {
          pairs := pairs + [(key, Split(ToString(queryValue))[0])];
        }
      }
      i := i + 1;
    }
  }

  /** The exported function. */
  method Translate(raw: seq<(string, string)>, arg: OptionsArg) returns (r: Result<Output, Error>)
    requires arg.PlainObject? ==> arg.options.Valid()
    ensures r == Translated(raw, arg)
  {
    if arg.NotPlainObject? {
      return Failure(OptionsNotObject);
    }
    var o := arg.options;
    if o.WhereFamily() && o.OrderFamily() {
      return Failure(WhereWithOrder);
    }
    var orderMode := o.OrderFamily();
    var q := Merged(raw, o);
    q := ResolveAliases(q, AliasTable(o));
    var filterBy := FilterAllowed(o);
    var orderBy := OrderAllowed(o);
    var searchBy := GetOr(o.searchBy, []);
    var fields := CollectFilters(q, filterBy);
    var group: Option<seq<ColumnCond>> := None;
    if |searchBy| > 0 && "search" in q.vals && HasValue(q.vals["search"]) {
      group := Some(SearchGroup(searchBy, q.vals["search"]));
    }
    var pairs := CollectOrder(q, orderBy);
    if orderMode {
      r := if pairs == [] then Success(Null) else Success(Order(pairs));
    } else {
      r := if fields.keys == [] && group.None? then Success(Null) else Success(Where(fields, group));
    }
  }
}

/** What sequelize-easy-query.js promises, proved of its reference definition. */
module EasyQueryProperties {
  import opened Js
  import opened Sequelize
  import opened EasyQuery

  /** Key `k` is reachable through `filterBy`, `filter` or `filterByAlias`. */
  predicate FilterDeclared(o: Options, k: string) {
    || k in GetOr(o.filterBy, [])
    || (o.filter.Some? && k in o.filter.value.vals)
    || (o.filterByAlias.Some? && k in o.filterByAlias.value.vals)
  }

  /** Key `k` is reachable through `orderBy`, `order` or `orderByAlias`. */
  predicate OrderDeclared(o: Options, k: string) {
    || k in GetOr(o.orderBy, [])
    || (o.order.Some? && k in o.order.value.vals)
    || (o.orderByAlias.Some? && k in o.orderByAlias.value.vals)
  }

  lemma AllowedIsDeclared(o: Options, k: string)
    requires o.Valid()
    ensures k in FilterAllowed(o) <==> FilterDeclared(o, k)
    ensures k in OrderAllowed(o) <==> OrderDeclared(o, k)
  {
  }

  /** The defaults and the query string merge rather than override: the
      parsed value of a key lists its query-string values, then its default
      values, then (for `search`) the configured search term. In particular
      `search` is always a key of the parsed object. */
  lemma {:induction false} DefaultsMerge(raw: seq<(string, string)>, o: Options, k: string)
    requires o.Valid()
    ensures var d := Defaults(o);
      var all := ValuesOf(raw, k) + (if k in d.vals then Items(d.vals[k]) else [])
                 + (if k == "search" then [o.search] else []);
      && (k in Merged(raw, o).vals <==> all != [])
      && (k in Merged(raw, o).vals ==> Items(Merged(raw, o).vals[k]) == all)
    ensures "search" in Merged(raw, o).vals
  {
    var d := Defaults(o);
    var tail: seq<(string, string)> := [("search", o.search)];
    forall j: string
      ensures ValuesOf(raw + FormPairs(d) + tail, j) ==
        ValuesOf(raw, j) + (if j in d.vals then Items(d.vals[j]) else [])
        + (if j == "search" then [o.search] else [])
    {
      ValuesOfConcat(raw + FormPairs(d), tail, j);
      ValuesOfConcat(raw, FormPairs(d), j);
      FieldPairsValues(d.keys, d.vals, j);
      assert ValuesOf(tail, j) == ValuesOf([], j) + (if j == "search" then [o.search] else []);
    }
    ParseCollects(raw + FormPairs(d) + tail, k);
    ParseCollects(raw + FormPairs(d) + tail, "search");
  }

  /** The alias loop does not touch keys no entry names. */
  lemma {:induction false} AliasedUntouched(q: Dict<Value>, alias: Dict<string>, n: nat, k: string)
    requires q.Valid() && alias.Valid() && n <= |alias.keys|
    requires k !in alias.keys[..n]
    requires forall i :: 0 <= i < n ==> alias.vals[alias.keys[i]] != k
    ensures k in Aliased(q, alias, n).vals <==> k in q.vals
    ensures k in q.vals ==> Aliased(q, alias, n).vals[k] == q.vals[k]
  {
    if n > 0 {
      var key := alias.keys[n - 1];
      assert k != key && k != alias.vals[key] by {
        assert alias.keys[..n] == alias.keys[..n - 1] + [key];
      }
      AliasedUntouched(q, alias, n - 1, k);
      RenameElsewhere(Aliased(q, alias, n - 1), key, alias.vals[key], k);
      assert Aliased(q, alias, n) == AliasEntry(Aliased(q, alias, n - 1), key, alias.vals[key]);
    }
  }

  /** Every entry `key -> newKey` with two different names, neither of them
      mentioned by another entry, ends as promised: `newKey` is gone, and
      `key` holds `newKey`'s former value when there was one and is gone
      otherwise. */
  lemma {:induction false} AliasedIndependent(q: Dict<Value>, alias: Dict<string>, n: nat, i: nat)
    requires q.Valid() && alias.Valid() && i < n <= |alias.keys|
    requires alias.keys[i] != alias.vals[alias.keys[i]] && Unshared(alias, i)
    ensures var key, newKey := alias.keys[i], alias.vals[alias.keys[i]];
      && newKey !in Aliased(q, alias, n).vals
      && (key in Aliased(q, alias, n).vals <==> newKey in q.vals)
      && (newKey in q.vals ==> Aliased(q, alias, n).vals[key] == q.vals[newKey])
  {
    var key, newKey := alias.keys[i], alias.vals[alias.keys[i]];
    var key', newKey' := alias.keys[n - 1], alias.vals[alias.keys[n - 1]];
    var prev := Aliased(q, alias, n - 1);
    if i == n - 1 {
      assert (newKey in prev.vals <==> newKey in q.vals)
          && (newKey in prev.vals ==> prev.vals[newKey] == q.vals[newKey]) by {
        assert forall j :: 0 <= j < n - 1 ==> alias.keys[j] != newKey && alias.vals[alias.keys[j]] != newKey;
        AliasedUntouched(q, alias, n - 1, newKey);
      }
      RenameOutcome(prev, key, newKey);
      assert Aliased(q, alias, n) == Rename(prev, key, newKey);
    } else {
      assert key != key' && key != newKey' && newKey != key' && newKey != newKey' by {
        assert Distinct(alias.keys);
      }
      assert && newKey !in prev.vals
             && (key in prev.vals <==> newKey in q.vals)
             && (newKey in q.vals ==> prev.vals[key] == q.vals[newKey]) by {
        AliasedIndependent(q, alias, n - 1, i);
      }
      RenameElsewhere(prev, key', newKey', key);
      RenameElsewhere(prev, key', newKey', newKey);
      if key' != newKey' {
        assert Aliased(q, alias, n) == Rename(prev, key', newKey');
      } else {
        assert Aliased(q, alias, n) == prev;
      }
    }
  }

  /** The `where` object holds exactly the declared keys, other than `search`,
      whose prepared value is present; each holds the non-empty comma
      separated pieces of that value, and the keys keep the query's order. */
  lemma {:induction false} WhereFields(raw: seq<(string, string)>, o: Options, k: string)
    requires o.Valid()
    requires Translated(raw, PlainObject(o)).Success? && Translated(raw, PlainObject(o)).value.Where?
    ensures var f, q := Translated(raw, PlainObject(o)).value.fields, Prepared(raw, o);
      && (k in f.vals <==> FilterDeclared(o, k) && k != "search" && k in q.vals && HasValue(q.vals[k]))
      && (k in f.vals ==> f.vals[k] == Segments(q.vals[k]))
      && (k in f.vals ==> forall i :: 0 <= i < |f.vals[k]| ==> f.vals[k][i] != "")
      && Subseq(f.keys, q.keys)
  {
    var q := Prepared(raw, o);
    assert q.keys[..|q.keys|] == q.keys;
    FilterFieldsKeys(q, FilterAllowed(o), |q.keys|);
    FilterFieldsOrder(q, FilterAllowed(o), |q.keys|);
    AllowedIsDeclared(o, k);
  }

  /** In `where` mode no `order` pair can arise, so the output object never
      receives one. */
  lemma {:induction false} NoOrderInWhereMode(raw: seq<(string, string)>, o: Options)
    requires o.Valid() && !o.OrderFamily()
    ensures var q := Prepared(raw, o); OrderPairs(q, OrderAllowed(o), |q.keys|) == []
  {
    var q := Prepared(raw, o);
    assert OrderAllowed(o) == [];
    OrderPairsEmpty(q, OrderAllowed(o), |q.keys|);
  }

  /** In `order` mode no `where` field and no search group can arise, so the
      output list never receives one. */
  lemma {:induction false} NoWhereInOrderMode(raw: seq<(string, string)>, o: Options)
    requires o.Valid() && o.OrderFamily() && !o.WhereFamily()
    ensures var q := Prepared(raw, o);
      && FilterFields(q, FilterAllowed(o), |q.keys|).keys == []
      && Search(q, GetOr(o.searchBy, [])) == None
  {
    var q := Prepared(raw, o);
    assert FilterAllowed(o) == [];
    FilterFieldsEmpty(q, FilterAllowed(o), |q.keys|);
  }

  /** In `where` mode the search group is there exactly when `searchBy` is
      non-empty and the prepared `search` value is present, and then it is
      the group built from that value. */
  lemma {:induction false} SearchRule(raw: seq<(string, string)>, o: Options)
    requires o.Valid() && !o.OrderFamily()
    ensures var r, q, columns := Translated(raw, PlainObject(o)), Prepared(raw, o), GetOr(o.searchBy, []);
      && (r.value.Where? && r.value.or.Some? <==>
            |columns| > 0 && "search" in q.vals && HasValue(q.vals["search"]))
      && (r.value.Where? && r.value.or.Some? ==> r.value.or.value == SearchGroup(columns, q.vals["search"]))
  {
  }

  /** The result is null exactly when no key yields a value and there is no
      search group. */
  lemma {:induction false} NullWhenNothing(raw: seq<(string, string)>, o: Options)
    requires o.Valid() && !(o.WhereFamily() && o.OrderFamily())
    ensures var r, q := Translated(raw, PlainObject(o)), Prepared(raw, o);
      && (o.OrderFamily() ==>
            (r.value == Null <==> forall k :: k in q.keys ==> !OrderKey(q, OrderAllowed(o), k)))
      && (!o.OrderFamily() ==>
            (r.value == Null <==> (forall k :: k in q.keys ==> !FilterKey(q, FilterAllowed(o), k))
                                  && Search(q, GetOr(o.searchBy, [])).None?))
  {
    var q := Prepared(raw, o);
    assert q.keys[..|q.keys|] == q.keys;
    FilterFieldsEmpty(q, FilterAllowed(o), |q.keys|);
    OrderPairsEmpty(q, OrderAllowed(o), |q.keys|);
  }

  /** In `order` mode the list has one `[key, first comma piece]` pair per
      declared key whose prepared value is present, no key twice, in the
      order of the prepared query object. */
  lemma {:induction false} OrderList(raw: seq<(string, string)>, o: Options)
    requires o.Valid() && o.OrderFamily() && !o.WhereFamily()
    ensures var r, q := Translated(raw, PlainObject(o)), Prepared(raw, o);
      && (r.value == Null || r.value.Order?)
      && (r.value.Order? ==>
            && (forall i :: 0 <= i < |r.value.pairs| ==>
                  var k := r.value.pairs[i].0;
                  OrderDeclared(o, k) && k in q.vals && HasValue(q.vals[k])
                  && r.value.pairs[i].1 == Split(ToString(q.vals[k]))[0])
            && (forall k :: k in q.vals && OrderDeclared(o, k) && HasValue(q.vals[k]) <==> k in PairKeys(r.value.pairs))
            && Distinct(PairKeys(r.value.pairs))
            && Subseq(PairKeys(r.value.pairs), q.keys))
  {
    var q := Prepared(raw, o);
    var ps := OrderPairs(q, OrderAllowed(o), |q.keys|);
    assert Translated(raw, PlainObject(o)).value == if ps == [] then Null else Order(ps);
    OrderListOf(q, o);
  }

  /** `OrderList` for any prepared query object. */
  lemma {:induction false} OrderListOf(q: Dict<Value>, o: Options)
    requires o.Valid() && q.Valid()
    ensures var ps := OrderPairs(q, OrderAllowed(o), |q.keys|);
      && (forall i :: 0 <= i < |ps| ==>
            var k := ps[i].0;
            OrderDeclared(o, k) && k in q.vals && HasValue(q.vals[k])
            && ps[i].1 == Split(ToString(q.vals[k]))[0])
      && (forall k :: k in q.vals && OrderDeclared(o, k) && HasValue(q.vals[k]) <==> k in PairKeys(ps))
      && Distinct(PairKeys(ps))
      && Subseq(PairKeys(ps), q.keys)
  {
    assert q.keys[..|q.keys|] == q.keys;
    OrderPairsSound(q, OrderAllowed(o), |q.keys|);
    OrderPairsKeys(q, OrderAllowed(o), |q.keys|);
    OrderPairsOrder(q, OrderAllowed(o), |q.keys|);
    forall k {
      AllowedIsDeclared(o, k);
    }
  }

  /** A value that is only a comma is present, so it yields an empty list
      rather than being skipped. */
  lemma CommaOnlyValue()
    ensures HasValue(Str(",")) && Segments(Str(",")) == []
  {
    assert Split(",") == ["", ""] by {
      assert ","[1..] == "";
    }
  }
}
