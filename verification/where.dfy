/** index.js: the class `SequelizeWhere`. The constructor parses the query
    string together with the stringified `prefilter`, puts the configured
    search term in place and applies the aliases; `filterBy` and `searchBy`
    copy conditions onto the instance and return it for chaining; `done`
    returns the instance's conditions as a plain object, or null.

    The query string enters as the decoded `key=value` pairs that
    `querystring.parse` reads from it. `decodeURI` is a parameter: it maps a
    string to its decoded form, or to `None` where it throws a `URIError`. */
module Where {
  import opened Js
  import opened Sequelize

  /** The options object. `prefilter` and `alias` are `None` when unset or
      falsy; `search` is "" when unset or falsy, which is when the
      constructor stores `null`. */
  datatype Options = Options(prefilter: Option<Dict<Value>>, alias: Option<Dict<string>>, search: string)
  {
    predicate Valid() {
      && (prefilter.Some? ==> prefilter.value.Valid())
      && (alias.Some? ==> alias.value.Valid())
    }
  }

  /** The first argument, by the kind `Object.prototype.toString` reports. */
  datatype QueryArg = QueryString(pairs: seq<(string, string)>) | NotString

  /** The second argument, by the kind `Object.prototype.toString` reports. */
  datatype OptionsArg = Object(options: Options) | NotObject

  datatype Error =
    | QueryNotString     // "The first argument: the input querystring should be type of String"
    | OptionsNotObject   // "The second argument: options should be type of Object"
    | UriError           // thrown by decodeURI

  /** `decodeURI`: `None` where it throws. */
  type Decoder = string -> Option<string>

  /** What `done` returns: the string-keyed fields in insertion order and the
      `[Op.or]` group. */
  datatype Plain = Plain(fields: Dict<Value>, or: Option<seq<ColumnCond>>)

  // ---------------------------------------------------------------------
  // The query object

  /** The parsed query string and stringified prefilter, with the configured
      search term assigned to `search` when there is one. */
  function Seeded(raw: seq<(string, string)>, prefilter: Dict<Value>, search: string): (q: Dict<Value>)
    requires prefilter.Valid()
    ensures q.Valid()
  {
    var q := Parse(raw + FormPairs(prefilter));
    if search != "" then q.Put("search", Str(search)) else q
  }

  /** The first `n` alias entries applied in order. Unlike
      sequelize-easy-query.js, an entry naming the same key twice is not
      skipped. */
  function Aliased(q: Dict<Value>, alias: Dict<string>, n: nat): (r: Dict<Value>)
    requires q.Valid() && alias.Valid() && n <= |alias.keys|
    ensures r.Valid()
  {
    if n == 0 then q
    else
      var key := alias.keys[n - 1];
      Rename(Aliased(q, alias, n - 1), key, alias.vals[key])
  }

  /** The query object the constructor leaves. */
  function Prepared(raw: seq<(string, string)>, prefilter: Dict<Value>, alias: Dict<string>,
                    search: string): (q: Dict<Value>)
    requires prefilter.Valid() && alias.Valid()
    ensures q.Valid()
  {
    Aliased(Seeded(raw, prefilter, search), alias, |alias.keys|)
  }

  /** The body of the constructor's alias loop, deleting and assigning keys
      of the query object in place. */
  method ApplyEntry(q0: Dict<Value>, key: string, target: string) returns (q: Dict<Value>)
    requires q0.Valid()
    ensures q == Rename(q0, key, target)
  {
    q := q0;
    if key in q.vals {
      q := q.Delete(key);
    }
    if target in q.vals {
      q := q.Put(key, q.vals[target]);
      q := q.Delete(target);
    }
  }

  /** The constructor's alias loop over the keys of the alias table, in
      place on the query object. */
  method ResolveAliases(q0: Dict<Value>, alias: Dict<string>) returns (q: Dict<Value>)
    requires q0.Valid() && alias.Valid()
    ensures q == Aliased(q0, alias, |alias.keys|)
  {
    q := q0;
    var i := 0;
    while i < |alias.keys|
      invariant 0 <= i <= |alias.keys|
      invariant q == Aliased(q0, alias, i)
    {
      var key := alias.keys[i];
      q := ApplyEntry(q, key, alias.vals[key]);
      i := i + 1;
    }
  }

  // ---------------------------------------------------------------------
  // filterBy

  /** `decodeURI(v)`, split at commas when `v` is an array. */
  function Converted(v: Value, decode: Decoder): Option<Value> {
    match decode(ToString(v))
    case None => None
    case Some(d) => Some(if v.Arr? then Arr(Split(d)) else Str(d))
  }

  /** Key `k` is listed and has a value that is present. */
  predicate Eligible(q: Dict<Value>, keys: seq<string>, k: string) {
    k in keys && k in q.vals && HasValue(q.vals[k])
  }

  /** The instance's fields after some steps of the `filterBy` loop, and
      whether no step has thrown. */
  datatype Step = Step(fields: Dict<Value>, ok: bool)

  /** The first `n` steps of the `filterBy` loop over the keys of `q`,
      starting from `fields`; the loop stops at the first conversion that
      throws, keeping what it set before. */
  function Filtered(fields: Dict<Value>, q: Dict<Value>, keys: seq<string>, decode: Decoder, n: nat): (r: Step)
    requires fields.Valid() && q.Valid() && n <= |q.keys|
    ensures r.fields.Valid()
  {
    if n == 0 then Step(fields, true)
    else
      var s := Filtered(fields, q, keys, decode, n - 1);
      var k := q.keys[n - 1];
      if !s.ok || !Eligible(q, keys, k) then s
      else
        match Converted(q.vals[k], decode)
        case None => Step(s.fields, false)
        case Some(w) => Step(s.fields.Put(k, w), true)
  }

  /** Once a step has thrown, later steps change nothing. */
  lemma {:induction false} FilteredStops(fields: Dict<Value>, q: Dict<Value>, keys: seq<string>,
                                         decode: Decoder, m: nat, n: nat)
    requires fields.Valid() && q.Valid() && m <= n <= |q.keys|
    requires !Filtered(fields, q, keys, decode, m).ok
    ensures Filtered(fields, q, keys, decode, n) == Filtered(fields, q, keys, decode, m)
    decreases n
  {
    if n > m {
      FilteredStops(fields, q, keys, decode, m, n - 1);
    }
  }

  // ---------------------------------------------------------------------
  // searchBy

  /** `decodeURI(search)` reads `String(search)`, which is "undefined" when
      the query object has no `search`. */
  function SearchText(q: Dict<Value>): string {
    if "search" in q.vals then ToString(q.vals["search"]) else "undefined"
  }

  /** The query object's `search` is truthy. */
  predicate SearchSet(q: Dict<Value>) {
    "search" in q.vals && HasValue(q.vals["search"])
  }

  /** One `{ [column]: { [Op.like]: %term% } }` per column. */
  function LikeAll(columns: seq<string>, term: string): seq<ColumnCond> {
    seq(|columns|, i requires 0 <= i < |columns| => ColumnCond(columns[i], Like(Contains(term))))
  }

  /** Copying the properties of `d` one by one into a new object. */
  method Copy(d: Dict<Value>) returns (out: Dict<Value>)
    requires d.Valid()
    ensures out == d
  {
    out := Empty();
    for i := 0 to |d.keys|
      invariant out.Valid()
      invariant out.keys == d.keys[..i]
      invariant forall k :: k in out.vals ==> k in d.vals && out.vals[k] == d.vals[k]
    {
      var key := d.keys[i];
      assert key !in d.keys[..i];
      out := out.Put(key, d.vals[key]);
      assert d.keys[..i + 1] == d.keys[..i] + [key];
    }
    assert d.keys[..|d.keys|] == d.keys;
    assert out.vals == d.vals;
  }

  // ---------------------------------------------------------------------
  // The class

  /** One value of `filterBy`: `decodeURI` of its string form, split at
      commas when the value is an array; `None` when `decodeURI` throws. */
  method Convert(queryValue: Value, decode: Decoder) returns (c: Option<Value>)
    ensures c == Converted(queryValue, decode)
  {
    var d := decode(ToString(queryValue));
    if d.None? {
      return None;
    }
    if queryValue.Arr? {
      return Some(Arr(Split(d.value)));
    }
    return Some(Str(d.value));
  }

  /** One turn of the `filterBy` loop, at position `i` of `source`: a listed
      key with a present value is set to its conversion, or the turn throws. */
  method CollectField(start: Dict<Value>, source: Dict<Value>, allowed: seq<string>, decode: Decoder,
                      i: nat, fields: Dict<Value>) returns (r: Step)
    requires start.Valid() && source.Valid() && i < |source.keys|
    requires Filtered(start, source, allowed, decode, i) == Step(fields, true)
    ensures r == Filtered(start, source, allowed, decode, i + 1)
  {
    var key := source.keys[i];
    if key in allowed && HasValue(source.vals[key]) {
      assert Eligible(source, allowed, key);
      var c := Convert(source.vals[key], decode);
      if c.None? {
        return Step(fields, false);
      }
      return Step(fields.Put(key, c.value), true);
    }
    assert !Eligible(source, allowed, key);
    return Step(fields, true);
  }

  /** The loop of `filterBy` over the keys of `source`: each listed key
      with a present value is set to its conversion, and the loop stops at
      the first conversion that throws, with the fields set so far. */
  method CollectFields(start: Dict<Value>, source: Dict<Value>, allowed: seq<string>, decode: Decoder)
    returns (r: Step)
    requires start.Valid() && source.Valid()
    ensures r.fields.Valid()
    ensures r == Filtered(start, source, allowed, decode, |source.keys|)
  {
    var fields := start;
    for i := 0 to |source.keys|
      invariant Filtered(start, source, allowed, decode, i) == Step(fields, true)
    {
      var s := CollectField(start, source, allowed, decode, i, fields);
      if !s.ok {
        FilteredStops(start, source, allowed, decode, i + 1, |source.keys|);
        return s;
      }
      fields := s.fields;
    }
    return Step(fields, true);
  }

  class SequelizeWhere {
    const prefilter: Dict<Value>
    const alias: Dict<string>
    const search: string
    var queryObject: Dict<Value>
    /** The string-keyed conditions `filterBy` put on the instance. */
    var fields: Dict<Value>
    /** The instance's `[Op.or]` property. */
    var or: Option<seq<ColumnCond>>

    predicate Valid()
      reads this
    {
      prefilter.Valid() && alias.Valid() && queryObject.Valid() && fields.Valid()
    }

    /** The constructor, for arguments of the right kinds. */
    constructor (raw: seq<(string, string)>, options: Options)
      requires options.Valid()
      ensures Valid()
      ensures prefilter == GetOr(options.prefilter, Empty())
      ensures alias == GetOr(options.alias, Empty())
      ensures search == options.search
      ensures queryObject == Prepared(raw, prefilter, alias, search)
      ensures fields == Empty() && or == None
    {
      var pf := GetOr(options.prefilter, Empty());
      prefilter := pf;
      alias := GetOr(options.alias, Empty());
      search := options.search;
      queryObject := Parse(raw + FormPairs(pf));
      fields := Empty();
      or := None;
      new;
      if search != "" {
        queryObject := queryObject.Put("search", Str(search));
      }
      queryObject := ResolveAliases(queryObject, alias);
    }

    /** `new SequelizeWhere(rawQuerystring, options)`: the kinds of the
        arguments are checked first, the query string before the options. */
    static method Create(raw: QueryArg, options: OptionsArg) returns (r: Result<SequelizeWhere, Error>)
      requires options.Object? ==> options.options.Valid()
      ensures raw.NotString? ==> r == Failure(QueryNotString)
      ensures raw.QueryString? && options.NotObject? ==> r == Failure(OptionsNotObject)
      ensures raw.QueryString? && options.Object? ==>
        && r.Success? && fresh(r.value) && r.value.Valid()
        && r.value.prefilter == GetOr(options.options.prefilter, Empty())
        && r.value.alias == GetOr(options.options.alias, Empty())
        && r.value.search == options.options.search
        && r.value.queryObject == Prepared(raw.pairs, GetOr(options.options.prefilter, Empty()),
                                           GetOr(options.options.alias, Empty()), options.options.search)
        && r.value.fields == Empty() && r.value.or == None
    {
      if raw.NotString? {
        return Failure(QueryNotString);
      }
      if options.NotObject? {
        return Failure(OptionsNotObject);
      }
      var w := new SequelizeWhere(raw.pairs, options.options);
      return Success(w);
    }

    /** `filterBy(keys)`: the prefilter's keys join `keys`, then every key of
        the query object that is listed and present is set on the instance
        to its decoded value, split at commas when it is an array. A
        `URIError` leaves the keys set before it in place. */
    method FilterBy(keys: seq<string>, decode: Decoder) returns (r: Result<SequelizeWhere, Error>)
      requires Valid()
      modifies this
      ensures Valid()
      ensures var s := Filtered(old(fields), queryObject, keys + prefilter.keys, decode, |queryObject.keys|);
        fields == s.fields && (r.Success? <==> s.ok)
      ensures r.Success? ==> r.value == this
      ensures r.Failure? ==> r.error == UriError
      ensures queryObject == old(queryObject) && or == old(or)
    {
      var allowed := keys;
      for i := 0 to |prefilter.keys|
        invariant allowed == keys + prefilter.keys[..i]
      {
        allowed := allowed + [prefilter.keys[i]];
      }
      assert prefilter.keys[..|prefilter.keys|] == prefilter.keys;
      var step := CollectFields(fields, queryObject, allowed, decode);
      fields := step.fields;
      if !step.ok {
        return Failure(UriError);
      }
      return Success(this);
    }

    /** `searchBy(keys)`: when the query object's `search` is truthy, the
        `[Op.or]` group becomes one LIKE `%search%` per key, the whole decoded
        term in each. `decodeURI` runs once per key, so with no keys it cannot
        throw, and with no keys and a truthy `search` the group is empty. */
    method SearchBy(columns: seq<string>, decode: Decoder) returns (r: Result<SequelizeWhere, Error>)
      requires Valid()
      modifies this
      ensures Valid()
      ensures queryObject == old(queryObject) && fields == old(fields)
      ensures r.Failure? <==> |columns| > 0 && decode(SearchText(queryObject)).None?
      ensures r.Failure? ==> r.error == UriError && or == old(or)
      ensures r.Success? ==> r.value == this
      ensures r.Success? && !SearchSet(queryObject) ==> or == old(or)
      ensures r.Success? && SearchSet(queryObject) ==>
        or == Some(LikeAll(columns, GetOr(decode(SearchText(queryObject)), "")))
      ensures r.Success? && SearchSet(queryObject) ==>
        && or.Some? && |or.value| == |columns|
        && forall i :: 0 <= i < |columns| ==>
             or.value[i] == ColumnCond(columns[i], Like(Contains(decode(SearchText(queryObject)).value)))
    {
      var arr: seq<ColumnCond> := [];
      if |columns| > 0 {
        var d := decode(SearchText(queryObject));
        if d.None? {
          return Failure(UriError);
        }
        arr := LikeAll(columns, d.value);
      }
      assert arr == LikeAll(columns, GetOr(decode(SearchText(queryObject)), "")) by {
        assert |LikeAll(columns, GetOr(decode(SearchText(queryObject)), ""))| == |columns|;
      }
      if SearchSet(queryObject) {
        or := Some(arr);
      }
      return Success(this);
    }

    /** `done()`: the instance's own string-keyed properties other than
        `queryObject` and `options`, plus the `[Op.or]` group; null when there
        is neither. The instance is not changed. */
    method Done() returns (r: Option<Plain>)
      requires Valid()
      ensures r.None? <==> (forall k :: k in fields.vals ==> k == "queryObject" || k == "options") && or.None?
      ensures r.Some? ==>
        && r.value.fields.Valid()
        && r.value.fields.vals == fields.vals - {"queryObject", "options"}
        && r.value.fields.keys == Remove(Remove(fields.keys, "queryObject"), "options")
        && r.value.or == or
    {
      var outputQuery := Copy(fields);
      var group: Option<seq<ColumnCond>> := None;
      if or.Some? {
        group := or;
      }
      outputQuery := outputQuery.Delete("queryObject");
      outputQuery := outputQuery.Delete("options");
      assert outputQuery.vals == fields.vals - {"queryObject", "options"};
      assert outputQuery.keys == [] <==> outputQuery.vals == map[] by {
        assert outputQuery.keys != [] ==> outputQuery.keys[0] in outputQuery.vals;
      }
      if outputQuery.keys == [] && group.None? {
        return None;
      }
      return Some(Plain(outputQuery, group));
    }

    /** Calling `done()` twice gives equal results. */
    method DoneTwice() returns (first: Option<Plain>, second: Option<Plain>)
      requires Valid()
      ensures first == second
    {
      first := Done();
      second := Done();
    }
  }
}

/** What index.js promises, proved of the reference definitions. */
module WhereProperties {
  import opened Js
  import opened Where

  /** The prefilter and the query string merge: a key's parsed value lists
      its query-string values, then its prefilter values, except that a
      configured search term replaces `search` outright. */
  lemma {:induction false} PrefilterMerges(raw: seq<(string, string)>, prefilter: Dict<Value>, search: string, k: string)
    requires prefilter.Valid()
    ensures search != "" ==> Seeded(raw, prefilter, search).vals["search"] == Str(search)
    ensures !(search != "" && k == "search") ==>
      var all := ValuesOf(raw, k) + (if k in prefilter.vals then Items(prefilter.vals[k]) else []);
      && (k in Seeded(raw, prefilter, search).vals <==> all != [])
      && (k in Seeded(raw, prefilter, search).vals ==> Items(Seeded(raw, prefilter, search).vals[k]) == all)
  {
    ValuesOfConcat(raw, FormPairs(prefilter), k);
    FieldPairsValues(prefilter.keys, prefilter.vals, k);
    ParseCollects(raw + FormPairs(prefilter), k);
  }

  /** An alias entry naming the same key twice removes that key. */
  lemma SelfEntryRemoves(q: Dict<Value>, key: string)
    requires q.Valid()
    ensures key !in Rename(q, key, key).vals
    ensures Rename(q, key, key).vals == q.vals - {key}
  {
  }

  /** The alias loop does not touch keys no entry names. */
  lemma {:induction false} AliasedUntouched(q: Dict<Value>, alias: Dict<string>, n: nat, k: string)
    requires q.Valid() && alias.Valid() && n <= |alias.keys|
    requires k !in alias.keys[..n]
    requires forall i :: 0 <= i < n ==> alias.vals[alias.keys[i]] != k
    ensures k in Aliased(q, alias, n).vals <==> k in q.vals
    ensures k in q.vals ==> Aliased(q, alias, n).vals[k] == q.vals[k]
  {
    if n > 0 {
      var key := alias.keys[n - 1];
      assert k != key && k != alias.vals[key] by {
        assert alias.keys[..n] == alias.keys[..n - 1] + [key];
      }
      AliasedUntouched(q, alias, n - 1, k);
      RenameElsewhere(Aliased(q, alias, n - 1), key, alias.vals[key], k);
      assert Aliased(q, alias, n) == Rename(Aliased(q, alias, n - 1), key, alias.vals[key]);
    }
  }

  /** Every entry `key -> target` whose names no other entry mentions ends as
      promised: `target` is gone, and `key` holds `target`'s former value
      when the two differ and `target` was there, and is gone otherwise. */
  lemma {:induction false} AliasedEntry(q: Dict<Value>, alias: Dict<string>, n: nat, i: nat)
    requires q.Valid() && alias.Valid() && i < n <= |alias.keys|
    requires Unshared(alias, i)
    ensures var key, target := alias.keys[i], alias.vals[alias.keys[i]];
      && target !in Aliased(q, alias, n).vals
      && (key in Aliased(q, alias, n).vals <==> key != target && target in q.vals)
      && (key != target && target in q.vals ==> Aliased(q, alias, n).vals[key] == q.vals[target])
  {
    var key, target := alias.keys[i], alias.vals[alias.keys[i]];
    var key', target' := alias.keys[n - 1], alias.vals[alias.keys[n - 1]];
    var prev := Aliased(q, alias, n - 1);
    if i == n - 1 {
      assert (target in prev.vals <==> target in q.vals)
          && (target in prev.vals ==> prev.vals[target] == q.vals[target]) by {
        assert forall j :: 0 <= j < n - 1 ==> alias.keys[j] != target && alias.vals[alias.keys[j]] != target;
        AliasedUntouched(q, alias, n - 1, target);
      }
      RenameOutcome(prev, key, target);
    } else {
      assert key != key' && key != target' && target != key' && target != target' by {
        assert Distinct(alias.keys);
      }
      assert && target !in prev.vals
             && (key in prev.vals <==> key != target && target in q.vals)
             && (key != target && target in q.vals ==> prev.vals[key] == q.vals[target]) by {
        AliasedEntry(q, alias, n - 1, i);
      }
      RenameElsewhere(prev, key', target', key);
      RenameElsewhere(prev, key', target', target);
    }
    assert Aliased(q, alias, n) == Rename(prev, key', target');
  }

  /** A conversion throws exactly when `decodeURI` does; otherwise the result
      has the same kind, and its text is the decoded text. */
  lemma {:induction false} ConvertedText(v: Value, decode: Decoder)
    ensures Converted(v, decode).Some? <==> decode(ToString(v)).Some?
    ensures Converted(v, decode).Some? ==>
      && Converted(v, decode).value.Arr? == v.Arr?
      && ToString(Converted(v, decode).value) == decode(ToString(v)).value
  {
    if decode(ToString(v)).Some? && v.Arr? {
      JoinSplit(decode(ToString(v)).value);
    }
  }

  /** Where `decodeURI` changes nothing, an array of comma-free items comes
      back as it was, empty items included, and a string comes back whole,
      commas included: `filterBy` differs from sequelize-easy-query.js here. */
  lemma {:induction false} PiecesKept(items: seq<string>, s: string, decode: Decoder)
    requires |items| >= 1 && forall i :: 0 <= i < |items| ==> ',' !in items[i]
    requires decode(Join(items)) == Some(Join(items)) && decode(s) == Some(s)
    ensures Converted(Arr(items), decode) == Some(Arr(items))
    ensures Converted(Str(s), decode) == Some(Str(s))
  {
    SplitJoin(items);
  }

  /** A `filterBy` run that did not throw set every listed key with a present
      value to its conversion. */
  lemma {:induction false} FilteredSets(fields: Dict<Value>, q: Dict<Value>, keys: seq<string>, decode: Decoder,
                                        n: nat, i: nat)
    requires fields.Valid() && q.Valid() && i < n <= |q.keys|
    requires Filtered(fields, q, keys, decode, n).ok
    requires Eligible(q, keys, q.keys[i])
    ensures q.keys[i] in Filtered(fields, q, keys, decode, n).fields.vals
    ensures Converted(q.vals[q.keys[i]], decode) == Some(Filtered(fields, q, keys, decode, n).fields.vals[q.keys[i]])
  {
    var s, k := Filtered(fields, q, keys, decode, n - 1), q.keys[n - 1];
    var f := Filtered(fields, q, keys, decode, n).fields;
    assert s.ok;
    if Eligible(q, keys, k) {
      assert Converted(q.vals[k], decode).Some?;
      assert f.vals == s.fields.vals[k := Converted(q.vals[k], decode).value];
    } else {
      assert f == s.fields;
    }
    if i < n - 1 {
      FilteredSets(fields, q, keys, decode, n - 1, i);
      assert q.keys[i] != k;
      assert f.vals[q.keys[i]] == s.fields.vals[q.keys[i]];
    } else {
      assert q.keys[i] == k && f.vals[k] == Converted(q.vals[k], decode).value;
    }
  }

  /** Whether or not it threw, a `filterBy` run changed only listed keys
      with a present value, each to its conversion. */
  lemma {:induction false} FilteredGuard(fields: Dict<Value>, q: Dict<Value>, keys: seq<string>, decode: Decoder, n: nat)
    requires fields.Valid() && q.Valid() && n <= |q.keys|
    ensures var f := Filtered(fields, q, keys, decode, n).fields;
      forall k :: k in f.vals ==>
        || (k in fields.vals && f.vals[k] == fields.vals[k])
        || (k in q.keys[..n] && Eligible(q, keys, k) && Converted(q.vals[k], decode) == Some(f.vals[k]))
    ensures forall k :: k in fields.vals ==> k in Filtered(fields, q, keys, decode, n).fields.vals
  {
    if n > 0 {
      FilteredGuard(fields, q, keys, decode, n - 1);
      var s, k := Filtered(fields, q, keys, decode, n - 1), q.keys[n - 1];
      assert q.keys[..n] == q.keys[..n - 1] + [k];
      if !s.ok || !Eligible(q, keys, k) {
        assert Filtered(fields, q, keys, decode, n) == s;
      } else if Converted(q.vals[k], decode).None? {
        assert Filtered(fields, q, keys, decode, n) == Step(s.fields, false);
      } else {
        assert Filtered(fields, q, keys, decode, n) == Step(s.fields.Put(k, Converted(q.vals[k], decode).value), true);
      }
    }
  }

  /** A `filterBy` run throws exactly when some listed key with a present
      value fails to convert. */
  lemma {:induction false} FilteredThrows(fields: Dict<Value>, q: Dict<Value>, keys: seq<string>, decode: Decoder, n: nat)
    requires fields.Valid() && q.Valid() && n <= |q.keys|
    ensures !Filtered(fields, q, keys, decode, n).ok <==>
      exists i :: 0 <= i < n && Eligible(q, keys, q.keys[i]) && Converted(q.vals[q.keys[i]], decode).None?
  {
    if n > 0 {
      var s, k := Filtered(fields, q, keys, decode, n - 1), q.keys[n - 1];
      FilteredThrows(fields, q, keys, decode, n - 1);
      if !s.ok {
        assert Filtered(fields, q, keys, decode, n) == s;
        var i :| 0 <= i < n - 1 && Eligible(q, keys, q.keys[i]) && Converted(q.vals[q.keys[i]], decode).None?;
        assert 0 <= i < n;
      } else if Eligible(q, keys, k) && Converted(q.vals[k], decode).None? {
        assert Filtered(fields, q, keys, decode, n) == Step(s.fields, false);
        assert Eligible(q, keys, q.keys[n - 1]) && Converted(q.vals[q.keys[n - 1]], decode).None?;
      } else {
        assert Filtered(fields, q, keys, decode, n).ok;
        forall i | 0 <= i < n && Eligible(q, keys, q.keys[i])
          ensures Converted(q.vals[q.keys[i]], decode).Some?
        {
          if i < n - 1 {
            assert !(Eligible(q, keys, q.keys[i]) && Converted(q.vals[q.keys[i]], decode).None?);
          }
        }
      }
    }
  }
}
