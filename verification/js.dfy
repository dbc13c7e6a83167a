/** The JavaScript and Node `querystring` data that both translators work on:
    plain objects with ordered string keys, the values `querystring.parse`
    produces, `String.prototype.split(",")`, `Array.prototype.join(",")`, and
    the alias step that both translators share. */
module Js {

  datatype Option<T> = None | Some(value: T)

  datatype Result<T, E> = Success(value: T) | Failure(error: E)

  /** `o || default` for an option that is either unset or truthy. */
  function GetOr<T>(o: Option<T>, default: T): T {
    if o.Some? then o.value else default
  }

  /** A value of a parsed query object: a key that occurs once gives a string,
      a key that occurs more than once gives the array of its values in order. */
  datatype Value = Str(s: string) | Arr(items: seq<string>)

  predicate Distinct(s: seq<string>) {
    forall i, j :: 0 <= i < j < |s| ==> s[i] != s[j]
  }

  /** `s` with every occurrence of `x` taken out, the rest in order. */
  function Remove(s: seq<string>, x: string): (r: seq<string>)
    ensures forall y :: y in r <==> y in s && y != x
    ensures Distinct(s) ==> Distinct(r)
    ensures |r| <= |s|
    ensures x !in s ==> r == s
  {
    if s == [] then []
    else if s[0] == x then Remove(s[1..], x)
    else
      var r := Remove(s[1..], x);
      assert Distinct(s) ==> Distinct([s[0]] + r) by {
        if Distinct(s) {
          assert forall j :: 0 <= j < |s[1..]| ==> s[1..][j] != s[0];
          assert Distinct(s[1..]);
          forall i, j | 0 <= i < j < |[s[0]] + r| ensures ([s[0]] + r)[i] != ([s[0]] + r)[j] {
            if i == 0 {
              assert r[j - 1] in r;
            }
          }
        }
      }
      [s[0]] + r
  }

  /** Removing from a sequence with one more element at its end. */
  lemma {:induction false} RemoveAppend(s: seq<string>, y: string, x: string)
    ensures Remove(s + [y], x) == Remove(s, x) + (if y == x then [] else [y])
  {
    if s == [] {
      assert Remove([y], x) == (if y == x then [] else [y]) + Remove([], x);
    } else {
      assert (s + [y])[1..] == s[1..] + [y];
      RemoveAppend(s[1..], y, x);
    }
  }

  /** `Remove` keeps each other element as often as it was, and takes out
      every `x`. */
  lemma {:induction false} RemoveCount(s: seq<string>, x: string)
    ensures multiset(Remove(s, x)) == multiset(s)[x := 0]
    decreases |s|
  {
    if s != [] {
      var pre, last := s[..|s| - 1], s[|s| - 1];
      var rest := if last == x then [] else [last];
      assert s == pre + [last];
      assert multiset(s) == multiset(pre) + multiset{last};
      RemoveCount(pre, x);
      RemoveAppend(pre, last, x);
      assert multiset(Remove(s, x)) == multiset(Remove(pre, x)) + multiset(rest);
    }
  }

  /** `Remove` keeps the other elements in their order. */
  lemma {:induction false} RemoveOrder(s: seq<string>, x: string)
    ensures Subseq(Remove(s, x), s)
    decreases |s|
  {
    if s != [] {
      var pre, last := s[..|s| - 1], s[|s| - 1];
      assert s == pre + [last];
      RemoveOrder(pre, x);
      RemoveAppend(pre, last, x);
      if last == x {
        assert Remove(s, x) == Remove(pre, x);
        SubseqExtend(Remove(pre, x), pre, last);
      } else {
        assert Remove(s, x) == Remove(pre, x) + [last];
        SubseqAppend(Remove(pre, x), pre, last);
      }
    }
  }

  /** A plain JavaScript object with string keys: `keys` lists them in the
      order `Object.keys` returns them (insertion order), `vals` gives the
      value of each. */
  datatype Dict<V> = Dict(keys: seq<string>, vals: map<string, V>) {

    predicate Valid() {
      && Distinct(keys)
      && (forall k :: k in keys ==> k in vals)
      && (forall k :: k in vals ==> k in keys)
    }

    /** `o[k] = v`: an existing key keeps its place, a new key goes last. */
    function Put(k: string, v: V): (d: Dict<V>)
      requires Valid()
      ensures d.Valid()
      ensures d.vals == vals[k := v]
      ensures k in vals ==> d.keys == keys
      ensures k !in vals ==> d.keys == keys + [k]
    {
      if k in vals then Dict(keys, vals[k := v]) else Dict(keys + [k], vals[k := v])
    }

    /** `delete o[k]`: the other keys keep their order. */
    function Delete(k: string): (d: Dict<V>)
      requires Valid()
      ensures d.Valid()
      ensures d.vals == vals - {k}
      ensures d.keys == Remove(keys, k)
      ensures Subseq(d.keys, keys)
    {
      RemoveOrder(keys, k);
      Dict(Remove(keys, k), vals - {k})
    }
  }

  function Empty<V>(): (d: Dict<V>)
    ensures d.Valid() && d.keys == [] && d.vals == map[]
  {
    Dict([], map[])
  }

  // ---------------------------------------------------------------------
  // Order-preserving selection

  /** `xs` is `ys` with some elements left out, the rest in their order. */
  predicate Subseq(xs: seq<string>, ys: seq<string>)
    decreases |ys|
  {
    if xs == [] then true
    else if ys == [] then false
    else if xs[|xs| - 1] == ys[|ys| - 1] then Subseq(xs[..|xs| - 1], ys[..|ys| - 1])
    else Subseq(xs, ys[..|ys| - 1])
  }

  lemma {:induction false} SubseqDropLast(xs: seq<string>, ys: seq<string>)
    requires xs != [] && Subseq(xs, ys)
    ensures Subseq(xs[..|xs| - 1], ys)
    decreases |ys|, 0
  {
    var xs' := xs[..|xs| - 1];
    if xs' == [] {
    } else if xs[|xs| - 1] == ys[|ys| - 1] {
      SubseqDropLast(xs', ys[..|ys| - 1]);
      SubseqExtend(xs'[..|xs'| - 1], ys[..|ys| - 1], ys[|ys| - 1]);
      assert ys[..|ys| - 1] + [ys[|ys| - 1]] == ys;
      if xs'[|xs'| - 1] != ys[|ys| - 1] {
        assert Subseq(xs', ys) == Subseq(xs', ys[..|ys| - 1]);
      }
    } else {
      SubseqDropLast(xs, ys[..|ys| - 1]);
      if xs'[|xs'| - 1] == ys[|ys| - 1] {
        SubseqDropLast(xs', ys[..|ys| - 1]);
      }
    }
  }

  /** A selection of `ys` stays a selection when `ys` grows. */
  lemma {:induction false} SubseqExtend(xs: seq<string>, ys: seq<string>, z: string)
    requires Subseq(xs, ys)
    ensures Subseq(xs, ys + [z])
    decreases |ys|, 1
  {
    if xs != [] {
      assert (ys + [z])[..|ys|] == ys;
      if xs[|xs| - 1] == z {
        SubseqDropLast(xs, ys);
      }
    }
  }

  /** Appending a new element keeps the elements distinct. */
  lemma DistinctAppend(xs: seq<string>, z: string)
    requires Distinct(xs) && z !in xs
    ensures Distinct(xs + [z])
  {
  }

  /** Appending the same element to both keeps a selection. */
  lemma SubseqAppend(xs: seq<string>, ys: seq<string>, z: string)
    requires Subseq(xs, ys)
    ensures Subseq(xs + [z], ys + [z])
  {
    assert (xs + [z])[..|xs|] == xs;
    assert (ys + [z])[..|ys|] == ys;
  }

  // ---------------------------------------------------------------------
  // split and join

  /** `s.split(",")`: the pieces between the commas, never fewer than one. */
  function Split(s: string): (r: seq<string>)
    ensures |r| >= 1
    ensures forall i :: 0 <= i < |r| ==> ',' !in r[i]
    decreases |s|
  {
    if s == [] then [""]
    else if s[0] == ',' then [""] + Split(s[1..])
    else
      var rest := Split(s[1..]);
      [[s[0]] + rest[0]] + rest[1..]
  }

  /** `parts.join(",")`, which is also what `String(parts)` gives. */
  function Join(parts: seq<string>): string
  {
    if parts == [] then ""
    else if |parts| == 1 then parts[0]
    else parts[0] + "," + Join(parts[1..])
  }

  /** Joining the pieces of a split gives back the string. */
  lemma {:induction false} JoinSplit(s: string)
    ensures Join(Split(s)) == s
    decreases |s|
  {
    if s == [] {
    } else if s[0] == ',' {
      JoinSplit(s[1..]);
      assert s == [','] + s[1..];
    } else {
      JoinSplit(s[1..]);
      var rest := Split(s[1..]);
      if |rest| == 1 {
        assert s == [s[0]] + s[1..];
      } else {
        assert ([[s[0]] + rest[0]] + rest[1..])[1..] == rest[1..];
        assert s == [s[0]] + (rest[0] + "," + Join(rest[1..]));
      }
    }
  }

  /** A string without commas splits into itself. */
  lemma {:induction false} SplitNoComma(a: string)
    requires ',' !in a
    ensures Split(a) == [a]
    decreases |a|
  {
    if a != [] {
      SplitNoComma(a[1..]);
      assert [a[0]] + a[1..] == a;
    }
  }

  /** A comma-free head followed by a comma splits off as one piece. */
  lemma {:induction false} SplitHead(a: string, b: string)
    requires ',' !in a
    ensures Split(a + "," + b) == [a] + Split(b)
    decreases |a|
  {
    if a == [] {
      assert a + "," + b == [','] + b;
      assert (a + "," + b)[1..] == b;
    } else {
      SplitHead(a[1..], b);
      assert (a + "," + b)[1..] == a[1..] + "," + b;
      assert [a[0]] + a[1..] == a;
    }
  }

  /** Splitting a join of comma-free pieces gives the pieces back. */
  lemma {:induction false} SplitJoin(parts: seq<string>)
    requires |parts| >= 1
    requires forall i :: 0 <= i < |parts| ==> ',' !in parts[i]
    ensures Split(Join(parts)) == parts
  {
    if |parts| == 1 {
      SplitNoComma(parts[0]);
    } else {
      SplitJoin(parts[1..]);
      SplitHead(parts[0], Join(parts[1..]));
      assert [parts[0]] + parts[1..] == parts;
    }
  }

  /** `String(v)` for a parsed value. */
  function ToString(v: Value): string {
    match v
    case Str(s) => s
    case Arr(xs) => Join(xs)
  }

  /** The non-empty pieces of `String(v).split(",")`, in order. */
  function Segments(v: Value): (r: seq<string>)
    ensures forall i :: 0 <= i < |r| ==> r[i] != "" && ',' !in r[i]
    ensures forall x :: x in r <==> x in Split(ToString(v)) && x != ""
    ensures multiset(r) == multiset(Split(ToString(v)))["" := 0]
    ensures Subseq(r, Split(ToString(v)))
  {
    var r := Remove(Split(ToString(v)), "");
    RemoveCount(Split(ToString(v)), "");
    RemoveOrder(Split(ToString(v)), "");
    assert forall i :: 0 <= i < |r| ==> r[i] in r;
    r
  }

  /** `hasValue` of sequelize-easy-query.js, and the `!== undefined && !== null
      && !== ''` test of index.js, on a parsed value. For strings and arrays
      this is also JavaScript truthiness. */
  predicate HasValue(v: Value) {
    match v
    case Str(s) => s != ""
    case Arr(_) => true
  }

  // ---------------------------------------------------------------------
  // querystring.parse and querystring.stringify

  /** The strings a parsed value stands for. */
  function Items(v: Value): seq<string> {
    match v
    case Str(s) => [s]
    case Arr(xs) => xs
  }

  /** One more occurrence of a key: a string becomes a two-element array, an
      array grows by one. */
  function Append(v: Value, x: string): (r: Value)
    ensures Items(r) == Items(v) + [x]
  {
    match v
    case Str(s) => Arr([s, x])
    case Arr(xs) => Arr(xs + [x])
  }

  /** Parsing one more decoded `key=value` pair. */
  function Add(q: Dict<Value>, k: string, x: string): (r: Dict<Value>)
    requires q.Valid()
    ensures r.Valid()
  {
    if k in q.vals then q.Put(k, Append(q.vals[k], x)) else q.Put(k, Str(x))
  }

  /** `querystring.parse`, given the decoded pairs of the string in order. */
  function Parse(pairs: seq<(string, string)>): (q: Dict<Value>)
    ensures q.Valid()
    decreases |pairs|
  {
    if pairs == [] then Empty()
    else
      var p := pairs[|pairs| - 1];
      Add(Parse(pairs[..|pairs| - 1]), p.0, p.1)
  }

  /** The values given to key `k` in `pairs`, in order. */
  function ValuesOf(pairs: seq<(string, string)>, k: string): seq<string>
    decreases |pairs|
  {
    if pairs == [] then []
    else
      var p := pairs[|pairs| - 1];
      ValuesOf(pairs[..|pairs| - 1], k) + (if p.0 == k then [p.1] else [])
  }

  lemma {:induction false} ValuesOfConcat(a: seq<(string, string)>, b: seq<(string, string)>, k: string)
    ensures ValuesOf(a + b, k) == ValuesOf(a, k) + ValuesOf(b, k)
    decreases |b|
  {
    if b == [] {
      assert a + b == a;
    } else {
      var b' := b[..|b| - 1];
      assert (a + b)[..|a + b| - 1] == a + b';
      ValuesOfConcat(a, b', k);
    }
  }

  /** `querystring.parse` keeps every value: a key is in the parsed object
      exactly when some pair names it, its value lists all the pair values
      for it in order, and it is an array exactly when there are several. */
  lemma {:induction false} ParseCollects(pairs: seq<(string, string)>, k: string)
    ensures k in Parse(pairs).vals <==> ValuesOf(pairs, k) != []
    ensures k in Parse(pairs).vals ==> Items(Parse(pairs).vals[k]) == ValuesOf(pairs, k)
    ensures k in Parse(pairs).vals ==> (Parse(pairs).vals[k].Arr? <==> |ValuesOf(pairs, k)| >= 2)
    decreases |pairs|
  {
    if pairs != [] {
      var pre := pairs[..|pairs| - 1];
      ParseCollects(pre, k);
      var q := Parse(pre);
      if k in q.vals {
        match q.vals[k]
        case Str(_) =>
        case Arr(xs) => assert |xs| >= 2;
      }
    }
  }

  /** A parsed key fails `hasValue` exactly when it occurs once, with an
      empty value: `a=` counts as absent, `a=&a=` does not. */
  lemma PresentInQuery(pairs: seq<(string, string)>, k: string)
    requires k in Parse(pairs).vals
    ensures HasValue(Parse(pairs).vals[k]) <==> ValuesOf(pairs, k) != [""]
  {
    ParseCollects(pairs, k);
  }

  /** The pairs `querystring.stringify` writes for one key: one per item, none
      for an empty array. */
  function KeyPairs(k: string, v: Value): (r: seq<(string, string)>)
    ensures |r| == |Items(v)|
    ensures forall i :: 0 <= i < |r| ==> r[i] == (k, Items(v)[i])
  {
    seq(|Items(v)|, i requires 0 <= i < |Items(v)| => (k, Items(v)[i]))
  }

  /** The pairs of `querystring.stringify(d)` restricted to `keys`, in order. */
  function FieldPairs(keys: seq<string>, vals: map<string, Value>): seq<(string, string)>
    requires forall k :: k in keys ==> k in vals
    decreases |keys|
  {
    if keys == [] then []
    else
      var k := keys[|keys| - 1];
      FieldPairs(keys[..|keys| - 1], vals) + KeyPairs(k, vals[k])
  }

  /** `querystring.stringify(d)`, as the pairs that parsing it gives back. */
  function FormPairs(d: Dict<Value>): seq<(string, string)>
    requires d.Valid()
  {
    FieldPairs(d.keys, d.vals)
  }

  lemma {:induction false} KeyPairsValues(k: string, v: Value, j: string)
    ensures ValuesOf(KeyPairs(k, v), j) == if j == k then Items(v) else []
    decreases |Items(v)|
  {
    var r := KeyPairs(k, v);
    if r != [] {
      var v' := if v.Str? then Arr([]) else Arr(Items(v)[..|Items(v)| - 1]);
      assert r[..|r| - 1] == KeyPairs(k, v');
      KeyPairsValues(k, v', j);
    }
  }

  /** Stringifying an object and parsing it again yields, for each key, the
      items of its value; keys it does not have get nothing. */
  lemma {:induction false} FieldPairsValues(keys: seq<string>, vals: map<string, Value>, j: string)
    requires forall k :: k in keys ==> k in vals
    requires Distinct(keys)
    ensures ValuesOf(FieldPairs(keys, vals), j) == if j in keys then Items(vals[j]) else []
    decreases |keys|
  {
    if keys != [] {
      var k := keys[|keys| - 1];
      var pre := keys[..|keys| - 1];
      assert keys == pre + [k];
      assert Distinct(pre) && k !in pre && forall k' :: k' in pre ==> k' in vals;
      FieldPairsValues(pre, vals, j);
      ValuesOfConcat(FieldPairs(pre, vals), KeyPairs(k, vals[k]), j);
      KeyPairsValues(k, vals[k], j);
      assert FieldPairs(keys, vals) == FieldPairs(pre, vals) + KeyPairs(k, vals[k]);
      assert (j in keys) == (j == k || j in pre);
    }
  }

  // ---------------------------------------------------------------------
  // The alias step

  /** One alias entry `key -> target` applied to a query object, as both
      translators write it: drop `key`, then if `target` is there, move its
      value to `key` (which goes last) and drop `target`. */
  function Rename(q: Dict<Value>, key: string, target: string): (r: Dict<Value>)
    requires q.Valid()
    ensures r.Valid()
    ensures key != target ==> target !in r.vals
    ensures key != target ==> (key in r.vals <==> target in q.vals)
    ensures key != target && target in q.vals ==> r.vals[key] == q.vals[target] && r.keys[|r.keys| - 1] == key
    ensures key == target ==> r == q.Delete(key)
  {
    var q1 := if key in q.vals then q.Delete(key) else q;
    if target in q1.vals then
      assert key != target;
      var q2 := q1.Put(key, q1.vals[target]);
      assert q2.Delete(target).keys == Remove(q1.keys, target) + [key] by {
        RemoveAppend(q1.keys, key, target);
      }
      q2.Delete(target)
    else q1
  }

  /** What one alias entry does to its two names. */
  lemma RenameOutcome(q: Dict<Value>, key: string, target: string)
    requires q.Valid()
    ensures target !in Rename(q, key, target).vals
    ensures key in Rename(q, key, target).vals <==> key != target && target in q.vals
    ensures key != target && target in q.vals ==> Rename(q, key, target).vals[key] == q.vals[target]
  {
  }

  /** An alias entry leaves a name it does not mention alone. */
  lemma RenameElsewhere(q: Dict<Value>, key: string, target: string, k: string)
    requires q.Valid() && k != key && k != target
    ensures k in Rename(q, key, target).vals <==> k in q.vals
    ensures k in q.vals ==> Rename(q, key, target).vals[k] == q.vals[k]
  {
  }

  /** No other entry of the alias table mentions a name of entry `i`. */
  predicate Unshared(alias: Dict<string>, i: nat)
    requires alias.Valid() && i < |alias.keys|
  {
    forall j :: 0 <= j < |alias.keys| && j != i ==>
      && alias.keys[j] != alias.vals[alias.keys[i]]
      && alias.vals[alias.keys[j]] != alias.keys[i]
      && alias.vals[alias.keys[j]] != alias.vals[alias.keys[i]]
  }
}
