# sequelize-easy-query, modelled in Dafny

sequelize-easy-query turns an HTTP query string into the `where` object or
the `order` list of a Sequelize query. The repository has two translators,
and this project models both:

- `sequelize-easy-query.js` exports one function. It is given the raw query
  string and an options object (`filter`, `filterBy`, `filterByAlias`,
  `order`, `orderBy`, `orderByAlias`, `search`, `searchBy`). The function
  parses the query string together with the stringified defaults and the
  search term, and renames the aliased keys. Then it builds one of two
  results, or null when nothing was produced:
  - a `where` object: the listed keys, each with the non-empty comma
    separated pieces of its value, plus an `[Op.or]` group of `%term%`
    LIKEs per search column;
  - an `order` list of `[key, first piece]` pairs.
- `index.js` defines the class `SequelizeWhere`:
  - The constructor parses the query string with the stringified
    `prefilter`, puts the configured search term in place and applies the
    aliases.
  - `filterBy` and `searchBy` copy conditions onto the instance and return
    it for chaining.
  - `done` returns the instance's conditions as a plain object, or null.

The project has four modules, one per file:

- `Js` (`js.dfy`) holds the shared JavaScript data:
  - `Dict`, a JavaScript object with its keys in insertion order;
  - `Value`, the string or string array that `querystring.parse` gives a
    key;
  - `String.prototype.split(",")` and `Array.prototype.join(",")`;
  - `querystring.parse` (`Parse`) over the decoded `key=value` pairs of a
    string, and `querystring.stringify` (`FormPairs`) as the pairs that
    parsing its output gives back;
  - `Rename`, the alias step that both translators write the same way.
- `Sequelize` (`sequelize.dfy`): the operators `Op.like` and `Op.or` as the
  constructor tags `Like` and `Or`.
- `EasyQuery` (`easy_query.dfy`):
  - `Translated` is the exported function as a reference definition, built
    from `FilterFields`, `Search` and `OrderPairs`.
  - `Translate` is the same function step by step: the alias loop, the
    "filter by" loop and the "order by" loop. It is proved equal to
    `Translated`.
  - `EasyQueryProperties` proves what the function promises about
    `Translated`.
- `Where` (`where.dfy`):
  - The class `SequelizeWhere` keeps the instance's state in three fields:
    `queryObject`, the conditions `filterBy` set (`fields`), and the
    `[Op.or]` property (`or`).
  - The options live in three constants.
  - The constructor is proved against the reference definition `Prepared`,
    `filterBy` against `Filtered` and `searchBy` against `LikeAll`; `done`
    states its result directly in terms of the instance's fields.
  - `WhereProperties` proves what the class promises about those
    definitions.

The query string enters the model as the decoded `(key, value)` pairs that
`querystring.parse` reads from it. `decodeURI` enters as a parameter
`decode: string -> Option<string>`, where `None` stands for the `URIError`
it throws.

### Behaviour of the code worth knowing

- `sequelize-easy-query.js` always turns a filter value into a list of
  its non-empty comma-separated pieces (line 90). A value without a comma
  still becomes a one-element list, not a scalar.
- In `sequelize-easy-query.js` a default from `filter`/`order` does not
  override the query string's value for the same key. Parsing the joined
  string collects both into an array, query-string values first (line 46,
  `EasyQueryProperties.DefaultsMerge`). `index.js` merges its `prefilter`
  the same way (`WhereProperties.PrefilterMerges`).
- `sequelize-easy-query.js` does not percent-decode values beyond what
  `querystring.parse` does. Only `index.js` calls `decodeURI`.
- `index.js` splits only array values and keeps their empty pieces. It
  does not split strings that contain commas, and it does not split the
  search term (`WhereProperties.PiecesKept`).
- A `URIError` thrown in the middle of `index.js` `filterBy` leaves the
  keys assigned before it on the instance (`Where.SequelizeWhere.FilterBy`).
- `index.js` `searchBy` with no keys and a truthy `search` sets `[Op.or]`
  to an empty group, so `done` then returns an object rather than null.

## Model

| member | source | states |
|---|---|---|
| Js.Dict.Put | sequelize-easy-query.js:60 | assigning a property sets its value; a new key goes last and an existing key keeps its place |
| Js.Dict.Delete | sequelize-easy-query.js:56 | `delete` removes the key and keeps the other keys, in their order |
| Js.RemoveOrder | index.js:106-107 | taking a key out of the key list keeps the other keys in their order |
| Js.RemoveCount | sequelize-easy-query.js:90 | filtering out one string (here the empty piece) keeps every other string as often as it was and leaves none of the removed one |
| Js.Split | sequelize-easy-query.js:90 | `split(',')` gives at least one piece and no piece holds a comma |
| Js.JoinSplit | index.js:68 | `String` of a split array gives back the decoded string, so nothing is lost by splitting |
| Js.SplitJoin | sequelize-easy-query.js:90 | `String(array).split(',')` gives back the array when no item holds a comma |
| Js.Segments | sequelize-easy-query.js:90 | the filtered pieces are the non-empty pieces of the split, each as often as there and in the same order, and none holds a comma |
| Js.Append | sequelize-easy-query.js:46 | a repeated key gets one more value, in order |
| Js.PresentInQuery | sequelize-easy-query.js:18 | `hasValue` fails for a parsed key exactly when the key occurs once with an empty value |
| Js.ParseCollects | sequelize-easy-query.js:46 | a parsed key is there exactly when some pair names it; its value lists every value given for it in order, and is an array exactly when there are two or more |
| Js.KeyPairs | sequelize-easy-query.js:43 | `querystring.stringify` writes one pair per item of a value |
| Js.FieldPairsValues | sequelize-easy-query.js:43 | parsing a stringified object gives each key the items of its value, and nothing to other keys |
| Js.Rename | sequelize-easy-query.js:55-62 | an alias entry with two names leaves the target gone; the key is present exactly when the target was, then with the target's value and as the last key; an entry naming one key twice deletes it |
| Js.RenameOutcome | index.js:43-50 | after one alias entry the target is gone, the key is present exactly when the names differ and the target was there, and then it holds the target's value |
| Js.RenameElsewhere | index.js:43-50 | one alias entry leaves every other key and its value alone |
| Sequelize.Contains | sequelize-easy-query.js:103 | the LIKE pattern is the term with one `%` before and one after |
| EasyQuery.AliasEntry | sequelize-easy-query.js:50-53 | an entry whose alias equals its key leaves the query object unchanged |
| EasyQuery.FilterFieldsKeys | sequelize-easy-query.js:86-94 | the `where` fields are exactly the listed keys other than `search` with a present value, each mapped to its non-empty pieces |
| EasyQuery.FilterFieldsOrder | sequelize-easy-query.js:86-94 | the `where` fields keep the order of the query object's keys |
| EasyQuery.FilterFieldsEmpty | sequelize-easy-query.js:86-94 | there are no `where` fields exactly when no key passes the filter test |
| EasyQuery.SearchGroup | sequelize-easy-query.js:98-105 | one entry per search column, in order, each an `[Op.or]` with one `%term%` LIKE per non-empty comma-separated term, in order |
| EasyQuery.OrderPairsSound | sequelize-easy-query.js:110-118 | every `order` pair names a listed key with a present value and carries the first comma piece of that value |
| EasyQuery.OrderPairsKeys | sequelize-easy-query.js:110-118 | the `order` pairs name exactly the listed keys with a present value |
| EasyQuery.OrderPairsOrder | sequelize-easy-query.js:110-118 | the `order` pairs name each key once, in the order of the query object |
| EasyQuery.OrderPairsEmpty | sequelize-easy-query.js:110-118 | there are no `order` pairs exactly when no key passes the order test |
| EasyQuery.Translated | sequelize-easy-query.js:23-39 | a non-object `options` throws; otherwise it throws exactly when a `where` option and an `order` option are both set; an `order` list comes only from `order` options and a `where` object only without them |
| EasyQuery.ApplyEntry | sequelize-easy-query.js:50-62 | the body of the alias loop computes one alias entry |
| EasyQuery.ResolveAliases | sequelize-easy-query.js:49-64 | the alias loop applies every entry of the alias table in order |
| EasyQuery.CollectFilters | sequelize-easy-query.js:86-94 | the "filter by" loop builds the `where` fields |
| EasyQuery.CollectOrder | sequelize-easy-query.js:110-118 | the "order by" loop builds the `order` pairs |
| EasyQuery.Translate | sequelize-easy-query.js:23-123 | the function step by step returns what `Translated` defines |
| EasyQueryProperties.AllowedIsDeclared | sequelize-easy-query.js:78-82 | a key is filtered (ordered) on exactly when `filterBy`, `filter` or `filterByAlias` (the `order` options) name it |
| EasyQueryProperties.DefaultsMerge | sequelize-easy-query.js:41-46 | a key of the parsed query holds its query-string values, then its default values, then for `search` the search term; `search` is always there |
| EasyQueryProperties.AliasedUntouched | sequelize-easy-query.js:49-64 | the alias loop leaves a key that no entry names, and its value, alone |
| EasyQueryProperties.AliasedIndependent | sequelize-easy-query.js:49-64 | an entry with two names that no other entry mentions ends with the alias name gone and the key holding the alias's former value, present exactly when the alias was |
| EasyQueryProperties.WhereFields | sequelize-easy-query.js:86-94 | the `where` fields are exactly the declared keys other than `search` with a present value, each holding its non-empty pieces, in query order |
| EasyQueryProperties.NoOrderInWhereMode | sequelize-easy-query.js:109-118 | without `order` options no `order` pair arises |
| EasyQueryProperties.NoWhereInOrderMode | sequelize-easy-query.js:84-107 | with only `order` options no `where` field and no search group arise |
| EasyQueryProperties.SearchRule | sequelize-easy-query.js:96-107 | the `[Op.or]` group is there exactly when `searchBy` is non-empty and `search` is truthy, and is then the search group |
| EasyQueryProperties.NullWhenNothing | sequelize-easy-query.js:120-122 | the result is null exactly when no key yields a field or a pair and there is no search group |
| EasyQueryProperties.OrderList | sequelize-easy-query.js:109-122 | with `order` options the result is null or a list of sound `[key, first piece]` pairs, one per declared present key, each once, in query order |
| EasyQueryProperties.OrderListOf | sequelize-easy-query.js:109-118 | the `order` pairs of any query object are sound, cover the declared present keys, name each once and keep query order |
| EasyQueryProperties.CommaOnlyValue | sequelize-easy-query.js:89-90 | a value that is only a comma is present but yields an empty list of pieces |
| Where.ApplyEntry | index.js:41-50 | the body of the alias loop computes one alias entry, with no check for an entry naming the same key twice |
| Where.ResolveAliases | index.js:40-52 | the alias loop applies every entry of the alias table in order |
| Where.Convert | index.js:66-71 | a value is `decodeURI`d and, when it is an array, split at commas |
| Where.FilteredStops | index.js:68-71 | once `decodeURI` has thrown, later keys change nothing |
| Where.CollectField | index.js:62-73 | one turn of the `filterBy` loop |
| Where.CollectFields | index.js:61-75 | the `filterBy` loop over the query object's keys, stopping at the first `URIError` |
| Where.Copy | index.js:98-101 | copying the instance's properties one by one gives the same object, in the same order |
| Where.SequelizeWhere.constructor | index.js:24-53 | `prefilter` and `alias` default to `{}`; the query object is the parsed query string and prefilter, with the configured search term and the aliases applied; there are no conditions yet |
| Where.SequelizeWhere.Create | index.js:16-22 | a non-string query string throws first, then a non-object `options`; otherwise a fresh instance with the options' `prefilter`, `alias` and `search` and the query object, fields and group the constructor leaves |
| Where.SequelizeWhere.FilterBy | index.js:55-78 | the fields become the `filterBy` loop's result over `keys` and the prefilter's keys; it throws exactly when a conversion does, and otherwise returns the instance; the query object and the `[Op.or]` group are unchanged |
| Where.SequelizeWhere.SearchBy | index.js:80-93 | throws exactly when there is a key and `decodeURI` of `search` throws; with a truthy `search` the `[Op.or]` group becomes `LikeAll`: one LIKE `%search%` per key, the whole term in each; otherwise it stays; returns the instance |
| Where.SequelizeWhere.Done | index.js:95-111 | returns the fields without `queryObject` and `options`, in order, plus the `[Op.or]` group; null exactly when there are no such fields and no group; the instance is not changed |
| Where.SequelizeWhere.DoneTwice | index.js:95-111 | two calls of `done` give equal results |
| WhereProperties.PrefilterMerges | index.js:29-37 | a key of the query object holds its query-string values, then its prefilter values; a configured search term replaces `search` outright |
| WhereProperties.SelfEntryRemoves | index.js:40-50 | an alias entry naming the same key twice deletes that key |
| WhereProperties.AliasedUntouched | index.js:40-52 | the alias loop leaves a key that no entry names, and its value, alone |
| WhereProperties.AliasedEntry | index.js:40-52 | an entry whose names no other entry mentions ends with the target gone, and the key holding the target's former value exactly when the two differ and the target was there |
| WhereProperties.ConvertedText | index.js:66-71 | a conversion throws exactly when `decodeURI` does; otherwise it keeps the value's kind, and its text is the decoded text |
| WhereProperties.PiecesKept | index.js:64-71 | where `decodeURI` changes nothing, every array of comma-free items, empty ones included, and every string, commas included, comes back unchanged |
| WhereProperties.FilteredSets | index.js:61-75 | a `filterBy` run that did not throw set every listed key with a present value to its conversion |
| WhereProperties.FilteredGuard | index.js:61-75 | a `filterBy` run, thrown or not, changed only listed keys with a present value, each to its conversion, and removed nothing |
| WhereProperties.FilteredThrows | index.js:61-75 | a `filterBy` run throws exactly when some listed key with a present value fails to convert |

## Left out

- `querystring.parse` and `querystring.stringify` internals are not modelled: separators, percent-decoding, `+` as space, the 1000-key limit and escaping. The query string is given as its decoded pairs, and a stringified object is assumed to parse back into its own pairs.
- `decodeURI` is a parameter: its percent-decoding rules are not modelled, only whether it throws and what it returns.
- `Where.SequelizeWhere.SearchBy`: `decodeURI(search)` runs once per key in the source; the model calls the decoder once, which is the same for a deterministic `decodeURI`.
- `Where.SequelizeWhere.SearchBy`: without a `search` key the source decodes the string "undefined", which never throws; the model passes "undefined" to the decoder and does not fix what the decoder does with it.
- `Op.or` and `Op.like` are the tags `Or` and `Like`; the `'$or'` and `'$like'` fallbacks for a Sequelize without `Op` are not modelled.
- The `is` check (`Object.prototype.toString`) is modelled by the argument datatypes `OptionsArg` and `QueryArg`, whose constructors are the kinds it tells apart; error messages are the tags of `Error`.
- Option values are limited to strings, string arrays and objects of those. A non-string `search`, numbers, booleans or nested objects in `filter`, `order` or `prefilter`, and option values that are set but falsy in other ways are not modelled; a falsy option is the same as an unset one.
- `Js.Dict` keeps keys in insertion order; JavaScript lists integer-like keys first in ascending order, which is not modelled.
- `Where.SequelizeWhere.FilterBy`: in the source the conditions are properties of the instance itself, so a key named `options`, `queryObject` or after a method would overwrite that member; the model keeps the conditions in the separate field `fields` (`done` still drops `queryObject` and `options` from it).
- `Where.SequelizeWhere.FilterBy` and `EasyQuery.FilterAllowed`: `push` adds the prefilter, default and alias keys to the caller's own arrays; the model builds a new list and does not model the caller's arrays growing across calls.
- `EasyQueryProperties.AliasedIndependent` and `WhereProperties.AliasedEntry` state the outcome of an entry only when no other entry mentions its names; for chained or cyclic alias tables the model gives the outcome by the definition `Aliased` alone.
- `Where.SequelizeWhere.Done`: the plain object is returned as a value, so aliasing between the returned arrays and the instance's is not modelled.
