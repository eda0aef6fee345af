# welib in Dafny

welib is a helper library for WeChat Mini Programs. This project models the
deterministic core beneath its glue to the host, and proves what that core
promises. The modelled pieces are:

- the generic object helper `weobj`: iteration with early stop, `map`,
  `isEmpty`, dotted-path lookup and update, deep `extend`, and the
  conversions to plain, transfer and rich form;
- the `Model` base class: `Model.id`, the two projections and the
  constructor;
- the `Url` parameter codec;
- `camelTolowerDash`;
- the `Array.prototype.indexOf` and `remove` polyfills;
- the error table and factories of `Err`;
- the option building of `Http`;
- the two page extensions: the call chain of `extension/page.js` and the
  flag machine of `page-ext.js`.

Modules, one per source file:

| module | file | source |
|---|---|---|
| `JsValue` | js_value.dfy | the JavaScript values the library handles and the language operations its code relies on (truthiness, `instanceof`, property read and write, `String(v)`, `split`, `join`) |
| `WeObj` | object.dfy | object.js |
| `Model` | model.dfy | model.js (the constructor is `WeObj.ModelNew`, since it calls `toRichObject`) |
| `StringUtil` | string.dfy | string.js |
| `ArrayExt` | array_ext.dfy | extension/array.js |
| `Url` | url.dfy | url.js |
| `Err` | err.dfy | err.js |
| `Http` | http.dfy | http.js |
| `PageCommon` | page_common.dfy | what both page files share: the mailbox `Page.dataAcross`, the loading flags, `getPath` and the navigation URL |
| `PageExtension` | page.dfy | extension/page.js |
| `PageExt` | page_ext.dfy | page-ext.js |

## How the model is built

- **Values.** One datatype covers every JavaScript value. An object keeps its
  own keys in insertion order together with a map from key to value (see
  "Left out" for how this differs from `for…in` order). An array
  keeps its elements. A function is known only by an identity.
  - Operations that write into an object in place return the updated value.
  - A write into a nested object is written back along the path that reached
    it.
- **Library callbacks.** `encodeURIComponent`, `decodeURIComponent`,
  `JSON.stringify` and `JSON.parse` are uninterpreted. They are the fields of
  a `Url.Codec` parameter. The round-trip lemmas state the properties they
  need (`Url.EscapesAmp`, `Url.DecodeUndoesEncode`).
- **Iteration.** `each` is modelled by the sequence of calls it makes
  (`WeObj.EachTrace`). The operations built on it (`map`, `isEmpty`, the
  callbacks in url.js) are folds over that trace.
  - For an array the trace holds the index loop and then the `for…in` loop,
    so every element is visited twice.
- **Stateful code.** Where the source updates state, the model is a class
  whose methods change its fields. This covers:
  - `Err`'s static table;
  - `host` in http.js;
  - `pageLoadingFunction` in page-ext.js;
  - the mailbox;
  - the pages themselves.

  Each method is proved equal to a specification function of the old state
  (`ensures (State(), out) == Spec(old(State()), …)`). The properties are
  lemmas about those functions.
- **Loops.** The source's loops are methods with loop invariants, each
  proved equal to the function that specifies it:
  - `indexOf`;
  - `each`;
  - `getValue`;
  - `Err._initial`;
  - the loops of `toParamString` and `fromParamString`;
  - `pageRunChain`.
- **Page callbacks.** Awaited user callbacks (`beforePageLoad`, the page's
  own `onLoad`/`onShow`, the page loading function) are given by their
  outcome: go on, return `false`, or throw. Every call into user code or the
  host is appended to the page's trace (`PageCommon.Event`).

## Model

| member | source | states |
|---|---|---|
| `JsValue.ObjPut` | object.js:48 | `o[k] = v` on an object: the field set, a new key appended to the key order (insertion order) and an existing one kept in place; a well-formed object stays well-formed |
| `JsValue.ObjDelete` | object.js:79-80 | `delete o[k]`: exactly that field removed, the prototype and well-formedness kept |
| `JsValue.OwnKeys` | object.js:62-64 | the keys `hasOwnProperty` lets through are exactly the listed keys holding a field; on a well-formed object that is the key list itself, and no key repeats |
| `JsValue.GetProp` | object.js:16 | reading a property raises `TypeError` exactly on undefined and null, and on an object yields its own field or undefined |
| `JsValue.PutProp` | object.js:31 | writing a property raises `TypeError` exactly on undefined and null, is `ObjPut` on an object, keeps an array an array and leaves a primitive as it is |
| `JsValue.ArrSet` | object.js:78 | `a[i] = v` on an array: position `i` holds `v`, the array grows to `i + 1` with undefined where needed, and nothing else changes |
| `JsValue.PutAllLast` | url.js:31-34 | a run of writes `o[ks[i]] = vs[i]`: the keys become those of `o` plus `ks`; a key's value is the one of its last write, and untouched keys keep theirs |
| `JsValue.PutAllFresh` | url.js:6-13 | writing distinct new keys appends them to the key order in turn, each with its value, and keeps what the object held |
| `JsValue.NatToString` | object.js:62 | the decimal form of an array index, as `for…in` yields it: digits only, no leading zero |
| `JsValue.ParseIndexOfNatToString` | object.js:62 | reading the decimal form of an index back gives the index |
| `JsValue.NatToStringInjective` | object.js:62 | distinct indices have distinct decimal forms |
| `JsValue.IndexOfChar` | url.js:32 | `indexOf` of a character: the first position holding it, or -1 exactly when it does not occur |
| `JsValue.Split` | object.js:13 | `split(sep)` gives at least one piece, and no piece contains the separator |
| `JsValue.SplitJoin` | url.js:23-29 | splitting the join of pieces free of the separator gives back the pieces |
| `JsValue.JoinSplit` | url.js:29 | joining what `split` gives, with the same separator, gives back the string |
| `WeObj.Kept` | object.js:65-66 | the `excludeFunction` test keeps only visits from the input, and never a function value when it is set |
| `WeObj.LoopStopsAtFirstFalse` | object.js:58-68 | a loop of `each` calls the callback on a prefix of the entries it keeps; no call before the last one returned `false`, and when the loop ends early the last call did |
| `WeObj.LoopWithoutStop` | object.js:58-68 | a callback that never returns `false` is called on every kept entry |
| `WeObj.LoopEmpty` | object.js:62-68 | a loop makes no call exactly when it keeps no entry |
| `WeObj.KeptNone` | object.js:65-66 | nothing is kept exactly when every entry is a function that is skipped |
| `WeObj.KeptAll` | object.js:57-60 | without `excludeFunction` every entry is kept |
| `WeObj.ArrayVisitedTwice` | object.js:57-69 | `each` over an array calls back once per index in the index loop and once more per index string in the `for…in` loop: twice the length |
| `WeObj.ExcludedFunctionsNotVisited` | object.js:65-66 | with `excludeFunction` set, `each` over an object never passes a function value |
| `WeObj.RunLoop` | object.js:58-68 | the loop method calls back exactly as the specification `Loop` says |
| `WeObj.Each` | object.js:54-71 | the method makes exactly the calls `EachTrace` describes: nothing for a non-object, the index loop of an array, then the `for…in` loop |
| `WeObj.IsEmptyIffNoVisit` | object.js:6-10 | `isEmpty` holds exactly when `each`, with any callback, makes no call, and exactly when every own entry is one that is skipped |
| `WeObj.IsEmpty` | object.js:6-10 | `isEmpty` holds exactly when there is no own entry `each` would visit: an empty array, an object whose every own key is skipped (a function under `excludeFunction`), or a non-object; the link to `each` is `WeObj.IsEmptyIffNoVisit` |
| `WeObj.EmptyTraceIff` | object.js:54-71 | `each` makes no call exactly when the value has no entry it would visit |
| `WeObj.ObjNoEntry` | object.js:62-66 | the `for…in` loop over an object visits nothing exactly when every own value is a function that is skipped |
| `WeObj.AllVisits` | object.js:77 | `map`'s `each` visits every own key of an object once and every element of an array twice |
| `WeObj.MapVisitsAll` | object.js:77-81 | `map`'s callback never stops `each`, so it sees all of those visits |
| `WeObj.Store` | object.js:78-80 | one step of `map`: an object stays an object with its prototype, an array an array |
| `WeObj.StoreFresh` | object.js:78-80 | one step of `map` on a new key: the result is stored and its key appended, unless the result is undefined, in which case nothing is kept |
| `WeObj.MapWith` | object.js:76-82 | `map` starts from `[]` for an array and `{}` otherwise, and so yields an object or an array |
| `WeObj.Map` | object.js:73-83 | `map` is undefined exactly for a non-object |
| `WeObj.MapObj` | object.js:73-83 | `map` over a well-formed object gives a plain object holding exactly the keys whose callback result is not undefined, in order, each with that result |
| `WeObj.MapArr` | object.js:76-82 | `map` over an array gives the array of the callback's results on each index string, the later `for…in` call overwriting the index loop's |
| `WeObj.ToPlain` | object.js:85-91 | `toPlainObject` is undefined only for undefined, and leaves every primitive as it is |
| `WeObj.HasTransfer` | object.js:96 | the test `o.toTransferObject`: a model inherits the method, any other object is tested on its own field |
| `WeObj.ToTransfer` | object.js:93-99 | `toTransferObject` is undefined exactly for undefined and for an object whose `toTransferObject` is truthy (a model, or an object holding a truthy field of that name), and leaves every primitive as it is |
| `WeObj.ToPlainIsMap` | object.js:90 | on a non-model object or array `toPlainObject` is `map` with the recursive callback |
| `WeObj.ToTransferIsMap` | object.js:98 | on an object whose `toTransferObject` is not truthy, or an array, `toTransferObject` is `map` with the recursive callback |
| `WeObj.ToPlainObj` | object.js:85-91 | the plain form of an object keeps exactly its keys whose value is not undefined, each converted in turn |
| `WeObj.ToTransferObj` | object.js:93-99 | the transfer form of an object keeps exactly its keys holding neither undefined nor an object with a truthy `toTransferObject`, each converted in turn |
| `WeObj.ToPlainArr` | object.js:85-99 | both forms of an array convert it element by element |
| `WeObj.PlainDataUnchanged` | object.js:85-99 | data made only of plain objects (none holding a truthy `toTransferObject` field), arrays and primitives is its own plain form and its own transfer form |
| `WeObj.PlainObjUnchangedBy` | object.js:73-83 | `map` with a callback that returns each value as it is gives back a plain object unchanged |
| `WeObj.Walk` | object.js:13-20 | a lookup raises nothing but `TypeError`, which it raises on a non-empty path from undefined or null, and the empty path yields the start; the rest by `WeObj.WalkRaisesIff` and `WeObj.WalkAppend` |
| `WeObj.GetValue` | object.js:12-21 | the lookup loop yields what `Walk` of the split path gives |
| `WeObj.WalkRaisesIff` | object.js:15-19 | `getValue` raises `TypeError` exactly when it starts from undefined or null |
| `WeObj.WalkAppend` | object.js:15-19 | a lookup stops at the first undefined or null on the path and yields it; otherwise it goes on from where the first part of the path led |
| `WeObj.SetPath` | object.js:23-32 | `setValue` on an object yields an object with the same prototype |
| `WeObj.SetThenGet` | object.js:12-32 | after `setValue(p, v)` on a writable path, `getValue(p)` yields `v` |
| `WeObj.SetValue` | object.js:23-32 | `setValue(path, v)` along a path it can write through succeeds, and `getValue(path)` then yields `v`; the other keys by `WeObj.SetPathSiblings` |
| `WeObj.SetValueThenGetValue` | object.js:12-32 | the same for the dotted path string |
| `WeObj.SetPathSiblings` | object.js:26-31 | `setValue` leaves every other key of the object unchanged, and a missing or null first key becomes a fresh `{}` holding the rest of the path |
| `WeObj.ExtendOne` | object.js:35-49 | a source that is a primitive or a function (no own keys) leaves the target as it is; arrays and objects by `WeObj.ExtendArrayIsItems`, `WeObj.MergeRule` and `WeObj.ExtendOneOk` |
| `WeObj.ExtendOneOk` | object.js:34-52 | merging any source into anything but undefined or null never raises, and the target keeps its kind and prototype |
| `WeObj.ExtendItemsOk` | object.js:37-39 | the same for the items of an array source |
| `WeObj.MergeKeysOk` | object.js:41-49 | the same for the keys of an object source |
| `WeObj.ExtendArgsOk` | object.js:34-52 | the same for any list of arguments |
| `WeObj.Extend` | object.js:34-52 | `extend()` without arguments leaves the target as it is; with arguments by `WeObj.ExtendArgsOk` and `WeObj.ExtendArgsWf` |
| `WeObj.ExtendOneWf` | object.js:34-52 | merging keeps an object well-formed |
| `WeObj.ExtendArgsWf` | object.js:34-52 | `extend` with any arguments keeps the target well-formed |
| `WeObj.MergeStep` | object.js:42-48 | one key of a merge keeps the target's kind |
| `WeObj.StaticExtend` | object.js:130-135 | static `weobj.extend` never raises and yields a plain object, `{}` when given no argument; its fields by `WeObj.StaticExtendOk` |
| `WeObj.StaticExtendOk` | object.js:130-135 | static `weobj.extend` never raises and yields a plain object |
| `WeObj.ExtendArrayIsItems` | object.js:37-39 | an array argument is its elements applied left to right |
| `WeObj.ItemsAreArgs` | object.js:37-39 | the loop over an array's items is `extend` with the rest of the items as arguments |
| `WeObj.MergeRule` | object.js:41-49 | merging an object: each key of the source holds the deep merge when both values are non-array objects and the source's value otherwise; every other key is unchanged |
| `WeObj.MergeKeysFields` | object.js:41-49 | the same rule, key by key, over any list of distinct source keys |
| `WeObj.FillDefaultsFields` | object.js:115-122 | the second pass of `toRichObject` writes each default a descriptor entry supplies, and leaves every other key unchanged |
| `WeObj.FillUndefined` | object.js:115-122 | on undefined, the second pass raises exactly when some descriptor entry supplies a default |
| `WeObj.ToRich` | object.js:101-107 | `toRichObject` gives the data back unchanged when the descriptor is not an object, and what `new typeDesc(o, key)` gives when the descriptor is a function and the data is not an array; arrays, objects and primitives by `WeObj.ToRichArr`, `WeObj.ToRichObjPasses`, `WeObj.ToRichDataKeys`, `WeObj.ToRichDefaults` and `WeObj.ToRichPrimitive` |
| `WeObj.ToRichCtor` | object.js:106-107 | a function descriptor gives what `new typeDesc(o, key)` gives, the constructor's exception included |
| `WeObj.ToRichPrimitive` | object.js:101-124 | with an object descriptor, a primitive raises exactly when the descriptor supplies a default (the write into undefined), and otherwise comes back undefined |
| `WeObj.FirstPass` | object.js:109-114 | the first pass holds, for each data key, its converted value, dropping those that come back undefined, and no other key |
| `WeObj.ToRichObjPasses` | object.js:108-123 | a successful conversion of an object is the second pass over the first, and every field converted without raising |
| `WeObj.ToRichDataKeys` | object.js:109-114 | each data key holds its value converted against its own descriptor (`typeDesc[key]`, else `typeDesc['*']`, of an array descriptor element 0), and is dropped when that is undefined |
| `WeObj.TwoPassDataKeys` | object.js:108-123 | the same, stated over the two passes |
| `WeObj.ToRichDefaults` | object.js:115-122 | a descriptor key the data lacks gets the descriptor itself when that is not an object, element 1 of an array descriptor, and nothing for an object descriptor; `'*'` is never copied and no other key appears |
| `WeObj.TwoPassDefaults` | object.js:115-122 | the same, stated over the two passes |
| `WeObj.ToRichArr` | object.js:104-105 | an array is converted element by element against the same descriptor, each element under its index string, keeping the length |
| `WeObj.OrDefault` | model.js:16 | an undefined argument takes the parameter's default, and any other argument is kept |
| `WeObj.ModelNew` | model.js:16-18 | `new Model(data, typeDesc)`, with `data` defaulting to null and `typeDesc` to `{}`, raises exactly when `toRichObject` of the data raises, with the same exception, and otherwise yields a model instance; its fields by `WeObj.ModelNewFields` |
| `WeObj.ModelNewFields` | model.js:16-18 | `new Model(data, typeDesc)`, with `data` defaulting to null and `typeDesc` to `{}`, fails only where the conversion does; it is a model whose own fields are exactly those of the converted data |
| `Model.Id` | model.js:58-64 | an array gives the array of its elements' ids, element by element and of the same length; an object (a `Model` included) gives its `id` field; a function gives undefined (it carries no `id` here); any other value is returned unchanged |
| `Model.IdOfObjects` | model.js:59-62 | an array of objects gives the list of their `id` fields |
| `Model.IdOfIds` | model.js:59-63 | ids, and arrays of ids nested to any depth, come back as they are |
| `Model.ToPlainObject` | model.js:26-35 | the storage projection is a plain object |
| `Model.ToPlainObjectFields` | model.js:26-35 | the storage projection keeps every own field in order, replaces each model value by its own projection, and holds no model |
| `Model.NonModelKeys` | model.js:45-48 | the keys holding no model, distinct when the input keys are |
| `Model.ToTransferObject` | model.js:43-50 | the transfer projection is a plain object |
| `Model.ToTransferObjectFields` | model.js:43-50 | the transfer projection keeps exactly the own fields that are not models, in order, with their values |
| `StringUtil.Lower` | string.js:11 | `toLowerCase` of a capital is a lower-case letter |
| `StringUtil.Piece` | string.js:11 | the replacement of one character: `-` and the lower case for a capital, the character itself otherwise |
| `StringUtil.DashUpper` | string.js:11 | the replacement leaves no capital and never shortens the text |
| `StringUtil.DashUpperAppend` | string.js:11 | the replacement works character by character: it distributes over concatenation |
| `StringUtil.EachUpperReplaced` | string.js:11 | each input character contributes its own piece, in place |
| `StringUtil.DashUpperNoUpper` | string.js:11 | text without capitals is left alone by the replacement |
| `StringUtil.CamelToLowerDash` | string.js:10-15 | the result contains no capital |
| `StringUtil.StripsOneUnderscore` | string.js:12-13 | exactly one underscore is removed, and only when the input starts with one |
| `StringUtil.LeadingUpper` | string.js:11-13 | a leading capital gives a leading `-` and its lower case, which are kept |
| `StringUtil.Unchanged` | string.js:10-15 | input with no capital and no leading underscore comes back unchanged |
| `StringUtil.DoubleUnderscore` | string.js:12-13 | two leading underscores keep one |
| `ArrayExt.FirstIndex` | extension/array.js:2-7 | the smallest index whose element equals the value, or -1 exactly when none does |
| `ArrayExt.JsArray.IndexOf` | extension/array.js:2-7 | the counter loop returns the first equal index, or -1 exactly when no element is equal |
| `ArrayExt.JsArray.Remove` | extension/array.js:10-17 | the array afterwards is `Removed` of the array before |
| `ArrayExt.RemovePresent` | extension/array.js:12-14 | removing a present value deletes exactly the element at `indexOf(val)`: one element fewer |
| `ArrayExt.RemoveAbsent` | extension/array.js:13 | removing an absent value leaves the array unchanged |
| `ArrayExt.RemoveKeepsOrder` | extension/array.js:14 | the elements before the removed one stay in place and the ones after it move down by one |
| `ArrayExt.RemoveMultiset` | extension/array.js:14 | the removed element is the only change to the multiset of elements |
| `Url.JsonText` | url.js:8-11 | an object value is sent as its JSON text, a function as undefined, a primitive as it is |
| `Url.ToParams` | url.js:3-15 | `toParams` raises `FAIL` exactly on a non-object, and otherwise yields a plain object |
| `Url.ParamValue` | url.js:8-12 | a string value is sent encoded as it is, an object other than a function as its encoded JSON text, and a function as the encoded `"undefined"` that `JSON.stringify` leaves |
| `Url.ParamsFrom` | url.js:6-13 | the writes of `toParams` fill a plain object |
| `Url.ToParamString` | url.js:17-24 | `toParamString` raises `FAIL` exactly on a non-object |
| `Url.PushPairs` | url.js:22 | the push loop collects `key=value` for each visit, in order |
| `Url.BuildParamString` | url.js:17-24 | the method computes what `ToParamString` specifies |
| `Url.SegKey` | url.js:32-33 | the key of a piece is the text before its first `=`, empty when there is none, and holds no `=` |
| `Url.SegValue` | url.js:33 | the value of a piece is the text after its first `=`, or the whole piece when there is none; key, `=` and value make up the piece |
| `Url.SegmentParams` | url.js:29-34 | the object the `for…of` loop fills is a plain object |
| `Url.PutSegments` | url.js:31-34 | the `for…of` loop fills exactly the object `SegmentParams` specifies |
| `Url.FromParamString` | url.js:26-36 | null for a falsy argument, `TypeError` for a truthy non-string |
| `Url.ParseParamString` | url.js:26-36 | the method computes what `FromParamString` specifies |
| `Url.Decoded` | url.js:43 | decoding succeeds exactly when every value decodes, and then holds each decoded value in order |
| `Url.FromParams` | url.js:38-52 | a non-object comes back as it is; the only exception is `URIError`; otherwise the result is a plain object |
| `Url.Revived` | url.js:41-50 | the callback's writes raise only `URIError` and otherwise fill a plain object |
| `Url.NonFunKeys` | url.js:13 | the own keys whose value is not a function, in order and distinct |
| `Url.QuietTraceObj` | url.js:7 | with `excludeFunction` the callback sees exactly the non-function keys of an object, and without it every key |
| `Url.QuietTraceArr` | url.js:7 | over an array it sees every index, then the index string of every non-function element |
| `Url.ToParamsObj` | url.js:3-15 | on an object, `toParams` keeps exactly the non-function own keys, in order, each holding `encode(JSON.stringify(v))` for an object and `encode(String(v))` otherwise |
| `Url.ToParamsArr` | url.js:7-13 | on an array there is one key per index, holding the encoded element; a function element becomes `encode("undefined")`; there are no other keys |
| `Url.ToParamsArrFields` | url.js:7-13 | the key of an array index holds what `ArrParam` gives for it, and every key is an index |
| `Url.ArrWrites` | url.js:7-13 | every write `toParams` makes over an array goes under an index and stores the encoded element at that index |
| `Url.ToParamStringObj` | url.js:17-24 | on an object, `toParamString` is the `&`-join, in key order, of `key=value` for each non-function key |
| `Url.SegmentParamsLast` | url.js:29-34 | `fromParamString` has a key for each piece; a key holds the value of the last piece naming it |
| `Url.SegmentWithoutEquals` | url.js:32-33 | a piece without `=` names the empty key and carries the whole piece |
| `Url.FromParamsObj` | url.js:38-52 | on an object, `fromParams` raises exactly when some value does not decode; otherwise it keeps the keys in order, each revived through `JSON.parse` or kept as the decoded string |
| `Url.RevivedFields` | url.js:41-50 | the same, for the callback's writes over distinct keys |
| `Url.ParamStringSplits` | url.js:23-34 | splitting what `toParamString` built gives back, piece by piece, the object `toParams` built, provided some key is written, no key holds `&` or `=`, and encoding escapes `&` |
| `Url.ParamsRoundTrip` | url.js:3-52 | `fromParams(toParams(o))` succeeds when decoding undoes encoding, and gives back every non-function key, in order, holding what `JSON.parse` makes of the text it was sent as |
| `Url.ParamStringRoundTrip` | url.js:17-36 | `fromParamString(toParamString(o))` is null when no key is written, and otherwise `fromParams(toParams(o))` |
| `Url.Revive` | url.js:44-48 | a text `JSON.parse` accepts comes back parsed, and any other text comes back as that string |
| `Url.ReviveSent` | url.js:44-48 | a value comes back as it was when it is an object JSON restores or a string that is not JSON, and a string that parses comes back parsed |
| `Err.EntryValue` | err.js:14 | a table entry is a string before `_initial` and a function after |
| `Err.MessageOf` | err.js:47 | `Error(message)` keeps a string message and gives `""` for no message |
| `Err.NewErr` | err.js:46-56 | the constructor stores `type` and `brief` as given and the message of its first parameter, with no status code |
| `Err.CallEntry` | err.js:14 | calling a factory builds the `Err` of its type and brief, with the arguments passed on as one array; calling a brief raises `TypeError` |
| `Err.Initialized` | err.js:13-15 | `_initial` keeps the keys of the table |
| `Err.Registry.constructor` | err.js:63-82 | the table holds the fourteen built-in types, in order, with their briefs |
| `Err.Registry.Initial` | err.js:10-16 | the loop turns every listed entry into a factory over the value it held, keeping the keys |
| `Err.Registry.Lookup` | err.js:26 | `Err[type]` is the table's entry (a brief or a factory), else one of the class's own properties `name`, `length`, `prototype`, `fromResponseError`, `_initial`, else undefined |
| `Err.OwnStatic` | err.js:1-46 | exactly the five own properties of the class besides its table are truthy: the name `"Err"`, the length 2, the prototype object and the two static methods |
| `Err.Registry.FromResponseError` | err.js:24-32 | `fromResponseError` raises `TypeError` on undefined or null, and an `Err` it builds carries the response error's `statusCode`; a type naming an own property of the class is handled as JavaScript handles that property (`Err.FromOwnStaticRaises`, `Err.FromSelfType`) |
| `Err.BuiltinWf` | err.js:63-82 | the built-in types are distinct and are exactly the keys of the table |
| `Err.InitializedBuiltins` | err.js:13-15 | after `_initial` every built-in type has the factory over its brief |
| `Err.FactoryCall` | err.js:14 | a factory called with any arguments builds the `Err` of its type and brief, with the arguments joined by commas as message |
| `Err.FactoryMessage` | err.js:14 | a factory given one string builds the `Err` of its type and brief with that message |
| `Err.FactoryJoinsArgs` | err.js:14 | a factory given two strings joins them with a comma into the message |
| `Err.FromKnownType` | err.js:26-27 | a type the initialised table holds gives that type, its table brief, the message and the status code |
| `Err.FromUnknownType` | err.js:28-29 | a type that is neither in the table nor an own property of the class gives a brief equal to the type, with the message and the status code |
| `Err.FromOwnStaticRaises` | err.js:26-30 | a type naming `name`, `length`, `prototype` or `_initial` raises `TypeError`: the first three are not functions, and `_initial` returns undefined, into which `err.statusCode` cannot be written |
| `Err.FromSelfType` | err.js:26-30 | the type `"fromResponseError"` runs `fromResponseError` on the message and then overwrites the status code |
| `Err.FromSelfTypeString` | err.js:24-32 | with a string message that inner call builds an `Err` whose type and brief are undefined and whose message is empty |
| `Err.FromKnownTypeUninitialized` | err.js:26-27 | before `_initial` the entries are strings, and a known type raises `TypeError` on the call |
| `Err.InitialTwice` | err.js:13-15 | a second `_initial` wraps the factories themselves, so the brief they build is a function |
| `Http.Substr` | http.js:70-71 | `substr` of a range inside the string is that slice |
| `Http.MethodOf` | http.js:68-70 | the method never holds a space, and it is `GET` with the whole request string as URL exactly when that string holds no space |
| `Http.RelativeUrl` | http.js:71 | the URL is a suffix of the request string |
| `Http.SplitNoSpace` | http.js:68-71 | a request string without a space is a `GET` of the whole string |
| `Http.SplitAtFirstSpace` | http.js:68-71 | with a space, the method is the text before the first space (and holds none) and the URL the text after it |
| `Http.SplitRoundTrip` | http.js:69-71 | a method without spaces, a space and a URL split back into that method and that URL |
| `Http.NoopSplit` | http.js:112-113 | the default request string of `submit` is a `GET` of `/noop` |
| `Http.LoginWanted` | http.js:74-78 | login is asked for when `options.login` is truthy, and otherwise exactly when the session has an `skey` |
| `Http.RequestFields` | http.js:82-89 | the literal `request` merges in is a well-formed object |
| `Http.RequestFieldsWin` | http.js:83-85 | the URL, method and login flag override the caller's options |
| `Http.RequestFieldsMerge` | http.js:86-87 | `data` and `success` are merged with the caller's |
| `Http.CallerSuccessKept` | http.js:82-89 | a function the caller gives as `success` survives the merge |
| `Http.RequestFieldsOthers` | http.js:82-89 | every option `request` does not set is the caller's |
| `Http.ExtendPair` | http.js:82 | `$.extend(a, b)` merges both into a fresh, well-formed plain object |
| `Http.ExtendPairFields` | http.js:82 | after `$.extend(a, b)` a key of `b` holds the merge of the two values and every other key holds `a`'s |
| `Http.LiteralWins` | http.js:82-89 | a literal key whose value is not an object overrides whatever the caller gave |
| `Http.FormId` | http.js:110-111 | `submit` and `upload` throw without an event or a form id, raise `TypeError` on an event without `detail`, and otherwise yield the truthy form id |
| `Http.FormHeader` | http.js:115-116 | the form header built for `submit` is an object |
| `Http.FormHeaderFields` | http.js:115-116 | the form header carries the form id unless the caller's header sets `X-WX-Formid`, and keeps the caller's other header fields |
| `Http.SubmitOptions` | http.js:114-118 | the options `submit` adds form an object |
| `Http.SubmitOptionsLogin` | http.js:117 | the options `submit` passes on always ask for login |
| `Http.SubmitOptionsHeader` | http.js:115-116 | the header `submit` passes on is the caller's header merged with the form header |
| `Http.UploadFields` | http.js:139-151 | the literal `upload` merges in is a well-formed object |
| `Http.UploadFieldsWin` | http.js:140-143 | the URL and login flag of an upload override the caller's |
| `Http.UploadFieldsMerge` | http.js:144-146 | the file path, name and form data are merged with the caller's |
| `Http.HttpModule.constructor` | http.js:7 | the module starts with an empty host and an empty login URL |
| `Http.HttpModule.Initial` | http.js:24-29 | `_initial` throws and changes nothing when the host is missing or falsy; otherwise it stores the host and sets the login URL to the host followed by `/login` |
| `Http.HttpModule.Request` | http.js:65-93 | `request` raises `TypeError` exactly when the request string is not a string, and otherwise yields an options object |
| `Http.HttpModule.RequestOwnFields` | http.js:68-85 | the options hold the host followed by the relative URL, the split method, and the login decision |
| `Http.HttpModule.RequestOptions` | http.js:82-89 | `data` and `success` are merged with the caller's, and every option `request` does not set is the caller's |
| `Http.HttpModule.RequestOtherKey` | http.js:82 | any one option `request` does not set is the caller's |
| `Http.HttpModule.RequestData` | http.js:86 | without object `data` on both sides, the given `data` replaces the caller's |
| `Http.HttpModule.CallerCallbackKept` | http.js:87 | the caller's `success` function, and not the request's callback, is handed to the network layer |
| `Http.HttpModule.SubmitAsWritten` | http.js:109-119 | `submit` as written: it throws on the checks, and every call that passes them raises `ReferenceError`, since `request` is not bound |
| `Http.HttpModule.Submit` | http.js:109-119 | `submit` as intended: it throws on the checks, and otherwise yields request options for a string or missing request string |
| `Http.HttpModule.SubmitFinding` | http.js:114 | wherever `submit` as written gets past its checks, it raises, while the intended one yields options |
| `Http.HttpModule.SubmitForcesLogin` | http.js:112-117 | a submitted request always asks for login, and without a request string goes by `GET` to the host followed by `/noop` |
| `Http.HttpModule.SubmitHeader` | http.js:115-116 | the submitted header is the form header merged into the caller's header |
| `Http.HttpModule.Upload` | http.js:135-153 | `upload` throws on the checks and otherwise yields an options object |
| `Http.HttpModule.UploadOptions` | http.js:139-146 | an upload goes to the host followed by the URL and asks for login; the file path, name and form data are merged with the caller's |
| `PageCommon.Pushed` | extension/page.js:248-252 | `pushData` creates the mailbox when absent and stores the key, keeping every other key |
| `PageCommon.Pulled` | extension/page.js:233-239 | `pullData` gives null before any push, and otherwise the stored value (undefined when absent), deleting the key |
| `PageCommon.PullAfterPush` | extension/page.js:233-252 | a pull returns what the last push under that key stored |
| `PageCommon.PullTwice` | page-ext.js:94-100 | a second pull of the same key gives undefined |
| `PageCommon.PullBeforePush` | extension/page.js:234-235 | before any push every pull gives null and leaves the mailbox absent |
| `PageCommon.PushPullOtherKey` | page-ext.js:94-113 | pushing and pulling different keys do not disturb each other |
| `PageCommon.Mailbox.constructor` | page-ext.js:110 | the mailbox starts absent |
| `PageCommon.Mailbox.PushData` | page-ext.js:109-113 | the method does what `Pushed` specifies |
| `PageCommon.Mailbox.PullData` | page-ext.js:94-100 | the method returns and leaves what `Pulled` specifies |
| `PageCommon.LoadingFlags` | extension/page.js:147-159 | `setLoading` sets `loading` as asked, and an error only when not loading and given a truthy one, which is then exactly that error |
| `PageCommon.LoadingCleared` | page-ext.js:29-41 | `setLoading(true)` clears the error, and `setLoading(false)` without an error leaves none |
| `PageCommon.PathOf` | extension/page.js:132-137 | the path is `/` and the route, followed by `?` and the parameter string unless the options are empty |
| `PageCommon.NonEmptyIsObject` | object.js:54-56 | only an object has an entry for `each` to visit |
| `PageCommon.WithParams` | extension/page.js:320-323 | parameters are appended after `&` when the URL already holds `?`, and after `?` otherwise |
| `PageCommon.NavOptions` | extension/page.js:318-324 | no option means `{}`, a null option raises `TypeError` (reading `option.data`), and an object option keeps its prototype; the URL and the other options by `PageCommon.NavAppendsParams`, `PageCommon.NavWithoutData` and `PageCommon.NavRaises` |
| `PageCommon.NavAppendsParams` | page-ext.js:175-181 | with data, the URL gains the parameter string of the data and every other option is left alone |
| `PageCommon.NavWithoutData` | extension/page.js:319 | without truthy data the options are left as they are |
| `PageCommon.NavRaises` | extension/page.js:319-323 | with data, a URL that is not a string raises `TypeError` and data that is not an object raises `FAIL` |
| `PageExtension.LoadEffect` | extension/page.js:14-33 | the load step only appends to the trace and leaves the dialog and the mailbox alone |
| `PageExtension.ShowEffect` | extension/page.js:47-64 | the show step leaves no dialog pending and only appends to the trace |
| `PageExtension.StepEffect` | extension/page.js:81 | a step only appends to the trace |
| `PageExtension.RunSteps` | extension/page.js:80-82 | draining the chain only appends to the trace |
| `PageExtension.ChainError` | extension/page.js:78-86 | a chain reports an exception exactly when a step threw |
| `PageExtension.ReloadEffect` | extension/page.js:97-103 | `pageReload` does nothing while the chain runs, and otherwise queues the load and show steps and drains the chain |
| `PageExtension.LoadVetoedBefore` | extension/page.js:17-21 | a `beforePageLoad` veto ends the load step at once: no global data, no user `onLoad`, and `false` |
| `PageExtension.LoadRunsUserOnLoad` | extension/page.js:23-31 | past `beforePageLoad`, the global data is set and the user `onLoad` runs with the load options; the step returns `false` exactly when that `onLoad` does |
| `PageExtension.LoadVetoIff` | extension/page.js:14-33 | the load step returns `false` exactly when `beforePageLoad` or, after it, the user `onLoad` does |
| `PageExtension.ShowResolvesDialog` | extension/page.js:50-55 | with a pending dialog the show step clears it, resolves it with the pulled `dialogResult`, skips the user `onShow` and returns `false` |
| `PageExtension.DialogRoundTrip` | extension/page.js:366-374 | what the dialog page's `navigateReturn` pushes is what the opener's next show step resolves with |
| `PageExtension.RunSingle` | extension/page.js:80-82 | a chain of one step runs exactly that step |
| `PageExtension.RunAppend` | extension/page.js:80-82 | steps run in queue order; none runs after one that returned `false` or threw |
| `PageExtension.StopsAtFirstVeto` | extension/page.js:81-82 | the first step to return `false` or throw is the last one run, whatever follows it |
| `PageExtension.ReloadVetoSkipsShow` | extension/page.js:100-102 | a reload whose load step stops does not run the show step |
| `PageExtension.ReloadRunsBoth` | extension/page.js:100-102 | a reload whose load step goes on runs the show step after it |
| `PageExtension.NavKeepsShape` | extension/page.js:319-323 | the options a navigation builds are never undefined or null |
| `PageExtension.FirstShowIsReload` | extension/page.js:392-412 | the first show of a page runs exactly what a reload of a page with an empty chain runs |
| `PageExtension.PageInstance.constructor` | extension/page.js:115-124 | a page starts with nothing queued, the chain not running, no dialog pending, an empty trace, and the initial loading flags |
| `PageExtension.PageInstance.PageOnLoad` | extension/page.js:14-33 | the method does what `LoadEffect` specifies |
| `PageExtension.PageInstance.PageOnShow` | extension/page.js:47-64 | the method does what `ShowEffect` specifies |
| `PageExtension.PageInstance.RunStep` | extension/page.js:81 | the method runs one queued step as `StepEffect` specifies |
| `PageExtension.PageInstance.RunChain` | extension/page.js:76-87 | the queued steps run as `RunSteps` specifies, a thrown exception is reported, and whatever happens the chain is then empty and the running flag clear |
| `PageExtension.PageInstance.Reload` | extension/page.js:97-103 | the method does what `ReloadEffect` specifies: nothing while the chain runs, else an empty chain and the flag clear |
| `PageExtension.PageInstance.SetLoading` | extension/page.js:147-159 | the flags become `LoadingFlags` of the arguments |
| `PageExtension.PageInstance.IsLoading` | extension/page.js:167-169 | `isLoading()` is exactly the page's `loading` flag |
| `PageExtension.PageInstance.ReloadPage` | extension/page.js:176-184 | the page reloads, then stops loading, with the reload's exception as the error when it threw; a reload while the chain runs leaves the chain queued and running; the load options are kept |
| `PageExtension.PageInstance.OnPullDownRefresh` | extension/page.js:191-202 | while the chain runs or an error shows, the refresh is only stopped and nothing else changes; otherwise the whole page state is the reload's, followed by the refresh being stopped; the load options are kept either way |
| `PageExtension.PageInstance.GetPath` | extension/page.js:132-137 | the route, then the parameter string of the raw options unless they are empty |
| `PageExtension.PageInstance.OnLoad` | extension/page.js:392-397 | the raw options are kept and `richData` is pulled; the load options become the pulled `richData` extended with the decoded options, and the load step is queued; on a decoding error `URIError` is raised and neither the load options nor the chain change |
| `PageExtension.PageInstance.OnShow` | extension/page.js:402-412 | the intended `onShow`: the show step queued, the chain drained and emptied, then no longer loading, with the chain's exception as the error; the load options are kept |
| `PageExtension.PageInstance.OnShowAsWritten` | extension/page.js:407 | `onShow` as written: the chain runner works on the global object, so the show step stays queued and the page's own chain never runs; the first call shows a `TypeError`, later calls show no error |
| `PageExtension.PageInstance.Navigate` | extension/page.js:318-333 | the options with the URL built from the data; a truthy `richData` is then pushed to the mailbox, and nothing is pushed when the URL cannot be built |
| `PageExt.HookEffect` | page-ext.js:266 | the built-in empty page loading function goes on; a configured function runs; a configured value that is not a function raises `TypeError` |
| `PageExt.Caught` | page-ext.js:284-289 | the `catch` of `onLoad` resets the flag, and rethrows exactly on a refresh; otherwise it shows the error |
| `PageExt.ShowSpec` | page-ext.js:295-322 | `onShow` rethrows only to an `onLoad` caller, leaves `onLoadExecuting` and the load options alone, and records a native call |
| `PageExt.LoadPrefix` | page-ext.js:259-277 | `onLoad` up to the user `onLoad` sets the flag and the loading flags and leaves the native-call flag, the dialog and the mailbox alone |
| `PageExt.LoadStart` | page-ext.js:260-264 | the flag and loading flags are set; options other than `true` are decoded into the load options, and a decoding error leaves them as they were |
| `PageExt.LoadCallbacks` | page-ext.js:266-277 | the page loading function, the global data and the user `onLoad` only append to the trace |
| `PageExt.LoadFinish` | page-ext.js:278-283 | the rest of `onLoad` clears the flag, and without a native `onShow` does nothing more |
| `PageExt.LoadSpec` | page-ext.js:259-290 | `onLoad` rethrows only on a pull-down refresh |
| `PageExt.RefreshSpec` | page-ext.js:325-339 | while loading or showing an error, the default refresh only stops the refresh |
| `PageExt.ShowDeferredWhileLoading` | page-ext.js:296-300 | while `onLoad` runs, a native `onShow` only records itself, and one from `onLoad` does nothing |
| `PageExt.LoadShowsOnlyAfterNative` | page-ext.js:278-283 | `onLoad` calls `onShow` only when a native one came; with one, the user `onShow` runs after the load |
| `PageExt.LoadVetoKeepsExecuting` | page-ext.js:266-277 | a `false` from the page loading function or the user `onLoad` ends the load at once and leaves `onLoadExecuting` set; a veto by the loading function skips everything after it |
| `PageExt.LoadThrowCaught` | page-ext.js:284-289 | an exception in `onLoad` resets the flag; it is rethrown on a refresh and shown otherwise |
| `PageExt.LoadDecodeError` | page-ext.js:263-264 | undecodable options end the load with `URIError` and leave the load options as they were |
| `PageExt.ReloadKeepsOptions` | page-ext.js:58-61 | `reloadPage`'s `onLoad(true)` keeps the load options |
| `PageExt.LoadOutsideRefreshNeverThrows` | page-ext.js:286-288 | outside a refresh `onLoad` never rethrows |
| `PageExt.ShowRethrowIff` | page-ext.js:308-312 | a throwing user `onShow` is rethrown, the dialog left pending, when `onLoad` called; shown, with the dialog still resolved, when the host called |
| `PageExt.ShowResolvesDialog` | page-ext.js:316-320 | a show that neither defers nor rethrows ends by clearing the pending dialog and resolving it with the pulled `dialogResult` |
| `PageExt.DeferredShowRunsAfterLoad` | page-ext.js:278-300 | a native `onShow` held back during `onLoad` runs the user `onShow` once when the load finishes, then clears the flags |
| `PageExt.RefreshGuard` | page-ext.js:327-330 | the default refresh while loading or showing an error changes nothing but stopping the refresh |
| `PageExt.RefreshShowsError` | page-ext.js:331-337 | a refresh whose reload throws shows the error and then stops the refresh |
| `PageExt.PageLoading.constructor` | page-ext.js:241 | the page loading function starts as the built-in empty one |
| `PageExt.PageLoading.Initial` | page-ext.js:365-368 | `_initial` raises on undefined or null; a truthy `pageBeforeLoad` becomes the page loading function, and otherwise nothing changes |
| `PageExt.ExtPage.constructor` | page-ext.js:252-253 | a page starts loading, with neither flag set and no dialog |
| `PageExt.ExtPage.SetLoading` | page-ext.js:29-41 | the flags become `LoadingFlags` of the arguments |
| `PageExt.ExtPage.IsLoading` | page-ext.js:49-51 | `isLoading()` is exactly the page's `loading` flag |
| `PageExt.ExtPage.GetPath` | page-ext.js:14-19 | the route, then the parameter string of the load options unless they are empty |
| `PageExt.ExtPage.CatchLoad` | page-ext.js:284-289 | the method does what `Caught` specifies |
| `PageExt.ExtPage.RunHook` | page-ext.js:266 | the method does what `HookEffect` specifies |
| `PageExt.ExtPage.StartLoad` | page-ext.js:260-264 | the method does what `LoadStart` specifies |
| `PageExt.ExtPage.RunLoadCallbacks` | page-ext.js:266-277 | the method does what `LoadCallbacks` specifies |
| `PageExt.ExtPage.FinishLoad` | page-ext.js:278-283 | the method does what `LoadFinish` specifies |
| `PageExt.ExtPage.OnLoad` | page-ext.js:259-290 | the wrapped `onLoad` does what `LoadSpec` specifies |
| `PageExt.ExtPage.OnShow` | page-ext.js:295-322 | the wrapped `onShow` does what `ShowSpec` specifies |
| `PageExt.ExtPage.ReloadPage` | page-ext.js:58-61 | `reloadPage` is `onLoad(true)` outside a refresh and keeps the load options |
| `PageExt.ExtPage.OnPullDownRefresh` | page-ext.js:326-338 | the default refresh does what `RefreshSpec` specifies |

## Left out

- Host and UI calls are not modelled; each becomes an event in the page's trace. These are `wx.*` navigation, `setData`, `stopPullDownRefresh`, `$.Modal.showError`, `console.log` and `$.AppData`.
- modal.js, sys.js, app.js, app_alias.js, index.js and session.js are host glue and are not part of this model. The session's `skey` is a parameter of `Http.HttpModule.Request`.
- The qcloud SDK calls are network I/O and are not modelled: `qcloud.request`, `qcloud.upload`, `qcloud.setLoginUrl` and `Http.login`. Each operation yields the options it would pass on. The login URL is a field.
- The Promises in http.js and the page files are not modelled, and neither is the interleaving of `await`. Steps run one after another. `$.App.waitForInitialize()` before the chain is a barrier without effect.
- extension.js, extension/promise.js and extension/app.js are Promise polyfills and an initialisation barrier. They are not part of this model.
- `Page.navigateToDialog` and `Page.current()` are not modelled, because they depend on `getCurrentPages()` and on a Promise resolver. A pending resolver is the flag `dialogPending`, and resolving it is the event `DialogResolved`.
- `navigateReturn` is covered only through its push of `dialogResult` (`PageExtension.DialogRoundTrip`); its `wx.navigateBack` is host I/O.
- Each page has its own chain and `data`. Under extension/page.js:388, `$.extend(pageExt, page)` stores `pageExt._callChain` and `pageExt.data` by reference and merges each page's `data` into `pageExt.data`, so every page shares one chain and one data object. That sharing is not modelled.
- WeObj.SetPath and WeObj.Extend: `setValue` and `extend` walk and write into the target in place. The model computes the updated target as a value, writing each nested result back along its path, so it does not capture that other references to a nested object see the write.
- WeObj.ToPlain: the source calls whatever truthy `toPlainObject` the object has (object.js:88). The model takes only a model instance to have one, and runs the base projection `Model.ToPlainObject`. So a plain object with a truthy `toPlainObject` field is mapped like any other, where JavaScript calls the field or raises `TypeError` (`{toPlainObject: 1}`). A Model subclass that overrides `toPlainObject` is not modelled. `WeObj.ToTransfer` follows the truthiness test itself (`WeObj.HasTransfer`).
- JsValue.ToJsString: `String` of a function is written as `"function"`, whereas JavaScript gives the function's source text. The model carries no source text for functions. So wherever a function is turned into a string, the model's text differs from JavaScript's: as an `Err` message or type, as a host or URL joined into a request (`Http`), as a property key, or as a value `Url.ParamValue` sends.
- wui.js (`applyStyle`) is not part of this model. It depends on regular-expression replacement, `JSON.parse`, `isNaN` and helpers that string.js does not define.
- The rebinding of the global `Page` constructor is not modelled; only the wrapped behaviour is.
- Aliasing in general is not modelled, because values are immutable. Two paths reaching the same nested object do not see each other's writes.
- Functions hold no own properties. Reading one gives undefined and writing one is ignored. So the model does not cover `each` over a function, `Err` statics read through `$(Err)`, or prototype properties reached by `for…in`.
- `Err.prototype` inheritance from `Error` and `Error.captureStackTrace` are not modelled. `Err.<TYPE>` factories get an abstract identity.
- Err.Registry.Lookup: `Err[type]` sees the table and the class's own properties (`name`, `length`, `prototype`, `fromResponseError`, `_initial`), but not the members the class inherits from `Error` (its own statics, such as `captureStackTrace` and `stackTraceLimit` on V8), `Function.prototype` and `Object.prototype` (`call`, `apply`, `bind`, `toString`, `constructor`, `__proto__`, `hasOwnProperty`, …). For those types `Err.Registry.FromResponseError` and `Err.FromUnknownType` build `Err(type, type, message)`, whereas JavaScript calls the inherited member: most raise `TypeError`, and `bind` or `constructor` return a function instead of an `Err`.
- Err.Registry.FromResponseError: for the type `"_initial"` the model raises `TypeError` but leaves the table as it was; JavaScript first runs `_initial` again, which wraps every factory in a new one (`Err.InitialTwice`), and only then raises at err.js:30.
- `encodeURIComponent` raising `URIError` on lone surrogates is not modelled; `encode` is total.
- ArrayExt.FirstIndex: equality is a parameter, because the polyfill compares with `==` and a native `indexOf`, when present, with `===`.
- Loose equality, `JSON` and URI coding are not interpreted.
- Numbers are integers; floating point is not modelled.
- A user callback has a fixed outcome per page. It cannot return different results on different calls.
- PageCommon.NavOptions: an array URL raises rather than being coerced through `String`. The model does not follow `Array.prototype.indexOf` or `+=` on arrays, and the source never passes one.
- PageExt.ExtPage.OnPullDownRefresh: the refresh reruns `onLoad` with the already decoded load options, which page-ext.js:332 decodes a second time. The model does the same. Whether that double decoding is intended is left open.
- JsValue.PutProp: object.js and extension/page.js, the code outside class bodies, are read as sloppy-mode scripts, as neither says `"use strict"`; class bodies (err.js, http.js, url.js, model.js, string.js and `PageExt` in page-ext.js) are strict, and in them no write can reach a primitive except the one at err.js:30, which `Err.Registry.FromResponseError` models as raising. So a property write into a primitive is ignored, and `this` in a call without receiver is the global object (`PageExtension.GlobalScope`, used by `PageExtension.PageInstance.OnShowAsWritten`). Under strict mode these writes would raise `TypeError`, and `JsValue.PutProp`, `WeObj.ExtendOneOk`, `WeObj.ExtendArgsOk`, `WeObj.SetPath` and `WeObj.SetThenGet` would differ (`weobj(5).extend({a:1})`, `weobj({a:5}).setValue("a.b", 1)`).
- JsValue.PutProp: on an array, a key that is not an index is dropped, including `length`. JavaScript keeps such a key as an own enumerable property that later `for…in` loops visit (`weobj([1]).extend({x:2})`), and writing `length` truncates or extends the array (`setValue("length", 0)`).
- JsValue.GetProp: only own properties are read. Members inherited from `Object.prototype` (`constructor`, `toString`, `hasOwnProperty`) read as undefined, whereas JavaScript yields them. This reaches object.js:110 (`typeDesc[key]`), object.js:116 (`keyFound[key]`) and `getValue` paths such as `"a.constructor"`.
- JsValue.ObjPut: an object's keys are kept in insertion order. JavaScript enumerates own keys that are array indices (`"0"`, `"12"`) first, in ascending numeric order, and only then the other keys in insertion order. So every ordering claim below holds only for objects without index-like keys: `JsValue.PutAllFresh`, `WeObj.MapObj`, `WeObj.StoreFresh`, `WeObj.FirstPass`, `WeObj.StaticExtendOk`, `Url.ToParamsObj`, `Url.ToParamStringObj`, `Url.FromParamsObj`, `Url.ParamsRoundTrip`, `Url.ParamStringRoundTrip`, `Url.SegmentParamsLast`, `PageCommon.PathOf` and `Model.ToPlainObjectFields`. For example, `weobj.extend({b:1}, {"0":2})` followed by `toParamString` gives `0=2&b=1` in JavaScript but `b=1&0=2` in the model.
- WeObj.Store: a hole left by `delete` in `map` over an array (object.js:79-80) is stored as an undefined element. JavaScript leaves a hole, which `for…in` skips, so `WeObj.ArrayVisitedTwice` does not hold for an array with holes, and `each` over such an array visits the hole in the index loop only.
- Url.ToParams: the model assumes the library has been initialised, so that `Err._initial` has already turned `$.Err.FAIL` into a factory. Before that, `$.Err.FAIL` is a string, and `toParams` or `toParamString` on a non-object raises `TypeError` instead of the `FAIL` error (`Err.FromKnownTypeUninitialized` shows the same for `fromResponseError`).
- Url.ToParamsArr: the keys of an array's parameters are stated as index strings (`IndexBelow`) rather than as an ordered key list. The index loop and the `for…in` loop write the same keys twice.

## Findings

| source | as written | input that shows it | evidently intended | confidence | as-written member | corrected member |
|---|---|---|---|---|---|---|
| http.js:114 | `submit` calls `request(…)`, a name http.js never binds (the method is `Http.request`) | any event with a truthy `e.detail.formId`, for example `{detail: {formId: "f"}}`: every call that passes the checks raises `ReferenceError` | `Http.request(…)`, yielding the request with `login: true` and the form header | not executed | `Http.HttpModule.SubmitAsWritten` | `Http.HttpModule.Submit` |
| extension/page.js:407 | the wrapped `onShow` calls `pageRunChain(_this)`, passing the page as an argument rather than as `this` | any call of the wrapped `onShow`: inside `pageRunChain`, `this` is the global object, not the page; the first call raises `TypeError` from `for…of` over the unset global `_callChain` and the page shows it; later calls drain the global `[]`; in every call the page's own chain never runs and the show step stays queued | `pageRunChain.call(_this)`, as `pageReload` does at extension/page.js:102 | not executed | `PageExtension.PageInstance.OnShowAsWritten` | `PageExtension.PageInstance.OnShow` |
