/**
 * `Url` (url.js): an object to query parameters and back. `toParams`
 * encodes every own value (objects through JSON), `toParamString` joins the
 * `key=value` pairs with `&`, `fromParamString` splits such a string at `&`
 * and each piece at its first `=`, and `fromParams` decodes every value and
 * revives it through JSON where it parses.
 *
 * `encodeURIComponent`, `decodeURIComponent`, `JSON.stringify` and
 * `JSON.parse` are left uninterpreted: they are the fields of a `Codec`.
 */
module Url {
  import opened JsValue
  import opened WeObj

  /**
   * The four library functions the module relies on. `decode` yields `None`
   * where `decodeURIComponent` raises `URIError`; `parse` yields `None` where
   * `JSON.parse` raises.
   */
  datatype Codec = Codec(
    encode: string -> string,
    decode: string -> Option<string>,
    stringify: Value -> string,
    parse: string -> Option<Value>)

  /** `$.Err.FAIL('Url.toParams：参数不是Object类型')` */
  const NotObject: Exc := WelibError("FAIL", "Url.toParams：参数不是Object类型")

  /** The callbacks of `toParams` and `fromParams` return undefined: `each` never stops early. */
  const Quiet: Callback := (k, v) => Undefined

  /** `value instanceof Object ? JSON.stringify(value) : value`; `JSON.stringify` of a function is undefined. */
  function JsonText(c: Codec, v: Value): (r: Value)
    ensures !IsObject(v) ==> r == v
    ensures v.Fun? ==> r == Undefined
    ensures IsObject(v) && !v.Fun? ==> r == Str(c.stringify(v))
  {
    if v.Fun? then Undefined else if IsObject(v) then Str(c.stringify(v)) else v
  }

  /** `encodeURIComponent(…)` of what `toParams` stores for a value. */
  function ParamValue(c: Codec, v: Value): (r: string)
    ensures v.Str? ==> r == c.encode(v.s)
    ensures IsObject(v) && !v.Fun? ==> r == c.encode(c.stringify(v))
    ensures v.Fun? ==> r == c.encode("undefined")
  {
    c.encode(ToJsString(JsonText(c, v)))
  }

  /** The keys the calls were given, as the property names they write. */
  function VisitKeys(t: seq<Visit>): (r: seq<string>)
    ensures |r| == |t|
  {
    seq(|t|, i requires 0 <= i < |t| => ToJsString(t[i].key))
  }

  /** The values `toParams` writes, one per call. */
  function ParamValues(c: Codec, t: seq<Visit>): (r: seq<Value>)
    ensures |r| == |t|
  {
    seq(|t|, i requires 0 <= i < |t| => Str(ParamValue(c, t[i].value)))
  }

  /** `Url.toParams(obj)`: the callback `params[key] = encodeURIComponent(…)` on every call of `each(…, true)`. */
  function ToParams(c: Codec, obj: Value): (r: Result<Value>)
    ensures r.Raise? <==> !IsObject(obj)
    ensures r.Raise? ==> r.exc == NotObject
    ensures r.Ok? ==> r.value.Obj? && r.value.proto == PlainProto
  {
    if !IsObject(obj) then Raise(NotObject)
    else Ok(ParamsFrom(c, EachTrace(obj, Quiet, true)))
  }

  /** The parameter object the calls `t` of the callback fill. */
  function ParamsFrom(c: Codec, t: seq<Visit>): (r: Value)
    ensures r.Obj? && r.proto == PlainProto
  {
    PutAll(EmptyObj, VisitKeys(t), ParamValues(c, t))
  }

  /** `${key}=${value}` for every own key of the parameter object, in order. */
  function Pairs(params: Value): seq<string> {
    VisitPairs(ForInVisits(params))
  }

  /** The `key=value` pieces of the calls `t`, in call order. */
  function VisitPairs(t: seq<Visit>): seq<string> {
    seq(|t|, i requires 0 <= i < |t| => PairString(t[i]))
  }

  /** One `key=value` piece. */
  function PairString(v: Visit): string {
    ToJsString(v.key) + "=" + ToJsString(v.value)
  }

  /**
   * `Url.toParamString(obj)`. Its callback returns the new length from
   * `push`, never `false`, so every own key of the parameter object is
   * visited.
   */
  function ToParamString(c: Codec, obj: Value): (r: Result<string>)
    ensures r.Raise? <==> !IsObject(obj)
    ensures r.Raise? ==> r.exc == NotObject
  {
    if !IsObject(obj) then Raise(NotObject)
    else Ok(Join(Pairs(ToParams(c, obj).value), "&"))
  }

  /** `s.substr(0, s.indexOf('='))`: empty when the piece has no `=`. */
  function SegKey(s: string): (r: string)
    ensures '=' !in r
    ensures IndexOfChar(s, '=') < 0 ==> r == ""
    ensures IndexOfChar(s, '=') >= 0 ==> r == s[..IndexOfChar(s, '=')]
  {
    var p := IndexOfChar(s, '=');
    if p < 0 then "" else s[..p]
  }

  /** `s.substr(s.indexOf('=') + 1)`: the whole piece when it has no `=`. */
  function SegValue(s: string): (r: string)
    ensures IndexOfChar(s, '=') < 0 ==> r == s
    ensures IndexOfChar(s, '=') >= 0 ==> s == SegKey(s) + "=" + r
  {
    var p := IndexOfChar(s, '=');
    if p < 0 then s else
      assert s == s[..p] + [s[p]] + s[p + 1..];
      s[p + 1..]
  }

  /** The keys the pieces name, in order. */
  function SegKeys(segs: seq<string>): (r: seq<string>)
    ensures |r| == |segs| && forall i :: 0 <= i < |segs| ==> r[i] == SegKey(segs[i])
  {
    seq(|segs|, i requires 0 <= i < |segs| => SegKey(segs[i]))
  }

  /** The values the pieces carry, as strings. */
  function SegValues(segs: seq<string>): (r: seq<Value>)
    ensures |r| == |segs| && forall i :: 0 <= i < |segs| ==> r[i] == Str(SegValue(segs[i]))
  {
    seq(|segs|, i requires 0 <= i < |segs| => Str(SegValue(segs[i])))
  }

  /** The object the `for…of` loop of `fromParamString` builds. */
  function SegmentParams(segs: seq<string>): (r: Value)
    ensures r.Obj? && r.proto == PlainProto
  {
    PutAll(EmptyObj, SegKeys(segs), SegValues(segs))
  }

  /** `Url.fromParamString(str)`: null for a falsy argument; `split` of a non-string raises. */
  function FromParamString(c: Codec, str: Value): (r: Result<Value>)
    ensures !Truthy(str) ==> r == Ok(Null)
    ensures Truthy(str) && !str.Str? ==> r == Raise(TypeError)
  {
    if !Truthy(str) then Ok(Null)
    else if !str.Str? then Raise(TypeError)
    else FromParams(c, SegmentParams(Split(str.s, '&')))
  }

  /** `JSON.parse(value)`, or the string itself when it does not parse. */
  function Revive(c: Codec, d: string): (r: Value)
    ensures c.parse(d).Some? ==> r == c.parse(d).value
    ensures c.parse(d).None? ==> r == Str(d)
  {
    match c.parse(d)
    case Some(x) => x
    case None => Str(d)
  }

  /** `decodeURIComponent` of every value, in call order, or `None` at the first that raises. */
  function Decoded(c: Codec, t: seq<Visit>): (r: Option<seq<string>>)
    ensures r.Some? <==> forall i :: 0 <= i < |t| ==> c.decode(ToJsString(t[i].value)).Some?
    ensures r.Some? ==> |r.value| == |t|
    ensures r.Some? ==> forall i :: 0 <= i < |t| ==> c.decode(ToJsString(t[i].value)) == Some(r.value[i])
  {
    if t == [] then Some([])
    else
      match c.decode(ToJsString(t[0].value))
      case None => None
      case Some(d) =>
        assert forall i :: 0 < i < |t| ==> t[i] == t[1..][i - 1];
        match Decoded(c, t[1..])
        case None => None
        case Some(ds) => Some([d] + ds)
  }

  /**
   * `Url.fromParams(params)`: a non-object is returned as it is; otherwise
   * every visited value is decoded (a `URIError` escapes) and revived.
   */
  function FromParams(c: Codec, params: Value): (r: Result<Value>)
    ensures !IsObject(params) ==> r == Ok(params)
    ensures r.Raise? ==> r.exc == URIError
    ensures IsObject(params) && r.Ok? ==> r.value.Obj? && r.value.proto == PlainProto
  {
    if !IsObject(params) then Ok(params)
    else
      Revived(c, EachTrace(params, Quiet, false))
  }

  /** The object the calls `t` of the callback of `fromParams` fill, or the `URIError` one of them raises. */
  function Revived(c: Codec, t: seq<Visit>): (r: Result<Value>)
    ensures r.Raise? ==> r.exc == URIError
    ensures r.Ok? ==> r.value.Obj? && r.value.proto == PlainProto
  {
    match Decoded(c, t)
    case None => Raise(URIError)
    case Some(ds) => Ok(PutAll(EmptyObj, VisitKeys(t), seq(|ds|, i requires 0 <= i < |ds| => Revive(c, ds[i]))))
  }

  // ------------------------------------------------------------ the loops

  /** `toParamString`'s `paramStrings.push(…)` on each visit, then `join('&')`. */
  method BuildParamString(c: Codec, obj: Value) returns (r: Result<string>)
    ensures r == ToParamString(c, obj)
  {
    if !IsObject(obj) {
      return Raise(NotObject);
    }
    var params := ToParams(c, obj).value;
    var paramStrings := PushPairs(ForInVisits(params));
    return Ok(Join(paramStrings, "&"));
  }

  /** The callback of `toParamString` on each of the calls `t`: `paramStrings.push(key + '=' + value)`. */
  method PushPairs(t: seq<Visit>) returns (paramStrings: seq<string>)
    ensures paramStrings == VisitPairs(t)
  {
    paramStrings := [];
    var i := 0;
    while i < |t|
      invariant 0 <= i <= |t|
      invariant paramStrings == VisitPairs(t)[..i]
    {
      assert VisitPairs(t)[..i + 1] == VisitPairs(t)[..i] + [PairString(t[i])];
      paramStrings := paramStrings + [ToJsString(t[i].key) + "=" + ToJsString(t[i].value)];
      i := i + 1;
    }
    assert VisitPairs(t)[..i] == VisitPairs(t);
  }

  /** `fromParamString`'s `for (let s of paramStrings) params[key] = value;`, then `fromParams`. */
  method ParseParamString(c: Codec, str: Value) returns (r: Result<Value>)
    ensures r == FromParamString(c, str)
  {
    if !Truthy(str) {
      return Ok(Null);
    }
    if !str.Str? {
      return Raise(TypeError);
    }
    var params := PutSegments(Split(str.s, '&'));
    r := FromParams(c, params);
  }

  /** The loop `for (let s of paramStrings) params[s.substr(0, …)] = s.substr(…)` over the pieces `segs`. */
  method PutSegments(segs: seq<string>) returns (params: Value)
    ensures params == SegmentParams(segs)
  {
    params := EmptyObj;
    var i := 0;
    while i < |segs|
      invariant 0 <= i <= |segs|
      invariant params.Obj?
      invariant PutAll(params, SegKeys(segs)[i..], SegValues(segs)[i..]) == SegmentParams(segs)
    {
      var s := segs[i];
      var p := IndexOfChar(s, '=');
      var key := if p < 0 then "" else s[..p];
      PutAllStep(params, SegKeys(segs)[i..], SegValues(segs)[i..]);
      assert SegKeys(segs)[i..][1..] == SegKeys(segs)[i + 1..];
      assert SegValues(segs)[i..][1..] == SegValues(segs)[i + 1..];
      params := ObjPut(params, key, Str(s[p + 1..]));
      i := i + 1;
    }
  }

  lemma PutAllStep(o: Value, ks: seq<string>, vs: seq<Value>)
    requires o.Obj? && |ks| == |vs| && |ks| > 0
    ensures PutAll(o, ks, vs) == PutAll(ObjPut(o, ks[0], vs[0]), ks[1..], vs[1..])
  {
  }

  // ----------------------------------------------------------- properties

  /** The own keys whose value is not a function, in order. */
  function NonFunKeys(ks: seq<string>, fields: map<string, Value>): (r: seq<string>)
    requires forall k :: k in ks ==> k in fields
    ensures forall k :: k in r <==> k in ks && !fields[k].Fun?
    ensures Distinct(ks) ==> Distinct(r)
  {
    if ks == [] then []
    else
      var rest := NonFunKeys(ks[1..], fields);
      assert Distinct(ks) ==> Distinct(ks[1..]) by {
        if Distinct(ks) {
          forall i, j | 0 <= i < j < |ks[1..]| ensures ks[1..][i] != ks[1..][j] {
            assert ks[1..][i] == ks[i + 1] && ks[1..][j] == ks[j + 1];
          }
        }
      }
      if fields[ks[0]].Fun? then rest else [ks[0]] + rest
  }

  /** The calls a `for…in` loop makes over the keys `ks` of an object with fields `fields`. */
  function FieldVisits(ks: seq<string>, fields: map<string, Value>): (r: seq<Visit>)
    requires forall k :: k in ks ==> k in fields
    ensures |r| == |ks|
  {
    seq(|ks|, i requires 0 <= i < |ks| => Visit(Str(ks[i]), fields[ks[i]]))
  }

  lemma ForInFieldVisits(o: Value)
    requires o.Obj? && WfObj(o.keys, o.fields)
    ensures ForInVisits(o) == FieldVisits(o.keys, o.fields)
  {
  }

  /** Skipping functions in a `for…in` loop is visiting the non-function keys. */
  lemma {:induction false} KeptFieldVisits(ks: seq<string>, fields: map<string, Value>)
    requires forall k :: k in ks ==> k in fields
    ensures Kept(FieldVisits(ks, fields), true) == FieldVisits(NonFunKeys(ks, fields), fields)
    decreases |ks|
  {
    if ks != [] {
      var fv := FieldVisits(ks, fields);
      assert fv[1..] == FieldVisits(ks[1..], fields);
      KeptFieldVisits(ks[1..], fields);
      var rest := NonFunKeys(ks[1..], fields);
      if !fields[ks[0]].Fun? {
        assert FieldVisits([ks[0]] + rest, fields) == [fv[0]] + FieldVisits(rest, fields);
      }
    }
  }

  /** The calls `each` makes over a well-formed object, with and without `excludeFunction`. */
  lemma QuietTraceObj(o: Value)
    requires o.Obj? && WfObj(o.keys, o.fields)
    ensures EachTrace(o, Quiet, true) == FieldVisits(NonFunKeys(o.keys, o.fields), o.fields)
    ensures EachTrace(o, Quiet, false) == FieldVisits(o.keys, o.fields)
  {
    ForInFieldVisits(o);
    LoopWithoutStop(ForInVisits(o), Quiet, true);
    LoopWithoutStop(ForInVisits(o), Quiet, false);
    KeptAll(ForInVisits(o));
    KeptFieldVisits(o.keys, o.fields);
  }

  /** The parameter object filled from the visits of distinct keys. */
  lemma ParamsFromFields(c: Codec, nk: seq<string>, fields: map<string, Value>)
    requires forall k :: k in nk ==> k in fields
    requires Distinct(nk)
    ensures WfObj(ParamsFrom(c, FieldVisits(nk, fields)).keys, ParamsFrom(c, FieldVisits(nk, fields)).fields)
    ensures ParamsFrom(c, FieldVisits(nk, fields)).keys == nk
    ensures forall k :: k in ParamsFrom(c, FieldVisits(nk, fields)).fields <==> k in nk
    ensures forall k :: k in nk ==> ParamsFrom(c, FieldVisits(nk, fields)).fields[k] == Str(ParamValue(c, fields[k]))
  {
    var t := FieldVisits(nk, fields);
    var vs := ParamValues(c, t);
    assert VisitKeys(t) == nk;
    PutAllFresh(EmptyObj, nk, vs);
    forall k | k in nk ensures PutAll(EmptyObj, nk, vs).fields[k] == Str(ParamValue(c, fields[k])) {
      var i :| 0 <= i < |nk| && nk[i] == k;
      assert vs[i] == Str(ParamValue(c, fields[nk[i]]));
    }
    assert WfObj(EmptyObj.keys, EmptyObj.fields);
    PutAllLast(EmptyObj, nk, vs);
  }

  /**
   * On a well-formed object, `toParams` keeps exactly the own keys whose
   * value is not a function, in their order, each with its encoded value:
   * `encode(JSON.stringify(v))` for an object, `encode(String(v))` otherwise.
   */
  lemma ToParamsObj(c: Codec, o: Value)
    requires o.Obj? && WfObj(o.keys, o.fields)
    ensures ToParams(c, o).Ok?
    ensures WfObj(ToParams(c, o).value.keys, ToParams(c, o).value.fields)
    ensures ToParams(c, o).value.keys == NonFunKeys(o.keys, o.fields)
    ensures forall k :: k in ToParams(c, o).value.fields <==> k in o.fields && !o.fields[k].Fun?
    ensures forall k :: k in ToParams(c, o).value.fields ==>
      ToParams(c, o).value.fields[k] == Str(ParamValue(c, o.fields[k]))
  {
    QuietTraceObj(o);
    ParamsFromFields(c, NonFunKeys(o.keys, o.fields), o.fields);
  }

  /** `k` is the index of one of the first `n` elements. */
  predicate IndexBelow(k: string, n: nat) {
    ParseIndex(k).Some? && ParseIndex(k).value < n
  }

  /** What `toParams` of an array writes under the key `k`. */
  function ArrParam(c: Codec, e: seq<Value>, k: string): Value {
    match ParseIndex(k)
    case Some(i) => if i < |e| then Str(ParamValue(c, e[i])) else Undefined
    case None => Undefined
  }

  /**
   * On an array, `toParams` has one key per index, with the encoded element,
   * functions included: the index loop of `each` does not skip them, and
   * `JSON.stringify` of a function is undefined, so they become
   * `encode("undefined")`.
   */
  lemma ToParamsArr(c: Codec, e: seq<Value>)
    ensures ToParams(c, Arr(e)).Ok?
    ensures forall i :: 0 <= i < |e| ==>
      NatToString(i) in ToParams(c, Arr(e)).value.fields &&
      ToParams(c, Arr(e)).value.fields[NatToString(i)] == Str(ParamValue(c, e[i]))
    ensures forall k :: k in ToParams(c, Arr(e)).value.fields ==> IndexBelow(k, |e|)
    ensures forall i :: 0 <= i < |e| && e[i].Fun? ==>
      ToParams(c, Arr(e)).value.fields[NatToString(i)] == Str(c.encode("undefined"))
  {
    ToParamsArrFields(c, e);
    var r := ToParams(c, Arr(e)).value;
    forall i | 0 <= i < |e|
      ensures NatToString(i) in r.fields && r.fields[NatToString(i)] == Str(ParamValue(c, e[i]))
    {
      ParseIndexOfNatToString(i);
    }
  }

  /** The parameters of an array: a key per index, each holding what `ArrParam` gives for it. */
  lemma ToParamsArrFields(c: Codec, e: seq<Value>)
    ensures ToParams(c, Arr(e)).Ok?
    ensures forall i :: 0 <= i < |e| ==> NatToString(i) in ToParams(c, Arr(e)).value.fields
    ensures forall k :: k in ToParams(c, Arr(e)).value.fields ==>
      ToParams(c, Arr(e)).value.fields[k] == ArrParam(c, e, k)
    ensures forall k :: k in ToParams(c, Arr(e)).value.fields ==> IndexBelow(k, |e|)
  {
    var t := EachTrace(Arr(e), Quiet, true);
    QuietTraceArr(e);
    ArrWrites(c, e, t);
    ArrKeysAreIndices(e, t);
    assert ToParams(c, Arr(e)).value == PutAll(EmptyObj, VisitKeys(t), ParamValues(c, t));
    ArrParamsFields(c, e, VisitKeys(t), ParamValues(c, t));
  }

  lemma ArrKeysAreIndices(e: seq<Value>, t: seq<Visit>)
    requires t == IndexVisits(e) + Kept(KeyVisits(e), true)
    ensures forall j :: 0 <= j < |t| ==> IndexBelow(VisitKeys(t)[j], |e|)
  {
    forall j | 0 <= j < |t| ensures IndexBelow(VisitKeys(t)[j], |e|) {
      var i := ArrVisitAt(e, Kept(KeyVisits(e), true), t, j);
      assert VisitKeys(t)[j] == NatToString(i);
      ParseIndexOfNatToString(i);
    }
  }

  lemma ArrParamsFields(c: Codec, e: seq<Value>, ks: seq<string>, vs: seq<Value>)
    requires |ks| == |vs| && |ks| >= |e|
    requires forall j :: 0 <= j < |e| ==> ks[j] == NatToString(j)
    requires forall j :: 0 <= j < |ks| ==> vs[j] == ArrParam(c, e, ks[j])
    requires forall j :: 0 <= j < |ks| ==> IndexBelow(ks[j], |e|)
    ensures forall i :: 0 <= i < |e| ==> NatToString(i) in PutAll(EmptyObj, ks, vs).fields
    ensures forall k :: k in PutAll(EmptyObj, ks, vs).fields ==> PutAll(EmptyObj, ks, vs).fields[k] == ArrParam(c, e, k)
    ensures forall k :: k in PutAll(EmptyObj, ks, vs).fields ==> IndexBelow(k, |e|)
  {
    ArrParamsPresent(e, ks, vs);
    ArrParamsValues(c, e, ks, vs);
    ArrParamsOnlyIndices(e, ks, vs);
  }

  lemma ArrParamsPresent(e: seq<Value>, ks: seq<string>, vs: seq<Value>)
    requires |ks| == |vs| && |ks| >= |e|
    requires forall j :: 0 <= j < |e| ==> ks[j] == NatToString(j)
    ensures forall i :: 0 <= i < |e| ==> NatToString(i) in PutAll(EmptyObj, ks, vs).fields
  {
    PutAllKeys(EmptyObj, ks, vs);
    forall i | 0 <= i < |e| ensures NatToString(i) in ks {
      assert ks[i] == NatToString(i);
    }
  }

  lemma ArrParamsValues(c: Codec, e: seq<Value>, ks: seq<string>, vs: seq<Value>)
    requires |ks| == |vs|
    requires forall j :: 0 <= j < |ks| ==> vs[j] == ArrParam(c, e, ks[j])
    ensures forall k :: k in PutAll(EmptyObj, ks, vs).fields ==> PutAll(EmptyObj, ks, vs).fields[k] == ArrParam(c, e, k)
  {
    var g := k => ArrParam(c, e, k);
    assert forall j :: 0 <= j < |ks| ==> vs[j] == g(ks[j]);
    PutAllUniform(EmptyObj, ks, vs, g);
  }

  lemma ArrParamsOnlyIndices(e: seq<Value>, ks: seq<string>, vs: seq<Value>)
    requires |ks| == |vs|
    requires forall j :: 0 <= j < |ks| ==> IndexBelow(ks[j], |e|)
    ensures forall k :: k in PutAll(EmptyObj, ks, vs).fields ==> IndexBelow(k, |e|)
  {
    PutAllOnly(EmptyObj, ks, vs, k => IndexBelow(k, |e|));
  }

  /** The calls `each(…, true)` makes over an array: every index, then the indices of non-functions, as strings. */
  lemma QuietTraceArr(e: seq<Value>)
    ensures EachTrace(Arr(e), Quiet, true) == IndexVisits(e) + Kept(KeyVisits(e), true)
  {
    LoopWithoutStop(IndexVisits(e), Quiet, false);
    KeptAll(IndexVisits(e));
    LoopWithoutStop(KeyVisits(e), Quiet, true);
  }

  /** Every write `toParams` makes over an array stores, under an index, the encoded element at that index. */
  lemma ArrWrites(c: Codec, e: seq<Value>, t: seq<Visit>)
    requires t == IndexVisits(e) + Kept(KeyVisits(e), true)
    ensures |t| >= |e|
    ensures forall j :: 0 <= j < |e| ==> VisitKeys(t)[j] == NatToString(j)
    ensures forall j :: 0 <= j < |t| ==> ParamValues(c, t)[j] == ArrParam(c, e, VisitKeys(t)[j])
  {
    forall j | 0 <= j < |e| ensures VisitKeys(t)[j] == NatToString(j) {
      assert t[j] == Visit(Num(j), e[j]);
    }
    forall j | 0 <= j < |t| ensures ParamValues(c, t)[j] == ArrParam(c, e, VisitKeys(t)[j]) {
      var i := ArrVisitAt(e, Kept(KeyVisits(e), true), t, j);
      ParseIndexOfNatToString(i);
    }
  }

  /** Each call over an array is keyed by an index and given the element there. */
  lemma ArrVisitAt(e: seq<Value>, second: seq<Visit>, t: seq<Visit>, j: nat) returns (i: nat)
    requires forall x :: x in second ==> x in KeyVisits(e)
    requires t == IndexVisits(e) + second && j < |t|
    ensures i < |e| && ToJsString(t[j].key) == NatToString(i) && t[j].value == e[i]
  {
    if j < |e| {
      i := j;
      assert t[j] == Visit(Num(j), e[j]);
    } else {
      assert t[j] == second[j - |e|];
      assert t[j] in KeyVisits(e);
      i :| 0 <= i < |e| && KeyVisits(e)[i] == t[j];
    }
  }

  /** The pairs of `toParamString` for the non-function keys of an object. */
  function ParamPairs(c: Codec, nk: seq<string>, fields: map<string, Value>): (r: seq<string>)
    requires forall k :: k in nk ==> k in fields
    ensures |r| == |nk|
  {
    seq(|nk|, i requires 0 <= i < |nk| => nk[i] + "=" + ParamValue(c, fields[nk[i]]))
  }

  /**
   * On a well-formed object, `toParamString` is the `&`-join, in key order,
   * of `key=value` for every key whose value is not a function.
   */
  lemma ToParamStringObj(c: Codec, o: Value)
    requires o.Obj? && WfObj(o.keys, o.fields)
    ensures ToParamString(c, o) == Ok(Join(ParamPairs(c, NonFunKeys(o.keys, o.fields), o.fields), "&"))
  {
    ToParamsObj(c, o);
    PairsOf(c, ToParams(c, o).value, NonFunKeys(o.keys, o.fields), o.fields);
  }

  lemma PairsOf(c: Codec, params: Value, nk: seq<string>, fields: map<string, Value>)
    requires params.Obj? && WfObj(params.keys, params.fields) && params.keys == nk
    requires forall k :: k in nk ==> k in fields && params.fields[k] == Str(ParamValue(c, fields[k]))
    ensures Pairs(params) == ParamPairs(c, nk, fields)
  {
    ForInFieldVisits(params);
    var t := ForInVisits(params);
    forall i | 0 <= i < |nk| ensures Pairs(params)[i] == ParamPairs(c, nk, fields)[i] {
      assert t[i] == Visit(Str(nk[i]), params.fields[nk[i]]);
    }
  }

  /**
   * The object `fromParamString` builds before decoding: a key for every
   * piece, whose value is that of the last piece naming it.
   */
  lemma SegmentParamsLast(segs: seq<string>)
    ensures WfObj(SegmentParams(segs).keys, SegmentParams(segs).fields)
    ensures forall k :: k in SegmentParams(segs).fields <==> exists i :: 0 <= i < |segs| && k == SegKey(segs[i])
    ensures forall i :: 0 <= i < |segs| && (forall j :: i < j < |segs| ==> SegKey(segs[j]) != SegKey(segs[i])) ==>
      SegmentParams(segs).fields[SegKey(segs[i])] == Str(SegValue(segs[i]))
  {
    var ks, vs := SegKeys(segs), SegValues(segs);
    var r := SegmentParams(segs);
    assert WfObj(r.keys, r.fields) by {
      assert WfObj(EmptyObj.keys, EmptyObj.fields);
      PutAllWf(EmptyObj, ks, vs);
    }
    assert forall k :: k in r.fields <==> k in ks by {
      PutAllKeys(EmptyObj, ks, vs);
    }
    forall k | k in r.fields ensures exists i :: 0 <= i < |segs| && k == SegKey(segs[i]) {
      var i :| 0 <= i < |ks| && ks[i] == k;
    }
    forall k | exists i :: 0 <= i < |segs| && k == SegKey(segs[i]) ensures k in r.fields {
      var i :| 0 <= i < |segs| && k == SegKey(segs[i]);
      assert ks[i] == k;
    }
    forall i | 0 <= i < |segs| && (forall j :: i < j < |segs| ==> SegKey(segs[j]) != SegKey(segs[i]))
      ensures r.fields[SegKey(segs[i])] == Str(SegValue(segs[i]))
    {
      PutAllLastValue(EmptyObj, ks, vs, i);
    }
  }

  /** A piece without `=` names the empty key and carries the whole piece. */
  lemma SegmentWithoutEquals(s: string)
    requires '=' !in s
    ensures SegKey(s) == "" && SegValue(s) == s
  {
  }

  /**
   * On a well-formed object, `fromParams` raises exactly when some value does
   * not decode; otherwise it keeps the keys, in order, each with its decoded
   * value revived through `JSON.parse`.
   */
  lemma FromParamsObj(c: Codec, o: Value)
    requires o.Obj? && WfObj(o.keys, o.fields)
    ensures FromParams(c, o).Raise? <==> exists k :: k in o.fields && c.decode(ToJsString(o.fields[k])).None?
    ensures FromParams(c, o).Ok? ==> FromParams(c, o).value.keys == o.keys
    ensures FromParams(c, o).Ok? ==> forall k :: k in FromParams(c, o).value.fields <==> k in o.fields
    ensures FromParams(c, o).Ok? ==> forall k :: k in o.fields ==>
      FromParams(c, o).value.fields[k] == Revive(c, c.decode(ToJsString(o.fields[k])).value)
  {
    QuietTraceObj(o);
    RevivedFields(c, o.keys, o.fields);
  }

  /** The position of a key in a list of distinct keys. */
  function IndexIn(ks: seq<string>, k: string): (i: nat)
    requires k in ks
    ensures i < |ks| && ks[i] == k
  {
    if ks[0] == k then 0 else 1 + IndexIn(ks[1..], k)
  }

  /** The object `fromParams` fills from the visits of distinct keys. */
  lemma RevivedFields(c: Codec, ks: seq<string>, fields: map<string, Value>)
    requires Distinct(ks) && forall k :: k in fields <==> k in ks
    ensures Revived(c, FieldVisits(ks, fields)).Raise? <==> exists k :: k in fields && c.decode(ToJsString(fields[k])).None?
    ensures Revived(c, FieldVisits(ks, fields)).Ok? ==> Revived(c, FieldVisits(ks, fields)).value.keys == ks
    ensures Revived(c, FieldVisits(ks, fields)).Ok? ==> forall k :: k in Revived(c, FieldVisits(ks, fields)).value.fields <==> k in fields
    ensures Revived(c, FieldVisits(ks, fields)).Ok? ==> forall k :: k in fields ==>
      Revived(c, FieldVisits(ks, fields)).value.fields[k] == Revive(c, c.decode(ToJsString(fields[k])).value)
  {
    var t := FieldVisits(ks, fields);
    if Decoded(c, t).None? {
      var i :| 0 <= i < |t| && c.decode(ToJsString(t[i].value)).None?;
      assert ks[i] in fields;
    } else {
      var ds := Decoded(c, t).value;
      var vs := seq(|ds|, i requires 0 <= i < |ds| => Revive(c, ds[i]));
      var r := PutAll(EmptyObj, ks, vs);
      assert Revived(c, t) == Ok(r) by {
        assert VisitKeys(t) == ks;
      }
      assert r.keys == ks by {
        PutAllFreshOrder(EmptyObj, ks, vs);
      }
      assert forall k :: k in r.fields <==> k in fields by {
        PutAllKeys(EmptyObj, ks, vs);
      }
      forall k | k in fields
        ensures c.decode(ToJsString(fields[k])) == Some(ds[IndexIn(ks, k)])
        ensures r.fields[k] == Revive(c, ds[IndexIn(ks, k)])
      {
        var i := IndexIn(ks, k);
        assert t[i].value == fields[k];
        PutAllLastValue(EmptyObj, ks, vs, i);
      }
    }
  }

  // ----------------------------------------------------------- round trip

  /** `encodeURIComponent` escapes `&`. */
  ghost predicate EscapesAmp(c: Codec) {
    forall s :: '&' !in c.encode(s)
  }

  /** `decodeURIComponent` undoes `encodeURIComponent`. */
  ghost predicate DecodeUndoesEncode(c: Codec) {
    forall s :: c.decode(c.encode(s)) == Some(s)
  }

  /** Keys `toParamString` writes verbatim and `fromParamString` can split off again. */
  ghost predicate PlainKeys(o: Value) {
    o.Obj? && forall k :: k in o.fields ==> '&' !in k && '=' !in k
  }

  /** Each `key=value` pair splits back at its first `=`. */
  lemma PairSplits(c: Codec, nk: seq<string>, fields: map<string, Value>, i: nat)
    requires forall k :: k in nk ==> k in fields && '=' !in k
    requires i < |nk|
    ensures SegKey(ParamPairs(c, nk, fields)[i]) == nk[i]
    ensures SegValue(ParamPairs(c, nk, fields)[i]) == ParamValue(c, fields[nk[i]])
  {
    var w := ParamValue(c, fields[nk[i]]);
    IndexOfCharAfter(nk[i], '=', w);
    var p := nk[i] + "=" + w;
    assert p[..|nk[i]|] == nk[i];
    assert p[|nk[i]| + 1..] == w;
  }

  /**
   * Splitting the string `toParamString` builds gives back, piece by piece,
   * the object `toParams` built, provided some key is written at all, no key
   * holds `&` or `=`, and the encoding escapes `&`.
   */
  lemma ParamStringSplits(c: Codec, o: Value)
    requires o.Obj? && WfObj(o.keys, o.fields) && PlainKeys(o) && EscapesAmp(c)
    requires NonFunKeys(o.keys, o.fields) != []
    ensures ToParamString(c, o).Ok? && Truthy(Str(ToParamString(c, o).value))
    ensures SegmentParams(Split(ToParamString(c, o).value, '&')) == ToParams(c, o).value
  {
    var nk := NonFunKeys(o.keys, o.fields);
    var pairs := ParamPairs(c, nk, o.fields);
    ToParamStringObj(c, o);
    PairsSplit(c, nk, o.fields);
    SegmentsOfPairs(c, nk, o.fields);
    QuietTraceObj(o);
  }

  /** The pairs hold no `&`, so splitting their join gives them back; there is at least one, so the join is not empty. */
  lemma PairsSplit(c: Codec, nk: seq<string>, fields: map<string, Value>)
    requires forall k :: k in nk ==> k in fields && '&' !in k
    requires EscapesAmp(c) && nk != []
    ensures Join(ParamPairs(c, nk, fields), "&") != ""
    ensures Split(Join(ParamPairs(c, nk, fields), "&"), '&') == ParamPairs(c, nk, fields)
  {
    var pairs := ParamPairs(c, nk, fields);
    JoinLength(pairs, "&");
    forall i | 0 <= i < |pairs| ensures '&' !in pairs[i] {
      assert pairs[i] == nk[i] + "=" + ParamValue(c, fields[nk[i]]);
    }
    SplitJoin(pairs, '&');
  }

  /** The pieces name the keys and carry the values the parameter object holds. */
  lemma SegmentsOfPairs(c: Codec, nk: seq<string>, fields: map<string, Value>)
    requires forall k :: k in nk ==> k in fields && '=' !in k
    ensures SegmentParams(ParamPairs(c, nk, fields)) == ParamsFrom(c, FieldVisits(nk, fields))
  {
    var pairs := ParamPairs(c, nk, fields);
    forall i | 0 <= i < |nk|
      ensures SegKeys(pairs)[i] == nk[i] && SegValues(pairs)[i] == Str(ParamValue(c, fields[nk[i]]))
    {
      PairSplits(c, nk, fields, i);
    }
    assert SegKeys(pairs) == VisitKeys(FieldVisits(nk, fields));
    assert SegValues(pairs) == ParamValues(c, FieldVisits(nk, fields));
  }

  /**
   * `fromParams` undoes `toParams` up to JSON: every non-function key comes
   * back, in order, holding what `JSON.parse` makes of the text it was sent
   * as (or that text, where it does not parse).
   */
  lemma ParamsRoundTrip(c: Codec, o: Value)
    requires o.Obj? && WfObj(o.keys, o.fields) && DecodeUndoesEncode(c)
    ensures FromParams(c, ToParams(c, o).value).Ok?
    ensures FromParams(c, ToParams(c, o).value).value.keys == NonFunKeys(o.keys, o.fields)
    ensures forall k :: k in FromParams(c, ToParams(c, o).value).value.fields <==> k in o.fields && !o.fields[k].Fun?
    ensures forall k :: k in FromParams(c, ToParams(c, o).value).value.fields ==>
      FromParams(c, ToParams(c, o).value).value.fields[k] == Revive(c, ToJsString(JsonText(c, o.fields[k])))
  {
    ToParamsObj(c, o);
    var params := ToParams(c, o).value;
    FromParamsObj(c, params);
    forall k | k in params.fields
      ensures c.decode(ToJsString(params.fields[k])) == Some(ToJsString(JsonText(c, o.fields[k])))
    {
      assert params.fields[k] == Str(c.encode(ToJsString(JsonText(c, o.fields[k]))));
    }
  }

  /**
   * `fromParamString(toParamString(o))`: null when no key is written (the
   * string is empty), otherwise the keys of `o` holding no function, each
   * revived from the text it was sent as.
   */
  lemma ParamStringRoundTrip(c: Codec, o: Value)
    requires o.Obj? && WfObj(o.keys, o.fields) && PlainKeys(o) && EscapesAmp(c) && DecodeUndoesEncode(c)
    ensures ToParamString(c, o).Ok?
    ensures NonFunKeys(o.keys, o.fields) == [] ==> FromParamString(c, Str(ToParamString(c, o).value)) == Ok(Null)
    ensures NonFunKeys(o.keys, o.fields) != [] ==>
      FromParamString(c, Str(ToParamString(c, o).value)) == FromParams(c, ToParams(c, o).value)
  {
    if NonFunKeys(o.keys, o.fields) == [] {
      ToParamStringObj(c, o);
    } else {
      ParamStringSplits(c, o);
    }
  }

  /** What comes back for a value: an object JSON restores, or a string that is not JSON, comes back as it was. */
  lemma ReviveSent(c: Codec, v: Value)
    ensures v.Obj? && c.parse(c.stringify(v)) == Some(v) ==> Revive(c, ToJsString(JsonText(c, v))) == v
    ensures v.Str? && c.parse(v.s) == None ==> Revive(c, ToJsString(JsonText(c, v))) == v
    ensures v.Str? && c.parse(v.s).Some? ==> Revive(c, ToJsString(JsonText(c, v))) == c.parse(v.s).value
  {
  }
}
