/**
 * The generic object helper `weobj(o)` (object.js): iteration with early
 * stop, mapping, emptiness, path lookup and path update, deep merge, and the
 * conversions to plain, transfer and rich form.
 *
 * Values are immutable here: an operation that writes into `o` in place
 * returns the updated `o`, and a write into a nested object is written back
 * along the path that reached it.
 */
module WeObj {
  import opened JsValue
  import Model

  /** One call of an `each` callback: the key it was given and the value. */
  datatype Visit = Visit(key: Value, value: Value)

  /** A callback `(key, value) => …`; a result of exactly `false` stops the loop. */
  type Callback = (Value, Value) -> Value

  predicate Stops(cb: Callback, v: Visit) {
    cb(v.key, v.value) == Bool(false)
  }

  // ---------------------------------------------------------------- each

  /** The calls of the index loop over an array, when none stops it. */
  function IndexVisits(e: seq<Value>): seq<Visit> {
    seq(|e|, i requires 0 <= i < |e| => Visit(Num(i), e[i]))
  }

  /** The calls of the `for…in` loop, when none stops it: own keys, as strings. */
  function ForInVisits(o: Value): seq<Visit> {
    match o
    case Obj(_, _, fields) =>
      var ks := OwnKeys(o);
      seq(|ks|, i requires 0 <= i < |ks| => Visit(Str(ks[i]), fields[ks[i]]))
    case Arr(e) => KeyVisits(e)
    case _ => []
  }

  /** The calls of the `for…in` loop over an array: each index, as a string. */
  function KeyVisits(e: seq<Value>): seq<Visit> {
    seq(|e|, i requires 0 <= i < |e| => Visit(Str(NatToString(i)), e[i]))
  }

  /** The visits that the `excludeFunction` test lets through. */
  function Kept(vs: seq<Visit>, skipFun: bool): (r: seq<Visit>)
    ensures forall i :: 0 <= i < |r| ==> r[i] in vs && !(skipFun && r[i].value.Fun?)
  {
    if vs == [] then []
    else if skipFun && vs[0].value.Fun? then Kept(vs[1..], skipFun)
    else [vs[0]] + Kept(vs[1..], skipFun)
  }

  /** The calls one loop makes: it ends after the first call that returns `false`. */
  function Loop(vs: seq<Visit>, cb: Callback, skipFun: bool): seq<Visit> {
    if vs == [] then []
    else if skipFun && vs[0].value.Fun? then Loop(vs[1..], cb, skipFun)
    else if Stops(cb, vs[0]) then [vs[0]]
    else [vs[0]] + Loop(vs[1..], cb, skipFun)
  }

  /**
   * The calls `each(callback, excludeFunction)` makes: for an array the index
   * loop first, then the `for…in` loop; a `false` ends only the loop it
   * happens in, and functions are skipped only by the second loop.
   */
  function EachTrace(o: Value, cb: Callback, excl: bool): seq<Visit> {
    if !IsObject(o) then []
    else (if o.Arr? then Loop(IndexVisits(o.elems), cb, false) else []) + Loop(ForInVisits(o), cb, excl)
  }

  /**
   * A loop calls the callback on a prefix of the visits it keeps, stops right
   * after the first `false` and not before.
   */
  lemma {:induction false} LoopStopsAtFirstFalse(vs: seq<Visit>, cb: Callback, skipFun: bool)
    ensures |Loop(vs, cb, skipFun)| <= |Kept(vs, skipFun)|
    ensures Loop(vs, cb, skipFun) == Kept(vs, skipFun)[..|Loop(vs, cb, skipFun)|]
    ensures forall j :: 0 <= j < |Loop(vs, cb, skipFun)| - 1 ==> !Stops(cb, Loop(vs, cb, skipFun)[j])
    ensures |Loop(vs, cb, skipFun)| < |Kept(vs, skipFun)| ==>
      |Loop(vs, cb, skipFun)| >= 1 && Stops(cb, Loop(vs, cb, skipFun)[|Loop(vs, cb, skipFun)| - 1])
    decreases |vs|
  {
    if vs != [] {
      LoopStopsAtFirstFalse(vs[1..], cb, skipFun);
      var t, k := Loop(vs[1..], cb, skipFun), Kept(vs[1..], skipFun);
      if !(skipFun && vs[0].value.Fun?) && !Stops(cb, vs[0]) {
        assert Loop(vs, cb, skipFun) == [vs[0]] + t;
        assert Kept(vs, skipFun) == [vs[0]] + k;
        assert ([vs[0]] + k)[..|t| + 1] == [vs[0]] + k[..|t|];
      }
    }
  }

  /** A loop makes no call exactly when it keeps no visit, whatever the callback. */
  lemma {:induction false} LoopEmpty(vs: seq<Visit>, cb: Callback, skipFun: bool)
    ensures Loop(vs, cb, skipFun) == [] <==> Kept(vs, skipFun) == []
    decreases |vs|
  {
    if vs != [] {
      LoopEmpty(vs[1..], cb, skipFun);
    }
  }

  /** A loop whose callback never returns `false` makes every call it keeps. */
  lemma {:induction false} LoopWithoutStop(vs: seq<Visit>, cb: Callback, skipFun: bool)
    requires forall i :: 0 <= i < |vs| ==> !Stops(cb, vs[i])
    ensures Loop(vs, cb, skipFun) == Kept(vs, skipFun)
    decreases |vs|
  {
    if vs != [] {
      assert forall i :: 0 <= i < |vs[1..]| ==> vs[1..][i] == vs[i + 1];
      LoopWithoutStop(vs[1..], cb, skipFun);
    }
  }

  lemma {:induction false} KeptAll(vs: seq<Visit>)
    ensures Kept(vs, false) == vs
    decreases |vs|
  {
    if vs != [] {
      KeptAll(vs[1..]);
    }
  }

  /**
   * With a callback that never returns `false` and functions not excluded,
   * `each` on an array visits every element twice: first under its numeric
   * index, then under the index as a string.
   */
  lemma ArrayVisitedTwice(e: seq<Value>, cb: Callback)
    requires forall i :: 0 <= i < |e| ==> !Stops(cb, Visit(Num(i), e[i]))
    requires forall i :: 0 <= i < |e| ==> !Stops(cb, Visit(Str(NatToString(i)), e[i]))
    ensures EachTrace(Arr(e), cb, false) == IndexVisits(e) + KeyVisits(e)
    ensures |EachTrace(Arr(e), cb, false)| == 2 * |e|
  {
    LoopWithoutStop(IndexVisits(e), cb, false);
    LoopWithoutStop(KeyVisits(e), cb, false);
    KeptAll(IndexVisits(e));
    KeptAll(KeyVisits(e));
  }

  /** With `excludeFunction` no function value reaches the second loop's callback. */
  lemma ExcludedFunctionsNotVisited(o: Value, cb: Callback)
    requires o.Obj?
    ensures forall i :: 0 <= i < |EachTrace(o, cb, true)| ==> !EachTrace(o, cb, true)[i].value.Fun?
  {
    var t := Loop(ForInVisits(o), cb, true);
    LoopStopsAtFirstFalse(ForInVisits(o), cb, true);
    assert EachTrace(o, cb, true) == t;
    var k := Kept(ForInVisits(o), true);
    forall i | 0 <= i < |t| ensures !t[i].value.Fun? {
      assert t[i] == k[i];
    }
  }

  /**
   * One loop of `each` over the pairs it enumerates: optionally skipping
   * functions, calling back, and leaving the loop on a result of `false`.
   */
  method RunLoop(vs: seq<Visit>, cb: Callback, skipFun: bool) returns (trace: seq<Visit>)
    ensures trace == Loop(vs, cb, skipFun)
  {
    trace := [];
    var j := 0;
    while j < |vs|
      invariant 0 <= j <= |vs|
      invariant Loop(vs, cb, skipFun) == trace + Loop(vs[j..], cb, skipFun)
    {
      var v := vs[j];
      assert vs[j..] == [v] + vs[j + 1..];
      j := j + 1;
      if skipFun && v.value.Fun? {
        continue;
      }
      trace := trace + [v];
      if cb(v.key, v.value) == Bool(false) {
        break;
      }
    }
  }

  /** `each(callback, excludeFunction)`: the index loop for an array, then the `for…in` loop. */
  method Each(o: Value, cb: Callback, excl: bool) returns (trace: seq<Visit>)
    ensures trace == EachTrace(o, cb, excl)
  {
    if !IsObject(o) {
      return [];
    }
    var first: seq<Visit> := [];
    if o.Arr? {
      first := RunLoop(IndexVisits(o.elems), cb, false);
    }
    var second := RunLoop(ForInVisits(o), cb, excl);
    trace := first + second;
  }

  // ------------------------------------------------------------- isEmpty

  /**
   * `isEmpty(excludeFunction)`: its callback `() => isEmpty = false` returns
   * `false`, so `each` stops at the first visit; empty means no visit.
   */
  function IsEmpty(o: Value, excl: bool): (r: bool)
    ensures r <==> NoEntry(o, excl)
  {
    EmptyTraceIff(o, (k, v) => Bool(false), excl);
    EachTrace(o, (k, v) => Bool(false), excl) == []
  }

  /** A value the loop passes over without calling back: a function, when functions are skipped. */
  predicate Skipped(skipFun: bool, x: Value) {
    skipFun && x.Fun?
  }

  /** Every own entry of `o` is one `each` skips. */
  predicate NoEntry(o: Value, excl: bool) {
    match o
    case Arr(e) => e == []
    case Obj(_, _, fields) => forall k :: k in OwnKeys(o) ==> Skipped(excl, fields[k])
    case _ => true
  }

  /** `isEmpty` holds exactly when `each`, with any callback, makes no call. */
  lemma IsEmptyIffNoVisit(o: Value, cb: Callback, excl: bool)
    ensures IsEmpty(o, excl) <==> EachTrace(o, cb, excl) == []
    ensures IsEmpty(o, excl) <==> NoEntry(o, excl)
  {
    EmptyTraceIff(o, cb, excl);
    EmptyTraceIff(o, (k, v) => Bool(false), excl);
  }

  /** `each` makes no call exactly when every own entry is one it skips. */
  lemma EmptyTraceIff(o: Value, cb: Callback, excl: bool)
    ensures EachTrace(o, cb, excl) == [] <==> NoEntry(o, excl)
  {
    if o.Arr? {
      LoopEmpty(IndexVisits(o.elems), cb, false);
      LoopEmpty(ForInVisits(o), cb, excl);
      KeptAll(IndexVisits(o.elems));
    } else if o.Obj? {
      LoopEmpty(ForInVisits(o), cb, excl);
      KeptNone(ForInVisits(o), excl);
      ObjNoEntry(o, excl);
    }
  }

  /** An object has no entry `each` keeps exactly when every visit of its `for…in` loop is skipped. */
  lemma ObjNoEntry(o: Value, excl: bool)
    requires o.Obj?
    ensures (forall i :: 0 <= i < |ForInVisits(o)| ==> Skipped(excl, ForInVisits(o)[i].value)) <==> NoEntry(o, excl)
  {
    var ks := OwnKeys(o);
    var vs := ForInVisits(o);
    assert |vs| == |ks| && forall i :: 0 <= i < |ks| ==> vs[i].value == o.fields[ks[i]];
    if forall i :: 0 <= i < |vs| ==> Skipped(excl, vs[i].value) {
      forall k | k in ks ensures Skipped(excl, o.fields[k]) {
        var i :| 0 <= i < |ks| && ks[i] == k;
      }
    }
  }

  lemma {:induction false} KeptNone(vs: seq<Visit>, skipFun: bool)
    ensures Kept(vs, skipFun) == [] <==> forall i :: 0 <= i < |vs| ==> Skipped(skipFun, vs[i].value)
    decreases |vs|
  {
    if vs != [] {
      KeptNone(vs[1..], skipFun);
      assert forall i :: 0 < i < |vs| ==> vs[i] == vs[1..][i - 1];
    }
  }

  // ----------------------------------------------------------------- map

  /** The calls `map` makes: its own callback returns undefined, so `each` never stops. */
  function AllVisits(o: Value): (r: seq<Visit>)
    ensures o.Obj? ==> |r| == |OwnKeys(o)|
    ensures o.Arr? ==> |r| == 2 * |o.elems|
  {
    (if o.Arr? then IndexVisits(o.elems) else []) + ForInVisits(o)
  }

  lemma MapVisitsAll(o: Value)
    requires IsObject(o)
    ensures EachTrace(o, (k, v) => Undefined, false) == AllVisits(o)
  {
    var cb: Callback := (k, v) => Undefined;
    LoopWithoutStop(ForInVisits(o), cb, false);
    KeptAll(ForInVisits(o));
    if o.Arr? {
      LoopWithoutStop(IndexVisits(o.elems), cb, false);
      KeptAll(IndexVisits(o.elems));
    }
  }

  /**
   * `result[key] = x; if (result[key] === undefined) delete result[key];`
   * Deleting an array element leaves a hole, which reads as undefined.
   */
  function Store(acc: Value, key: Value, x: Value): (r: Value)
    ensures acc.Obj? ==> r.Obj? && r.proto == acc.proto
    ensures acc.Arr? ==> r.Arr?
  {
    var k := ToJsString(key);
    match acc
    case Obj(_, _, _) => if x.Undefined? then ObjDelete(acc, k) else ObjPut(acc, k, x)
    case Arr(e) =>
      (match ParseIndex(k)
       case Some(i) => Arr(ArrSet(e, i, x))
       case None => acc)
    case _ => acc
  }

  /** The stores of `map`, one per call, in order. */
  function StoreAll(acc: Value, vs: seq<Visit>, xs: seq<Value>): (r: Value)
    requires |vs| == |xs|
    ensures acc.Obj? ==> r.Obj? && r.proto == acc.proto
    ensures acc.Arr? ==> r.Arr?
    decreases |vs|
  {
    if vs == [] then acc else StoreAll(Store(acc, vs[0].key, xs[0]), vs[1..], xs[1..])
  }

  /** `o instanceof Array ? [] : {}` */
  function MapInit(o: Value): Value {
    if o.Arr? then Arr([]) else EmptyObj
  }

  /** The result of `map` whose callback returned `xs[i]` on the i-th call. */
  function MapWith(o: Value, xs: seq<Value>): (r: Value)
    requires |xs| == |AllVisits(o)|
    ensures r.Obj? || r.Arr?
  {
    StoreAll(MapInit(o), AllVisits(o), xs)
  }

  /** What the callback returns on each of the calls. */
  function Results(vs: seq<Visit>, cb: Callback): (r: seq<Value>)
    ensures |r| == |vs|
  {
    seq(|vs|, i requires 0 <= i < |vs| => cb(vs[i].key, vs[i].value))
  }

  /** `map(callback)`: undefined for a non-object. */
  function Map(o: Value, cb: Callback): (r: Value)
    ensures !IsObject(o) <==> r.Undefined?
  {
    if !IsObject(o) then Undefined else MapWith(o, Results(AllVisits(o), cb))
  }

  /** The keys `ks[i]` whose result `xs[i]` is not undefined, in order. */
  function DefinedKeys(ks: seq<string>, xs: seq<Value>): (r: seq<string>)
    requires |ks| == |xs|
  {
    if ks == [] then []
    else if xs[0].Undefined? then DefinedKeys(ks[1..], xs[1..])
    else [ks[0]] + DefinedKeys(ks[1..], xs[1..])
  }

  /**
   * Storing the results for distinct new string keys into a well-formed
   * object keeps what it held and adds exactly the keys with a defined
   * result, in call order.
   */
  /** One store of a new string key into a well-formed object. */
  lemma StoreFresh(acc: Value, k: string, x: Value)
    requires acc.Obj? && WfObj(acc.keys, acc.fields) && k !in acc.fields
    ensures Store(acc, Str(k), x).Obj? && WfObj(Store(acc, Str(k), x).keys, Store(acc, Str(k), x).fields)
    ensures Store(acc, Str(k), x).keys == acc.keys + (if x.Undefined? then [] else [k])
    ensures Store(acc, Str(k), x).fields == if x.Undefined? then acc.fields else acc.fields[k := x]
  {
    assert ToJsString(Str(k)) == k;
    if x.Undefined? {
      WithoutAbsent(acc.keys, k);
    }
  }

  /** The outcome of storing results for distinct new keys, stated for `StoreAllFresh`. */
  ghost predicate FreshOutcome(acc: Value, ks: seq<string>, xs: seq<Value>, r: Value)
    requires acc.Obj? && |ks| == |xs|
  {
    r.Obj? && WfObj(r.keys, r.fields) &&
    r.keys == acc.keys + DefinedKeys(ks, xs) &&
    (forall k :: k in acc.fields ==> k in r.fields && r.fields[k] == acc.fields[k]) &&
    (forall k :: k in r.fields ==> k in acc.fields || k in ks) &&
    (forall i :: 0 <= i < |ks| ==> (ks[i] in r.fields <==> !xs[i].Undefined?)) &&
    (forall i :: 0 <= i < |ks| && !xs[i].Undefined? ==> r.fields[ks[i]] == xs[i])
  }

  /**
   * Storing the results for distinct new string keys into a well-formed
   * object keeps what it held and adds exactly the keys with a defined
   * result, in call order.
   */
  lemma {:induction false} StoreAllFresh(acc: Value, vs: seq<Visit>, ks: seq<string>, xs: seq<Value>)
    requires acc.Obj? && WfObj(acc.keys, acc.fields)
    requires |vs| == |ks| == |xs| && Distinct(ks)
    requires forall i :: 0 <= i < |vs| ==> vs[i].key == Str(ks[i]) && ks[i] !in acc.fields
    ensures FreshOutcome(acc, ks, xs, StoreAll(acc, vs, xs))
    decreases |vs|
  {
    if vs == [] {
      assert acc.keys + [] == acc.keys;
    } else {
      var k := ks[0];
      StoreFresh(acc, k, xs[0]);
      var acc1 := Store(acc, Str(k), xs[0]);
      DistinctTail(ks);
      forall i | 0 <= i < |vs[1..]| ensures vs[1..][i].key == Str(ks[1..][i]) && ks[1..][i] !in acc1.fields {
        assert vs[1..][i] == vs[i + 1] && ks[1..][i] == ks[i + 1];
      }
      StoreAllFresh(acc1, vs[1..], ks[1..], xs[1..]);
      var r := StoreAll(acc1, vs[1..], xs[1..]);
      assert StoreAll(acc, vs, xs) == r;
      FreshStep(acc, acc1, ks, xs, r);
    }
  }

  lemma FreshStep(acc: Value, acc1: Value, ks: seq<string>, xs: seq<Value>, r: Value)
    requires acc.Obj? && |ks| == |xs| && ks != [] && ks[0] !in acc.fields && ks[0] !in ks[1..]
    requires acc1.Obj? && acc1.keys == acc.keys + (if xs[0].Undefined? then [] else [ks[0]])
    requires acc1.fields == if xs[0].Undefined? then acc.fields else acc.fields[ks[0] := xs[0]]
    requires FreshOutcome(acc1, ks[1..], xs[1..], r)
    ensures FreshOutcome(acc, ks, xs, r)
  {
    FreshStepKeys(acc, acc1, ks, xs, r);
    FreshStepFields(acc, acc1, ks, xs, r);
    FreshStepResults(acc, acc1, ks, xs, r);
  }

  lemma FreshStepKeys(acc: Value, acc1: Value, ks: seq<string>, xs: seq<Value>, r: Value)
    requires acc.Obj? && |ks| == |xs| && ks != []
    requires acc1.Obj? && acc1.keys == acc.keys + (if xs[0].Undefined? then [] else [ks[0]])
    requires r.Obj? && r.keys == acc1.keys + DefinedKeys(ks[1..], xs[1..])
    ensures r.keys == acc.keys + DefinedKeys(ks, xs)
  {
    var d0: seq<string> := if xs[0].Undefined? then [] else [ks[0]];
    assert DefinedKeys(ks, xs) == d0 + DefinedKeys(ks[1..], xs[1..]);
    assert r.keys == (acc.keys + d0) + DefinedKeys(ks[1..], xs[1..]);
  }

  lemma FreshStepFields(acc: Value, acc1: Value, ks: seq<string>, xs: seq<Value>, r: Value)
    requires acc.Obj? && |ks| == |xs| && ks != [] && ks[0] !in acc.fields
    requires acc1.Obj? && acc1.fields == if xs[0].Undefined? then acc.fields else acc.fields[ks[0] := xs[0]]
    requires r.Obj?
    requires forall k :: k in acc1.fields ==> k in r.fields && r.fields[k] == acc1.fields[k]
    requires forall k :: k in r.fields ==> k in acc1.fields || k in ks[1..]
    ensures forall k :: k in acc.fields ==> k in r.fields && r.fields[k] == acc.fields[k]
    ensures forall k :: k in r.fields ==> k in acc.fields || k in ks
  {
    forall k | k in acc.fields ensures k in r.fields && r.fields[k] == acc.fields[k] {
      assert k in acc1.fields && acc1.fields[k] == acc.fields[k];
    }
  }

  lemma FreshStepResults(acc: Value, acc1: Value, ks: seq<string>, xs: seq<Value>, r: Value)
    requires acc.Obj? && |ks| == |xs| && ks != [] && ks[0] !in ks[1..]
    requires acc1.Obj? && acc1.fields == if xs[0].Undefined? then acc.fields else acc.fields[ks[0] := xs[0]]
    requires r.Obj?
    requires forall k :: k in acc1.fields ==> k in r.fields && r.fields[k] == acc1.fields[k]
    requires forall k :: k in r.fields ==> k in acc1.fields || k in ks[1..]
    requires ks[0] !in acc.fields
    requires forall i :: 0 <= i < |ks[1..]| ==> (ks[1..][i] in r.fields <==> !xs[1..][i].Undefined?)
    requires forall i :: 0 <= i < |ks[1..]| && !xs[1..][i].Undefined? ==> r.fields[ks[1..][i]] == xs[1..][i]
    ensures forall i :: 0 <= i < |ks| ==> (ks[i] in r.fields <==> !xs[i].Undefined?)
    ensures forall i :: 0 <= i < |ks| && !xs[i].Undefined? ==> r.fields[ks[i]] == xs[i]
  {
    forall i | 0 <= i < |ks|
      ensures (ks[i] in r.fields <==> !xs[i].Undefined?)
      ensures !xs[i].Undefined? ==> r.fields[ks[i]] == xs[i]
    {
      if i > 0 {
        assert ks[i] == ks[1..][i - 1] && xs[i] == xs[1..][i - 1];
      }
    }
  }

  /**
   * `map` over a well-formed object: a plain object with exactly the keys
   * whose callback result is not undefined, in the same order, each holding
   * that result.
   */
  lemma MapObj(o: Value, cb: Callback)
    requires o.Obj? && WfObj(o.keys, o.fields)
    ensures Map(o, cb).Obj? && Map(o, cb).proto == PlainProto
    ensures WfObj(Map(o, cb).keys, Map(o, cb).fields)
    ensures Map(o, cb).keys == DefinedKeys(o.keys, Results(AllVisits(o), cb))
    ensures forall k :: k in Map(o, cb).fields <==> k in o.fields && !cb(Str(k), o.fields[k]).Undefined?
    ensures forall k :: k in Map(o, cb).fields ==> Map(o, cb).fields[k] == cb(Str(k), o.fields[k])
  {
    var ks := o.keys;
    var xs := Results(AllVisits(o), cb);
    MapObjOutcome(o, cb);
    var r := Map(o, cb);
    assert r.keys == [] + DefinedKeys(ks, xs);
    forall k | k in o.fields
      ensures k in r.fields <==> !cb(Str(k), o.fields[k]).Undefined?
      ensures k in r.fields ==> r.fields[k] == cb(Str(k), o.fields[k])
    {
      var i :| 0 <= i < |ks| && ks[i] == k;
      MapResultAt(o, cb, i);
    }
  }

  lemma MapObjOutcome(o: Value, cb: Callback)
    requires o.Obj? && WfObj(o.keys, o.fields)
    ensures FreshOutcome(EmptyObj, o.keys, Results(AllVisits(o), cb), Map(o, cb))
  {
    var vs := AllVisits(o);
    var xs := Results(vs, cb);
    assert vs == ForInVisits(o);
    assert WfObj(EmptyObj.keys, EmptyObj.fields);
    StoreAllFresh(EmptyObj, vs, o.keys, xs);
    assert Map(o, cb) == StoreAll(EmptyObj, vs, xs);
  }

  lemma MapResultAt(o: Value, cb: Callback, i: nat)
    requires o.Obj? && WfObj(o.keys, o.fields) && i < |o.keys|
    ensures o.keys[i] in o.fields
    ensures Results(AllVisits(o), cb)[i] == cb(Str(o.keys[i]), o.fields[o.keys[i]])
  {
    assert AllVisits(o) == ForInVisits(o);
  }

  lemma {:induction false} StoreAllAppend(acc: Value, a: seq<Visit>, b: seq<Visit>, xa: seq<Value>, xb: seq<Value>)
    requires |a| == |xa| && |b| == |xb|
    ensures StoreAll(acc, a + b, xa + xb) == StoreAll(StoreAll(acc, a, xa), b, xb)
    decreases |a|
  {
    if a != [] {
      assert (a + b)[0] == a[0] && (xa + xb)[0] == xa[0];
      assert (a + b)[1..] == a[1..] + b && (xa + xb)[1..] == xa[1..] + xb;
      StoreAllAppend(Store(acc, a[0].key, xa[0]), a[1..], b, xa[1..], xb);
    } else {
      assert a + b == b && xa + xb == xb;
    }
  }

  /** The index loop's stores fill a fresh array in order. */
  lemma {:induction false} IndexStores(e: seq<Value>, xs: seq<Value>, m: nat)
    requires |xs| == |e| && m <= |e|
    ensures StoreAll(Arr(xs[..m]), IndexVisits(e)[m..], xs[m..]) == Arr(xs)
    decreases |e| - m
  {
    if m < |e| {
      ParseIndexOfNatToString(m);
      assert ToJsString(Num(m)) == NatToString(m);
      assert IndexVisits(e)[m..][0].key == Num(m);
      assert ArrSet(xs[..m], m, xs[m]) == xs[..m + 1];
      assert IndexVisits(e)[m..][1..] == IndexVisits(e)[m + 1..];
      assert xs[m..][1..] == xs[m + 1..];
      IndexStores(e, xs, m + 1);
    } else {
      assert xs[..m] == xs;
    }
  }

  lemma OverwriteStep(xs: seq<Value>, ys: seq<Value>, m: nat)
    requires |xs| == |ys| && m < |ys|
    ensures ArrSet(ys[..m] + xs[m..], m, ys[m]) == ys[..m + 1] + xs[m + 1..]
  {
    var a := ys[..m] + xs[m..];
    assert |a| == |ys|;
    assert ArrSet(a, m, ys[m]) == a[m := ys[m]];
    var b := ys[..m + 1] + xs[m + 1..];
    forall j | 0 <= j < |ys| ensures a[m := ys[m]][j] == b[j] {
      if j < m {
        assert a[j] == ys[j] && b[j] == ys[j];
      } else if j > m {
        assert a[j] == xs[j] && b[j] == xs[j];
      }
    }
  }

  /** The `for…in` loop's stores overwrite the array in order. */
  lemma {:induction false} ForInStores(e: seq<Value>, xs: seq<Value>, ys: seq<Value>, m: nat)
    requires |xs| == |e| && |ys| == |e| && m <= |e|
    ensures StoreAll(Arr(ys[..m] + xs[m..]), KeyVisits(e)[m..], ys[m..]) == Arr(ys)
    decreases |e| - m
  {
    if m < |e| {
      ParseIndexOfNatToString(m);
      assert KeyVisits(e)[m..][0].key == Str(NatToString(m));
      OverwriteStep(xs, ys, m);
      assert KeyVisits(e)[m..][1..] == KeyVisits(e)[m + 1..];
      assert ys[m..][1..] == ys[m + 1..];
      ForInStores(e, xs, ys, m + 1);
    } else {
      assert ys[..m] + xs[m..] == ys;
    }
  }

  /**
   * `map` over an array gives an array of the same length and, at each index,
   * the result of the second call for that element (the one keyed by the
   * index as a string); an undefined result leaves a hole.
   */
  lemma MapWithArr(e: seq<Value>, xs: seq<Value>, ys: seq<Value>)
    requires |xs| == |e| && |ys| == |e|
    ensures MapWith(Arr(e), xs + ys) == Arr(ys)
  {
    StoreAllAppend(Arr([]), IndexVisits(e), KeyVisits(e), xs, ys);
    IndexStores(e, xs, 0);
    ForInStores(e, xs, ys, 0);
    assert xs[..0] == [] && xs[0..] == xs && ys[..0] + xs[0..] == xs;
    assert IndexVisits(e)[0..] == IndexVisits(e) && KeyVisits(e)[0..] == KeyVisits(e);
  }

  lemma MapArr(e: seq<Value>, cb: Callback)
    ensures Map(Arr(e), cb) == Arr(seq(|e|, i requires 0 <= i < |e| => cb(Str(NatToString(i)), e[i])))
  {
    var vs := AllVisits(Arr(e));
    var rs := Results(vs, cb);
    var xs := rs[..|e|];
    var ys := rs[|e|..];
    assert rs == xs + ys;
    MapWithArr(e, xs, ys);
    assert ys == seq(|e|, i requires 0 <= i < |e| => cb(Str(NatToString(i)), e[i])) by {
      forall i | 0 <= i < |e| ensures ys[i] == cb(Str(NatToString(i)), e[i]) {
        assert vs[|e| + i] == Visit(Str(NatToString(i)), e[i]);
      }
    }
  }

  lemma {:induction false} DefinedKeysAll(ks: seq<string>, xs: seq<Value>)
    requires |ks| == |xs| && forall i :: 0 <= i < |xs| ==> !xs[i].Undefined?
    ensures DefinedKeys(ks, xs) == ks
  {
    if ks != [] {
      assert forall i :: 0 <= i < |xs[1..]| ==> xs[1..][i] == xs[i + 1];
      DefinedKeysAll(ks[1..], xs[1..]);
    }
  }

  // ------------------------------------------------- plain and transfer form

  /**
   * `toPlainObject()`: a primitive as it is; a model through its own
   * projection; anything else through `map`, converting every value in turn.
   * Only a model is taken to have a truthy `toPlainObject`: a plain object
   * holding a field of that name is mapped like any other.
   */
  function ToPlain(v: Value): (r: Value)
    ensures r.Undefined? <==> v.Undefined?
    ensures !IsObject(v) ==> r == v
    decreases v
  {
    match v
    case Obj(proto, _, fields) =>
      if proto == ModelProto then Model.ToPlainObject(v)
      else
        var ks := OwnKeys(v);
        MapWith(v, seq(|ks|, i requires 0 <= i < |ks| => ToPlain(fields[ks[i]])))
    case Arr(e) =>
      var xs := seq(|e|, i requires 0 <= i < |e| => ToPlain(e[i]));
      MapWith(v, xs + xs)
    case Fun(_) => MapWith(v, [])
    case _ => v
  }

  /**
   * `o.toTransferObject` is truthy: a model inherits the method, and any
   * other object may hold a truthy field of that name.
   */
  predicate HasTransfer(v: Value) {
    IsModel(v) || (v.Obj? && Truthy(Field(v.fields, "toTransferObject")))
  }

  /**
   * `toTransferObject()`: like `toPlainObject`, except that an object whose
   * `toTransferObject` is truthy (a model, above all) becomes undefined, so
   * that `map` drops it from the enclosing object.
   */
  function ToTransfer(v: Value): (r: Value)
    ensures r.Undefined? <==> v.Undefined? || HasTransfer(v)
    ensures !IsObject(v) ==> r == v
    ensures v.Obj? && !IsModel(v) && Truthy(GetProp(v, "toTransferObject").value) ==> r == Undefined
    decreases v
  {
    match v
    case Obj(proto, _, fields) =>
      if HasTransfer(v) then Undefined
      else
        var ks := OwnKeys(v);
        MapWith(v, seq(|ks|, i requires 0 <= i < |ks| => ToTransfer(fields[ks[i]])))
    case Arr(e) =>
      var xs := seq(|e|, i requires 0 <= i < |e| => ToTransfer(e[i]));
      MapWith(v, xs + xs)
    case Fun(_) => MapWith(v, [])
    case _ => v
  }

  /** `toPlainObject` on a non-model object is `map` with the callback `(key, value) => weobj(value).toPlainObject()`. */
  lemma ToPlainIsMap(v: Value, cb: Callback)
    requires IsObject(v) && !IsModel(v)
    requires forall k, x :: cb(k, x) == ToPlain(x)
    ensures ToPlain(v) == Map(v, cb)
  {
    if v.Obj? {
      ToPlainIsMapObj(v, cb);
    } else if v.Arr? {
      ToPlainIsMapArr(v, cb);
    }
  }

  lemma ToPlainIsMapObj(v: Value, cb: Callback)
    requires v.Obj? && !IsModel(v)
    requires forall k, x :: cb(k, x) == ToPlain(x)
    ensures ToPlain(v) == Map(v, cb)
  {
    var ks := OwnKeys(v);
    var xs := seq(|ks|, i requires 0 <= i < |ks| => ToPlain(v.fields[ks[i]]));
    calc {
      Map(v, cb);
      MapWith(v, Results(AllVisits(v), cb));
      { assert AllVisits(v) == ForInVisits(v);
        assert Results(AllVisits(v), cb) == xs; }
      MapWith(v, xs);
      ToPlain(v);
    }
  }

  lemma ToPlainIsMapArr(v: Value, cb: Callback)
    requires v.Arr?
    requires forall k, x :: cb(k, x) == ToPlain(x)
    ensures ToPlain(v) == Map(v, cb)
  {
    var e := v.elems;
    var t := AllVisits(v);
    var xs := seq(|e|, i requires 0 <= i < |e| => ToPlain(e[i]));
    assert Results(t, cb) == xs + xs by {
      assert t == IndexVisits(e) + KeyVisits(e);
      forall i | 0 <= i < |t| ensures Results(t, cb)[i] == (xs + xs)[i] {
        if i >= |e| {
          assert t[i] == KeyVisits(e)[i - |e|];
        }
      }
    }
    assert ToPlain(v) == MapWith(v, xs + xs);
  }

  /** `toTransferObject` on a non-model object is `map` with the callback `(key, value) => weobj(value).toTransferObject()`. */
  lemma ToTransferIsMap(v: Value, cb: Callback)
    requires IsObject(v) && !HasTransfer(v)
    requires forall k, x :: cb(k, x) == ToTransfer(x)
    ensures ToTransfer(v) == Map(v, cb)
  {
    if v.Obj? {
      ToTransferIsMapObj(v, cb);
    } else if v.Arr? {
      ToTransferIsMapArr(v, cb);
    }
  }

  lemma ToTransferIsMapObj(v: Value, cb: Callback)
    requires v.Obj? && !HasTransfer(v)
    requires forall k, x :: cb(k, x) == ToTransfer(x)
    ensures ToTransfer(v) == Map(v, cb)
  {
    var ks := OwnKeys(v);
    var xs := seq(|ks|, i requires 0 <= i < |ks| => ToTransfer(v.fields[ks[i]]));
    calc {
      Map(v, cb);
      MapWith(v, Results(AllVisits(v), cb));
      { assert AllVisits(v) == ForInVisits(v);
        assert Results(AllVisits(v), cb) == xs; }
      MapWith(v, xs);
      ToTransfer(v);
    }
  }

  lemma ToTransferIsMapArr(v: Value, cb: Callback)
    requires v.Arr?
    requires forall k, x :: cb(k, x) == ToTransfer(x)
    ensures ToTransfer(v) == Map(v, cb)
  {
    var e := v.elems;
    var t := AllVisits(v);
    var xs := seq(|e|, i requires 0 <= i < |e| => ToTransfer(e[i]));
    assert Results(t, cb) == xs + xs by {
      assert t == IndexVisits(e) + KeyVisits(e);
      forall i | 0 <= i < |t| ensures Results(t, cb)[i] == (xs + xs)[i] {
        if i >= |e| {
          assert t[i] == KeyVisits(e)[i - |e|];
        }
      }
    }
    assert ToTransfer(v) == MapWith(v, xs + xs);
  }

  /**
   * The plain form of a well-formed non-model object: the keys whose value is
   * not undefined, in order, each holding the plain form of its value.
   */
  lemma ToPlainObj(v: Value)
    requires v.Obj? && !IsModel(v) && WfObj(v.keys, v.fields)
    ensures ToPlain(v).Obj? && ToPlain(v).proto == PlainProto
    ensures forall k :: k in ToPlain(v).fields <==> k in v.fields && !v.fields[k].Undefined?
    ensures forall k :: k in ToPlain(v).fields ==> ToPlain(v).fields[k] == ToPlain(v.fields[k])
  {
    var cb: Callback := (k, x) => ToPlain(x);
    ToPlainIsMap(v, cb);
    MapObj(v, cb);
  }

  /**
   * The transfer form of a well-formed non-model object: the keys whose value
   * is neither undefined nor a model, in order, each holding the transfer
   * form of its value.
   */
  lemma ToTransferObj(v: Value)
    requires v.Obj? && !HasTransfer(v) && WfObj(v.keys, v.fields)
    ensures ToTransfer(v).Obj? && ToTransfer(v).proto == PlainProto
    ensures forall k :: k in ToTransfer(v).fields <==>
      k in v.fields && !v.fields[k].Undefined? && !HasTransfer(v.fields[k])
    ensures forall k :: k in ToTransfer(v).fields ==> ToTransfer(v).fields[k] == ToTransfer(v.fields[k])
  {
    var cb: Callback := (k, x) => ToTransfer(x);
    ToTransferIsMap(v, cb);
    MapObj(v, cb);
  }

  /** Both forms of an array convert it element by element, keeping its length. */
  lemma ToPlainArr(e: seq<Value>)
    ensures ToPlain(Arr(e)) == Arr(seq(|e|, i requires 0 <= i < |e| => ToPlain(e[i])))
    ensures ToTransfer(Arr(e)) == Arr(seq(|e|, i requires 0 <= i < |e| => ToTransfer(e[i])))
  {
    var xs := seq(|e|, i requires 0 <= i < |e| => ToPlain(e[i]));
    MapWithArr(e, xs, xs);
    var ys := seq(|e|, i requires 0 <= i < |e| => ToTransfer(e[i]));
    MapWithArr(e, ys, ys);
  }

  /**
   * Data as `JSON.parse` could produce it: no functions, models or undefined
   * fields, and no object with a truthy field `toTransferObject`.
   */
  ghost predicate PlainData(v: Value) {
    match v
    case Fun(_) => false
    case Obj(proto, keys, fields) =>
      proto == PlainProto && WfObj(keys, fields) && !Truthy(Field(fields, "toTransferObject")) &&
      forall k :: k in fields ==> !fields[k].Undefined? && PlainData(fields[k])
    case Arr(e) => forall i :: 0 <= i < |e| ==> PlainData(e[i])
    case _ => true
  }

  /** Plain data is its own plain form and its own transfer form. */
  lemma {:induction false} PlainDataUnchanged(v: Value)
    requires PlainData(v)
    ensures ToPlain(v) == v && ToTransfer(v) == v
    decreases v
  {
    match v
    case Obj(_, keys, fields) =>
      forall k | k in fields ensures ToPlain(fields[k]) == fields[k] && ToTransfer(fields[k]) == fields[k] {
        PlainDataUnchanged(fields[k]);
      }
      PlainObjUnchanged(v);
    case Arr(e) =>
      forall i | 0 <= i < |e| ensures ToPlain(e[i]) == e[i] && ToTransfer(e[i]) == e[i] {
        PlainDataUnchanged(e[i]);
      }
      ToPlainArr(e);
      assert seq(|e|, i requires 0 <= i < |e| => ToPlain(e[i])) == e;
      assert seq(|e|, i requires 0 <= i < |e| => ToTransfer(e[i])) == e;
    case _ =>
  }

  lemma PlainObjUnchanged(v: Value)
    requires v.Obj? && v.proto == PlainProto && WfObj(v.keys, v.fields) && !HasTransfer(v)
    requires forall k :: k in v.fields ==> !v.fields[k].Undefined? && !IsModel(v.fields[k])
    requires forall k :: k in v.fields ==> ToPlain(v.fields[k]) == v.fields[k] && ToTransfer(v.fields[k]) == v.fields[k]
    ensures ToPlain(v) == v && ToTransfer(v) == v
  {
    PlainObjUnchangedBy(v, (k, x) => ToPlain(x));
    ToPlainIsMap(v, (k, x) => ToPlain(x));
    PlainObjUnchangedBy(v, (k, x) => ToTransfer(x));
    ToTransferIsMap(v, (k, x) => ToTransfer(x));
  }

  lemma PlainObjUnchangedBy(v: Value, cb: Callback)
    requires v.Obj? && v.proto == PlainProto && WfObj(v.keys, v.fields)
    requires forall k :: k in v.fields ==> cb(Str(k), v.fields[k]) == v.fields[k] && !v.fields[k].Undefined?
    ensures Map(v, cb) == v
  {
    var r := Map(v, cb);
    assert r.Obj? && r.proto == v.proto by {
      MapObj(v, cb);
    }
    assert r.keys == v.keys by {
      var rp := Results(AllVisits(v), cb);
      forall i | 0 <= i < |rp| ensures !rp[i].Undefined? {
        MapResultAt(v, cb, i);
      }
      DefinedKeysAll(v.keys, rp);
      MapObj(v, cb);
    }
    assert r.fields == v.fields by {
      MapObj(v, cb);
    }
  }

  // ------------------------------------------------------- getValue / setValue

  /** The lookups of `getValue`: one per key, ending early at the first undefined or null. */
  function Walk(o: Value, ks: seq<string>): (r: Result<Value>)
    ensures r.Raise? ==> r == Raise(TypeError)
    ensures ks == [] ==> r == Ok(o)
    ensures ks != [] && IsNullish(o) ==> r == Raise(TypeError)
    decreases |ks|
  {
    if ks == [] then Ok(o)
    else
      match GetProp(o, ks[0])
      case Raise(x) => Raise(x)
      case Ok(c) => if IsNullish(c) then Ok(c) else Walk(c, ks[1..])
  }

  /** `getValue(path)`: the cursor loop over the dot-separated keys. */
  method GetValue(o: Value, path: string) returns (r: Result<Value>)
    ensures r == Walk(o, Split(path, '.'))
  {
    var keys := Split(path, '.');
    var obj := o;
    var i := 0;
    while i < |keys|
      invariant 0 <= i <= |keys|
      invariant Walk(o, keys) == Walk(obj, keys[i..])
    {
      assert keys[i..][1..] == keys[i + 1..];
      match GetProp(obj, keys[i])
      case Raise(x) =>
        return Raise(x);
      case Ok(c) =>
        obj := c;
        i := i + 1;
        if IsNullish(c) {
          return Ok(c);
        }
    }
    return Ok(obj);
  }

  /** `getValue` raises (reading a key of undefined or null) exactly when `o` itself is undefined or null. */
  lemma {:induction false} WalkRaisesIff(o: Value, ks: seq<string>)
    requires ks != []
    ensures Walk(o, ks).Raise? <==> IsNullish(o)
    ensures Walk(o, ks).Raise? ==> Walk(o, ks).exc == TypeError
    decreases |ks|
  {
    if !IsNullish(o) && |ks| > 1 {
      var c := GetProp(o, ks[0]).value;
      if !IsNullish(c) {
        WalkRaisesIff(c, ks[1..]);
      }
    }
  }

  /**
   * Looking up `a + b` is looking up `a` and then `b` from where that ended,
   * except that a lookup which reached undefined or null stops there and
   * returns it.
   */
  lemma {:induction false} WalkAppend(o: Value, a: seq<string>, b: seq<string>)
    requires Walk(o, a).Ok?
    ensures Walk(o, a + b) ==
      if a != [] && IsNullish(Walk(o, a).value) then Walk(o, a) else Walk(Walk(o, a).value, b)
    decreases |a|
  {
    if a == [] {
      assert a + b == b;
    } else {
      assert (a + b)[0] == a[0] && (a + b)[1..] == a[1..] + b;
      var c := GetProp(o, a[0]).value;
      if !IsNullish(c) {
        WalkAppend(c, a[1..], b);
      }
    }
  }

  /**
   * The writes of `setValue(path, value)`: each missing or null intermediate
   * key is set to `{}`, the cursor moves into it, and the last key receives
   * `value`. Writes made through the cursor are written back into the
   * object that holds it.
   */
  function SetPath(o: Value, ks: seq<string>, v: Value): (r: Result<Value>)
    requires ks != []
    ensures r.Ok? && o.Obj? ==> r.value.Obj? && r.value.proto == o.proto
    decreases |ks|
  {
    if |ks| == 1 then PutProp(o, ks[0], v)
    else
      match GetProp(o, ks[0])
      case Raise(x) => Raise(x)
      case Ok(c) =>
        var o1 := if IsNullish(c) then PutProp(o, ks[0], EmptyObj).value else o;
        var child := GetProp(o1, ks[0]).value;
        match SetPath(child, ks[1..], v)
        case Raise(x) => Raise(x)
        case Ok(c1) => PutProp(o1, ks[0], c1)
  }

  /** `setValue(path, value)` */
  function SetValue(o: Value, path: string, v: Value): (r: Result<Value>)
    ensures Writable(o, Split(path, '.')) ==> r.Ok? && Walk(r.value, Split(path, '.')) == Ok(v)
  {
    WritableThenGet(o, Split(path, '.'), v);
    SetPath(o, Split(path, '.'), v)
  }

  lemma WritableThenGet(o: Value, ks: seq<string>, v: Value)
    ensures Writable(o, ks) ==> SetPath(o, ks, v).Ok? && Walk(SetPath(o, ks, v).value, ks) == Ok(v)
  {
    if Writable(o, ks) {
      SetThenGet(o, ks, v);
    }
  }

  /** Every key on the way is absent, null, or an object that the rest of the path can be written into. */
  ghost predicate Writable(o: Value, ks: seq<string>)
    decreases |ks|
  {
    o.Obj? && ks != [] &&
    (|ks| > 1 ==>
      var c := Field(o.fields, ks[0]);
      IsNullish(c) || Writable(c, ks[1..]))
  }

  /** After `setValue(path, v)` on a writable path, `getValue(path)` returns `v`. */
  lemma {:induction false} SetThenGet(o: Value, ks: seq<string>, v: Value)
    requires Writable(o, ks)
    ensures SetPath(o, ks, v).Ok?
    ensures Walk(SetPath(o, ks, v).value, ks) == Ok(v)
    decreases |ks|
  {
    if |ks| > 1 {
      var c := Field(o.fields, ks[0]);
      var o1 := if IsNullish(c) then ObjPut(o, ks[0], EmptyObj) else o;
      var child := Field(o1.fields, ks[0]);
      assert Writable(child, ks[1..]);
      SetThenGet(child, ks[1..], v);
      var c1 := SetPath(child, ks[1..], v).value;
      assert SetPath(o, ks, v) == Ok(ObjPut(o1, ks[0], c1));
    }
  }

  lemma SetValueThenGetValue(o: Value, path: string, v: Value)
    requires Writable(o, Split(path, '.'))
    ensures SetValue(o, path, v).Ok?
    ensures Walk(SetValue(o, path, v).value, Split(path, '.')) == Ok(v)
  {
    SetThenGet(o, Split(path, '.'), v);
  }

  /**
   * `setValue` on an object changes only the first key of the path; when that
   * key held undefined or null and the path goes on, it now holds a fresh
   * object into which the rest of the path was written.
   */
  lemma SetPathSiblings(o: Value, ks: seq<string>, v: Value)
    requires o.Obj? && ks != [] && SetPath(o, ks, v).Ok?
    ensures forall k :: k != ks[0] ==> Field(SetPath(o, ks, v).value.fields, k) == Field(o.fields, k)
    ensures |ks| > 1 && IsNullish(Field(o.fields, ks[0])) ==>
      SetPath(EmptyObj, ks[1..], v).Ok? &&
      Field(SetPath(o, ks, v).value.fields, ks[0]) == SetPath(EmptyObj, ks[1..], v).value
  {
  }

  // --------------------------------------------------------------- extend

  /**
   * `weobj(o).extend(src)` with one argument: an array is taken as its items
   * in turn, an object is merged key by key, anything else changes nothing.
   */
  function ExtendOne(o: Value, src: Value): (r: Result<Value>)
    ensures !src.Arr? && !src.Obj? ==> r == Ok(o)
    decreases src, 2, 0
  {
    if src.Arr? then ExtendItems(o, src, 0)
    else if src.Obj? then MergeKeys(o, src, OwnKeys(src))
    else Ok(o)
  }

  function ExtendItems(o: Value, src: Value, i: nat): Result<Value>
    requires src.Arr? && i <= |src.elems|
    decreases src, 1, |src.elems| - i
  {
    if i == |src.elems| then Ok(o)
    else
      match ExtendOne(o, src.elems[i])
      case Raise(x) => Raise(x)
      case Ok(o1) => ExtendItems(o1, src, i + 1)
  }

  /**
   * The merge callback over the keys of `src`: when the target's value and
   * the source's value are both non-array objects the source is merged into
   * the target's value, otherwise the source's value overwrites it.
   */
  function MergeKeys(o: Value, src: Value, ks: seq<string>): Result<Value>
    requires src.Obj? && forall k :: k in ks ==> k in src.fields
    decreases src, 0, |ks|
  {
    if ks == [] then Ok(o)
    else
      var v := src.fields[ks[0]];
      match GetProp(o, ks[0])
      case Raise(x) => Raise(x)
      case Ok(cur) =>
        var step :=
          if IsRecord(cur) && IsRecord(v) then
            (match ExtendOne(cur, v)
             case Raise(x) => Raise(x)
             case Ok(merged) => PutProp(o, ks[0], merged))
          else PutProp(o, ks[0], v);
        match step
        case Raise(x) => Raise(x)
        case Ok(o1) => MergeKeys(o1, src, ks[1..])
  }

  /** `weobj(o).extend(a1, a2, …)`: each argument in turn. */
  function Extend(o: Value, args: seq<Value>): (r: Result<Value>)
    ensures args == [] ==> r == Ok(o)
    decreases |args|
  {
    if args == [] then Ok(o)
    else
      match ExtendOne(o, args[0])
      case Raise(x) => Raise(x)
      case Ok(o1) => Extend(o1, args[1..])
  }

  /** `weobj.extend(a1, a2, …)`: the arguments merged into a fresh object. */
  function StaticExtend(args: seq<Value>): (r: Result<Value>)
    ensures r.Ok? && r.value.Obj? && r.value.proto == PlainProto
    ensures args == [] ==> r == Ok(EmptyObj)
  {
    ExtendArgsOk(EmptyObj, args);
    Extend(EmptyObj, args)
  }

  /** `a` and `b` are alike as far as merging goes: same kind, same prototype; a merge leaves a primitive as it is. */
  predicate SameShape(a: Value, b: Value) {
    (a.Obj? && b.Obj? && a.proto == b.proto) || (a.Arr? && b.Arr?) || (!a.Obj? && !a.Arr? && a == b)
  }

  /** Merging into anything but undefined or null never raises, and keeps the target's kind. */
  lemma {:induction false} ExtendOneOk(o: Value, src: Value)
    requires !IsNullish(o)
    ensures ExtendOne(o, src).Ok? && SameShape(o, ExtendOne(o, src).value)
    decreases src, 2, 0
  {
    if src.Arr? {
      ExtendItemsOk(o, src, 0);
    } else if src.Obj? {
      MergeKeysOk(o, src, OwnKeys(src));
    }
  }

  lemma {:induction false} ExtendItemsOk(o: Value, src: Value, i: nat)
    requires !IsNullish(o) && src.Arr? && i <= |src.elems|
    ensures ExtendItems(o, src, i).Ok? && SameShape(o, ExtendItems(o, src, i).value)
    decreases src, 1, |src.elems| - i
  {
    if i < |src.elems| {
      ExtendOneOk(o, src.elems[i]);
      var o1 := ExtendOne(o, src.elems[i]).value;
      ExtendItemsOk(o1, src, i + 1);
    }
  }

  lemma {:induction false} MergeKeysOk(o: Value, src: Value, ks: seq<string>)
    requires !IsNullish(o) && src.Obj? && forall k :: k in ks ==> k in src.fields
    ensures MergeKeys(o, src, ks).Ok? && SameShape(o, MergeKeys(o, src, ks).value)
    decreases src, 0, |ks|
  {
    if ks != [] {
      var v := src.fields[ks[0]];
      var cur := GetProp(o, ks[0]).value;
      if IsRecord(cur) && IsRecord(v) {
        ExtendOneOk(cur, v);
      }
      var o1 := MergeStep(o, ks[0], cur, v);
      MergeKeysOk(o1, src, ks[1..]);
    }
  }

  /** The value of `o` after the merge callback for one key (the target never raises here). */
  function MergeStep(o: Value, k: string, cur: Value, v: Value): (r: Value)
    requires !IsNullish(o)
    requires IsRecord(cur) && IsRecord(v) ==> ExtendOne(cur, v).Ok?
    ensures SameShape(o, r)
  {
    if IsRecord(cur) && IsRecord(v) then PutProp(o, k, ExtendOne(cur, v).value).value
    else PutProp(o, k, v).value
  }

  /** `weobj.extend` always succeeds and yields a plain object. */
  lemma StaticExtendOk(args: seq<Value>)
    ensures StaticExtend(args).Ok? && StaticExtend(args).value.Obj?
    ensures StaticExtend(args).value.proto == PlainProto
  {
    ExtendArgsOk(EmptyObj, args);
  }

  lemma {:induction false} ExtendArgsOk(o: Value, args: seq<Value>)
    requires !IsNullish(o)
    ensures Extend(o, args).Ok? && SameShape(o, Extend(o, args).value)
    decreases |args|
  {
    if args != [] {
      ExtendOneOk(o, args[0]);
      ExtendArgsOk(ExtendOne(o, args[0]).value, args[1..]);
    }
  }

  /** Merging keeps a well-formed target well formed: its key list still names exactly its fields, once each. */
  lemma {:induction false} ExtendOneWf(o: Value, src: Value)
    requires !IsNullish(o) && Wf(o)
    ensures ExtendOne(o, src).Ok? && Wf(ExtendOne(o, src).value)
    decreases src, 2, 0
  {
    ExtendOneOk(o, src);
    if src.Arr? {
      ExtendItemsWf(o, src, 0);
    } else if src.Obj? {
      MergeKeysWf(o, src, OwnKeys(src));
    }
  }

  lemma {:induction false} ExtendItemsWf(o: Value, src: Value, i: nat)
    requires !IsNullish(o) && Wf(o) && src.Arr? && i <= |src.elems|
    ensures ExtendItems(o, src, i).Ok? && Wf(ExtendItems(o, src, i).value)
    decreases src, 1, |src.elems| - i
  {
    if i < |src.elems| {
      ExtendOneWf(o, src.elems[i]);
      ExtendOneOk(o, src.elems[i]);
      var o1 := ExtendOne(o, src.elems[i]).value;
      ExtendItemsWf(o1, src, i + 1);
    }
  }

  lemma {:induction false} MergeKeysWf(o: Value, src: Value, ks: seq<string>)
    requires !IsNullish(o) && Wf(o) && src.Obj? && forall k :: k in ks ==> k in src.fields
    ensures MergeKeys(o, src, ks).Ok? && Wf(MergeKeys(o, src, ks).value)
    decreases |ks|
  {
    MergeKeysOk(o, src, ks);
    if ks != [] {
      var v := src.fields[ks[0]];
      var cur := GetProp(o, ks[0]).value;
      if IsRecord(cur) && IsRecord(v) {
        ExtendOneOk(cur, v);
      }
      var o1 := MergeStep(o, ks[0], cur, v);
      assert Wf(o1);
      MergeKeysWf(o1, src, ks[1..]);
    }
  }

  /** `weobj.extend` yields a well-formed object. */
  lemma {:induction false} ExtendArgsWf(o: Value, args: seq<Value>)
    requires !IsNullish(o) && Wf(o)
    ensures Extend(o, args).Ok? && Wf(Extend(o, args).value)
    decreases |args|
  {
    if args != [] {
      ExtendOneWf(o, args[0]);
      ExtendOneOk(o, args[0]);
      ExtendArgsWf(ExtendOne(o, args[0]).value, args[1..]);
    }
  }

  /** An array argument is the same as passing its items as arguments, left to right. */
  lemma ExtendArrayIsItems(o: Value, e: seq<Value>)
    ensures ExtendOne(o, Arr(e)) == Extend(o, e)
  {
    ItemsAreArgs(o, Arr(e), 0);
    assert e[0..] == e;
  }

  lemma {:induction false} ItemsAreArgs(o: Value, src: Value, i: nat)
    requires src.Arr? && i <= |src.elems|
    ensures ExtendItems(o, src, i) == Extend(o, src.elems[i..])
    decreases |src.elems| - i
  {
    if i < |src.elems| {
      assert src.elems[i..][0] == src.elems[i] && src.elems[i..][1..] == src.elems[i + 1..];
      match ExtendOne(o, src.elems[i])
      case Raise(x) =>
      case Ok(o1) => ItemsAreArgs(o1, src, i + 1);
    }
  }

  /** What the merge leaves under key `k` of a target that held `cur` there. */
  function Merged(cur: Value, v: Value): Value {
    if IsRecord(cur) && IsRecord(v) && ExtendOne(cur, v).Ok? then ExtendOne(cur, v).value else v
  }

  /**
   * Merging an object into an object: every key of the source now holds the
   * merge of the two values when both are non-array objects, otherwise the
   * source's value; every other key is unchanged.
   */
  lemma MergeRule(o: Value, src: Value)
    requires o.Obj? && src.Obj? && WfObj(src.keys, src.fields)
    ensures ExtendOne(o, src).Ok? && ExtendOne(o, src).value.Obj?
    ensures forall k :: k in src.fields ==>
      Field(ExtendOne(o, src).value.fields, k) == Merged(Field(o.fields, k), src.fields[k])
    ensures forall k :: k !in src.fields ==>
      Field(ExtendOne(o, src).value.fields, k) == Field(o.fields, k)
  {
    ExtendOneOk(o, src);
    MergeKeysFields(o, src, src.keys);
  }

  lemma {:induction false} MergeKeysFields(o: Value, src: Value, ks: seq<string>)
    requires o.Obj? && src.Obj? && Distinct(ks) && forall k :: k in ks ==> k in src.fields
    ensures MergeKeys(o, src, ks).Ok? && MergeKeys(o, src, ks).value.Obj?
    ensures forall k :: k in ks ==>
      Field(MergeKeys(o, src, ks).value.fields, k) == Merged(Field(o.fields, k), src.fields[k])
    ensures forall k :: k !in ks ==> Field(MergeKeys(o, src, ks).value.fields, k) == Field(o.fields, k)
    decreases |ks|
  {
    MergeKeysOk(o, src, ks);
    if ks != [] {
      var k0 := ks[0];
      var v := src.fields[k0];
      var cur := Field(o.fields, k0);
      if IsRecord(cur) && IsRecord(v) {
        ExtendOneOk(cur, v);
      }
      var o1 := MergeStep(o, k0, cur, v);
      assert o1 == ObjPut(o, k0, Merged(cur, v));
      DistinctTail(ks);
      MergeKeysFields(o1, src, ks[1..]);
      assert MergeKeys(o, src, ks) == MergeKeys(o1, src, ks[1..]);
    }
  }

  // --------------------------------------------------------- toRichObject

  /**
   * `new typeDesc(o, key)`: what the class a function descriptor names builds,
   * or the exception its constructor raises (a `Model` subclass runs
   * `toRichObject` itself, see `ModelNew`), left abstract.
   */
  type Ctor = (nat, Value, Value) -> Result<Value>

  /** The first exception among the results, in order, or all the values. */
  function AllOk(rs: seq<Result<Value>>): (r: Result<seq<Value>>)
    ensures r.Ok? <==> forall i :: 0 <= i < |rs| ==> rs[i].Ok?
    ensures r.Ok? ==> |r.value| == |rs| && forall i :: 0 <= i < |rs| ==> rs[i] == Ok(r.value[i])
    ensures r.Raise? ==> exists i :: 0 <= i < |rs| && rs[i] == Raise(r.exc) && forall j :: 0 <= j < i ==> rs[j].Ok?
  {
    if rs == [] then Ok([])
    else
      match rs[0]
      case Raise(x) => Raise(x)
      case Ok(v) =>
        var rest := AllOk(rs[1..]);
        assert forall i :: 0 < i < |rs| ==> rs[i] == rs[1..][i - 1];
        match rest
        case Raise(x) =>
          var j :| 0 <= j < |rs[1..]| && rs[1..][j] == Raise(x) && forall m :: 0 <= m < j ==> rs[1..][m].Ok?;
          assert rs[j + 1] == Raise(x);
          Raise(x)
        case Ok(vs) => Ok([v] + vs)
  }

  /**
   * The descriptor for data key `k`: `typeDesc[k]` when truthy, otherwise
   * `typeDesc['*']`; of an array descriptor its element 0.
   */
  function FieldDesc(desc: Value, k: string): Value
    requires !IsNullish(desc)
  {
    var d0 := GetProp(desc, k).value;
    var d := if Truthy(d0) then d0 else GetProp(desc, "*").value;
    if d.Arr? then GetProp(d, "0").value else d
  }

  /**
   * The default a descriptor entry supplies for a key the data lacks: a
   * non-object descriptor itself, an array descriptor its element 1, nothing
   * for another object (or for the key `'*'`, or a key the data had).
   */
  function Default(v: Visit, found: set<string>): Option<Value> {
    if v.key == Str("*") || ToJsString(v.key) in found then None
    else if !IsObject(v.value) then Some(v.value)
    else if v.value.Arr? then Some(GetProp(v.value, "1").value)
    else None
  }

  /** The second pass of `toRichObject`: `obj[key] = …` for every default the descriptor supplies. */
  function FillDefaults(obj: Value, vs: seq<Visit>, found: set<string>): Result<Value>
    decreases |vs|
  {
    if vs == [] then Ok(obj)
    else
      var step :=
        match Default(vs[0], found)
        case None => Ok(obj)
        case Some(d) => PutProp(obj, ToJsString(vs[0].key), d);
      match step
      case Raise(x) => Raise(x)
      case Ok(obj1) => FillDefaults(obj1, vs[1..], found)
  }

  /**
   * `toRichObject(typeDesc, key)`: data against a type descriptor. A
   * non-object descriptor leaves the data as it is; an array is converted
   * element by element; a function descriptor is a class to construct;
   * otherwise every data key is converted against its own descriptor and the
   * descriptor's defaults fill the keys the data lacks.
   */
  function ToRich(o: Value, desc: Value, key: Value, ctor: Ctor): (r: Result<Value>)
    ensures !IsObject(desc) ==> r == Ok(o)
    ensures desc.Fun? && !o.Arr? ==> r == ctor(desc.id, o, key)
    decreases o, 1
  {
    if !IsObject(desc) then Ok(o)
    else if o.Arr? then
      match AllOk(ElemResults(o, desc, ctor))
      case Raise(x) => Raise(x)
      case Ok(xs) => Ok(MapWith(o, xs))
    else if desc.Fun? then ctor(desc.id, o, key)
    else if o.Obj? then
      match AllOk(FieldResults(o, desc, ctor))
      case Raise(x) => Raise(x)
      case Ok(xs) => FillDefaults(MapWith(o, xs), AllVisits(desc), KeySet(o))
    else
      FillDefaults(if o.Fun? then MapWith(o, []) else Undefined, AllVisits(desc), {})
  }

  /**
   * A function descriptor over non-array data yields exactly what its class's
   * constructor yields, an exception included; a field whose conversion
   * raises makes the whole object's conversion raise (`ToRichObjPasses`).
   */
  lemma ToRichCtor(o: Value, desc: Value, key: Value, ctor: Ctor)
    requires desc.Fun? && !o.Arr?
    ensures ToRich(o, desc, key, ctor) == ctor(desc.id, o, key)
  {
  }

  /** The conversions `map` makes over an array: each element under its index, then under the index as a string. */
  function ElemResults(o: Value, desc: Value, ctor: Ctor): (r: seq<Result<Value>>)
    requires o.Arr?
    ensures |r| == 2 * |o.elems|
    decreases o, 0
  {
    var e := o.elems;
    seq(|e|, i requires 0 <= i < |e| => ToRich(e[i], desc, Num(i), ctor))
      + seq(|e|, i requires 0 <= i < |e| => ToRich(e[i], desc, Str(NatToString(i)), ctor))
  }

  /** The conversions `map` makes over an object: each own key against its descriptor. */
  function FieldResults(o: Value, desc: Value, ctor: Ctor): (r: seq<Result<Value>>)
    requires o.Obj? && !IsNullish(desc)
    ensures |r| == |OwnKeys(o)|
    decreases o, 0
  {
    var ks := OwnKeys(o);
    seq(|ks|, i requires 0 <= i < |ks| => ToRich(o.fields[ks[i]], FieldDesc(desc, ks[i]), Str(ks[i]), ctor))
  }

  /** `keyFound`: the keys the first pass visited. */
  function KeySet(o: Value): set<string>
    requires o.Obj?
  {
    set k | k in OwnKeys(o)
  }

  /** Filling defaults into an object always succeeds; it sets exactly the supplied defaults. */
  lemma {:induction false} FillDefaultsFields(obj: Value, vs: seq<Visit>, ks: seq<string>, found: set<string>)
    requires obj.Obj? && |vs| == |ks| && Distinct(ks)
    requires forall i :: 0 <= i < |vs| ==> vs[i].key == Str(ks[i])
    ensures FillDefaults(obj, vs, found).Ok? && FillDefaults(obj, vs, found).value.Obj?
    ensures forall i :: 0 <= i < |ks| && Default(vs[i], found).Some? ==>
      ks[i] in FillDefaults(obj, vs, found).value.fields &&
      FillDefaults(obj, vs, found).value.fields[ks[i]] == Default(vs[i], found).value
    ensures forall i :: 0 <= i < |ks| && Default(vs[i], found).None? ==>
      (ks[i] in FillDefaults(obj, vs, found).value.fields <==> ks[i] in obj.fields) &&
      Field(FillDefaults(obj, vs, found).value.fields, ks[i]) == Field(obj.fields, ks[i])
    ensures forall k :: k !in ks ==>
      (k in FillDefaults(obj, vs, found).value.fields <==> k in obj.fields) &&
      Field(FillDefaults(obj, vs, found).value.fields, k) == Field(obj.fields, k)
    decreases |vs|
  {
    if vs != [] {
      var obj1 := match Default(vs[0], found)
        case None => obj
        case Some(d) => ObjPut(obj, ks[0], d);
      assert ToJsString(vs[0].key) == ks[0];
      assert FillDefaults(obj, vs, found) == FillDefaults(obj1, vs[1..], found);
      DistinctTail(ks);
      forall i | 0 <= i < |vs[1..]| ensures vs[1..][i].key == Str(ks[1..][i]) {
        assert vs[1..][i] == vs[i + 1] && ks[1..][i] == ks[i + 1];
      }
      FillDefaultsFields(obj1, vs[1..], ks[1..], found);
      var r := FillDefaults(obj1, vs[1..], found).value;
      forall i | 0 <= i < |ks|
        ensures Default(vs[i], found).Some? ==> ks[i] in r.fields && r.fields[ks[i]] == Default(vs[i], found).value
        ensures Default(vs[i], found).None? ==>
          (ks[i] in r.fields <==> ks[i] in obj.fields) && Field(r.fields, ks[i]) == Field(obj.fields, ks[i])
      {
        if i > 0 {
          assert vs[i] == vs[1..][i - 1] && ks[i] == ks[1..][i - 1];
        }
      }
    }
  }

  /** Filling defaults into undefined raises exactly when some default is supplied. */
  lemma {:induction false} FillUndefined(vs: seq<Visit>)
    ensures FillDefaults(Undefined, vs, {}).Raise? <==> exists i :: 0 <= i < |vs| && Default(vs[i], {}).Some?
    ensures FillDefaults(Undefined, vs, {}).Ok? ==> FillDefaults(Undefined, vs, {}).value == Undefined
    decreases |vs|
  {
    if vs != [] {
      FillUndefined(vs[1..]);
      if Default(vs[0], {}).None? {
        assert forall i :: 0 < i < |vs| ==> vs[i] == vs[1..][i - 1];
        if exists i :: 0 <= i < |vs| && Default(vs[i], {}).Some? {
          var i :| 0 <= i < |vs| && Default(vs[i], {}).Some?;
          assert i > 0 && Default(vs[1..][i - 1], {}).Some?;
        }
      }
    }
  }

  /**
   * Converting undefined, null or another primitive against an object
   * descriptor fails (`undefined[key] = …`) exactly when the descriptor
   * supplies some default; otherwise the result is undefined.
   */
  lemma ToRichPrimitive(o: Value, desc: Value, key: Value, ctor: Ctor)
    requires !IsObject(o) && desc.Obj?
    ensures ToRich(o, desc, key, ctor).Raise? <==>
      exists i :: 0 <= i < |AllVisits(desc)| && Default(AllVisits(desc)[i], {}).Some?
    ensures ToRich(o, desc, key, ctor).Ok? ==> ToRich(o, desc, key, ctor).value == Undefined
  {
    FillUndefined(AllVisits(desc));
  }

  /** The object the first pass builds, for a well-formed object whose keys all convert. */
  lemma FirstPass(o: Value, xs: seq<Value>)
    requires o.Obj? && WfObj(o.keys, o.fields) && |xs| == |o.keys|
    ensures MapWith(o, xs).Obj?
    ensures forall i :: 0 <= i < |o.keys| ==>
      (o.keys[i] in MapWith(o, xs).fields <==> !xs[i].Undefined?) &&
      Field(MapWith(o, xs).fields, o.keys[i]) == xs[i]
    ensures forall k :: k in MapWith(o, xs).fields ==> k in o.fields
  {
    assert AllVisits(o) == ForInVisits(o);
    assert WfObj(EmptyObj.keys, EmptyObj.fields);
    StoreAllFresh(EmptyObj, AllVisits(o), o.keys, xs);
  }

  /**
   * Converting a well-formed object against a well-formed object descriptor
   * whose keys all convert needs only the two passes: `map` over the data,
   * then the defaults.
   */
  lemma ToRichObjPasses(o: Value, desc: Value, key: Value, ctor: Ctor)
    requires o.Obj? && WfObj(o.keys, o.fields) && desc.Obj? && WfObj(desc.keys, desc.fields)
    requires ToRich(o, desc, key, ctor).Ok?
    ensures AllOk(FieldResults(o, desc, ctor)).Ok?
    ensures ToRich(o, desc, key, ctor) ==
      FillDefaults(MapWith(o, AllOk(FieldResults(o, desc, ctor)).value), ForInVisits(desc), KeySet(o))
    ensures forall k :: k in o.fields ==> ToRich(o.fields[k], FieldDesc(desc, k), Str(k), ctor).Ok?
  {
    assert AllVisits(desc) == ForInVisits(desc);
    forall k | k in o.fields ensures ToRich(o.fields[k], FieldDesc(desc, k), Str(k), ctor).Ok? {
      var i :| 0 <= i < |o.keys| && o.keys[i] == k;
      FieldResultAt(o, desc, ctor, i);
    }
  }

  /**
   * Converting a well-formed object against a well-formed object descriptor:
   * each data key holds its converted value, and is dropped when that is
   * undefined.
   */
  lemma ToRichDataKeys(o: Value, desc: Value, key: Value, ctor: Ctor)
    requires o.Obj? && WfObj(o.keys, o.fields) && desc.Obj? && WfObj(desc.keys, desc.fields)
    requires ToRich(o, desc, key, ctor).Ok?
    ensures ToRich(o, desc, key, ctor).value.Obj?
    ensures forall k :: k in o.fields ==> ToRich(o.fields[k], FieldDesc(desc, k), Str(k), ctor).Ok?
    ensures forall k :: k in o.fields ==>
      (k in ToRich(o, desc, key, ctor).value.fields <==>
        !ToRich(o.fields[k], FieldDesc(desc, k), Str(k), ctor).value.Undefined?) &&
      Field(ToRich(o, desc, key, ctor).value.fields, k) == ToRich(o.fields[k], FieldDesc(desc, k), Str(k), ctor).value
  {
    ToRichObjPasses(o, desc, key, ctor);
    TwoPassDataKeys(o, desc, ctor);
  }

  /** The data keys after both passes. */
  lemma TwoPassDataKeys(o: Value, desc: Value, ctor: Ctor)
    requires o.Obj? && WfObj(o.keys, o.fields) && desc.Obj? && WfObj(desc.keys, desc.fields)
    requires AllOk(FieldResults(o, desc, ctor)).Ok?
    ensures FillDefaults(MapWith(o, AllOk(FieldResults(o, desc, ctor)).value), ForInVisits(desc), KeySet(o)).Ok?
    ensures FillDefaults(MapWith(o, AllOk(FieldResults(o, desc, ctor)).value), ForInVisits(desc), KeySet(o)).value.Obj?
    ensures forall k :: k in o.fields ==> ToRich(o.fields[k], FieldDesc(desc, k), Str(k), ctor).Ok?
    ensures forall k :: k in o.fields ==>
      var r := FillDefaults(MapWith(o, AllOk(FieldResults(o, desc, ctor)).value), ForInVisits(desc), KeySet(o)).value;
      (k in r.fields <==> !ToRich(o.fields[k], FieldDesc(desc, k), Str(k), ctor).value.Undefined?) &&
      Field(r.fields, k) == ToRich(o.fields[k], FieldDesc(desc, k), Str(k), ctor).value
  {
    var rs := FieldResults(o, desc, ctor);
    var xs := AllOk(rs).value;
    var obj := MapWith(o, xs);
    var dv := ForInVisits(desc);
    FirstPass(o, xs);
    FillDefaultsFields(obj, dv, desc.keys, KeySet(o));
    forall k | k in o.fields ensures ToRich(o.fields[k], FieldDesc(desc, k), Str(k), ctor).Ok? {
      var i :| 0 <= i < |o.keys| && o.keys[i] == k;
      FieldResultAt(o, desc, ctor, i);
    }
    RichFieldsKept(o, desc, ctor, rs, xs, KeySet(o), obj, dv, FillDefaults(obj, dv, KeySet(o)).value);
  }

  /**
   * Converting a well-formed object against a well-formed object descriptor:
   * each descriptor key the data lacks holds the default it supplies, no
   * other key appears, and `'*'` is never copied.
   */
  lemma ToRichDefaults(o: Value, desc: Value, key: Value, ctor: Ctor)
    requires o.Obj? && WfObj(o.keys, o.fields) && desc.Obj? && WfObj(desc.keys, desc.fields)
    requires ToRich(o, desc, key, ctor).Ok?
    ensures ToRich(o, desc, key, ctor).value.Obj?
    ensures forall k :: k in desc.fields && k != "*" && k !in o.fields ==>
      (!IsObject(desc.fields[k]) ==> Field(ToRich(o, desc, key, ctor).value.fields, k) == desc.fields[k]) &&
      (desc.fields[k].Arr? ==> Field(ToRich(o, desc, key, ctor).value.fields, k) == GetProp(desc.fields[k], "1").value) &&
      (desc.fields[k].Arr? || !IsObject(desc.fields[k]) <==> k in ToRich(o, desc, key, ctor).value.fields)
    ensures forall k :: k in ToRich(o, desc, key, ctor).value.fields ==> k in o.fields || k in desc.fields
    ensures "*" in ToRich(o, desc, key, ctor).value.fields ==> "*" in o.fields
  {
    ToRichObjPasses(o, desc, key, ctor);
    TwoPassDefaults(o, desc, AllOk(FieldResults(o, desc, ctor)).value);
  }

  /** The descriptor keys after both passes. */
  lemma TwoPassDefaults(o: Value, desc: Value, xs: seq<Value>)
    requires o.Obj? && WfObj(o.keys, o.fields) && desc.Obj? && WfObj(desc.keys, desc.fields) && |xs| == |o.keys|
    ensures FillDefaults(MapWith(o, xs), ForInVisits(desc), KeySet(o)).Ok?
    ensures FillDefaults(MapWith(o, xs), ForInVisits(desc), KeySet(o)).value.Obj?
    ensures forall k :: k in desc.fields && k != "*" && k !in o.fields ==>
      var r := FillDefaults(MapWith(o, xs), ForInVisits(desc), KeySet(o)).value;
      (!IsObject(desc.fields[k]) ==> Field(r.fields, k) == desc.fields[k]) &&
      (desc.fields[k].Arr? ==> Field(r.fields, k) == GetProp(desc.fields[k], "1").value) &&
      (desc.fields[k].Arr? || !IsObject(desc.fields[k]) <==> k in r.fields)
    ensures forall k :: k in FillDefaults(MapWith(o, xs), ForInVisits(desc), KeySet(o)).value.fields ==>
      k in o.fields || k in desc.fields
    ensures "*" in FillDefaults(MapWith(o, xs), ForInVisits(desc), KeySet(o)).value.fields ==> "*" in o.fields
  {
    var obj := MapWith(o, xs);
    var dv := ForInVisits(desc);
    FirstPass(o, xs);
    FillDefaultsFields(obj, dv, desc.keys, KeySet(o));
    RichDefaultsAdded(o, desc, KeySet(o), obj, dv, FillDefaults(obj, dv, KeySet(o)).value);
  }

  lemma RichFieldsKept(o: Value, desc: Value, ctor: Ctor, rs: seq<Result<Value>>, xs: seq<Value>,
                       found: set<string>, obj: Value, dv: seq<Visit>, r: Value)
    requires o.Obj? && WfObj(o.keys, o.fields) && desc.Obj? && WfObj(desc.keys, desc.fields)
    requires rs == FieldResults(o, desc, ctor) && AllOk(rs) == Ok(xs) && found == KeySet(o)
    requires obj.Obj? && r.Obj? && dv == ForInVisits(desc) && |dv| == |desc.keys|
    requires forall i :: 0 <= i < |o.keys| ==>
      (o.keys[i] in obj.fields <==> !xs[i].Undefined?) && Field(obj.fields, o.keys[i]) == xs[i]
    requires forall i :: 0 <= i < |desc.keys| && Default(dv[i], found).None? ==>
      (desc.keys[i] in r.fields <==> desc.keys[i] in obj.fields) && Field(r.fields, desc.keys[i]) == Field(obj.fields, desc.keys[i])
    requires forall k :: k !in desc.keys ==> (k in r.fields <==> k in obj.fields) && Field(r.fields, k) == Field(obj.fields, k)
    ensures forall k :: k in o.fields ==>
      (k in r.fields <==> !ToRich(o.fields[k], FieldDesc(desc, k), Str(k), ctor).value.Undefined?) &&
      Field(r.fields, k) == ToRich(o.fields[k], FieldDesc(desc, k), Str(k), ctor).value
  {
    forall k | k in o.fields
      ensures (k in r.fields <==> !ToRich(o.fields[k], FieldDesc(desc, k), Str(k), ctor).value.Undefined?)
      ensures Field(r.fields, k) == ToRich(o.fields[k], FieldDesc(desc, k), Str(k), ctor).value
    {
      var i :| 0 <= i < |o.keys| && o.keys[i] == k;
      FieldResultAt(o, desc, ctor, i);
      assert rs[i] == Ok(xs[i]);
      RichFieldUntouched(o, desc, found, obj, dv, r, k);
    }
  }

  /** The result of converting the i-th own key. */
  lemma FieldResultAt(o: Value, desc: Value, ctor: Ctor, i: nat)
    requires o.Obj? && WfObj(o.keys, o.fields) && !IsNullish(desc) && i < |o.keys|
    ensures FieldResults(o, desc, ctor)[i] == ToRich(o.fields[o.keys[i]], FieldDesc(desc, o.keys[i]), Str(o.keys[i]), ctor)
  {
    assert OwnKeys(o) == o.keys;
  }

  /** The second pass leaves a data key as the first pass left it. */
  lemma RichFieldUntouched(o: Value, desc: Value, found: set<string>, obj: Value, dv: seq<Visit>, r: Value, k: string)
    requires o.Obj? && WfObj(o.keys, o.fields) && desc.Obj? && WfObj(desc.keys, desc.fields)
    requires found == KeySet(o) && dv == ForInVisits(desc) && |dv| == |desc.keys| && r.Obj? && obj.Obj?
    requires forall i :: 0 <= i < |desc.keys| && Default(dv[i], found).None? ==>
      (desc.keys[i] in r.fields <==> desc.keys[i] in obj.fields) && Field(r.fields, desc.keys[i]) == Field(obj.fields, desc.keys[i])
    requires forall k :: k !in desc.keys ==> (k in r.fields <==> k in obj.fields) && Field(r.fields, k) == Field(obj.fields, k)
    requires k in o.fields
    ensures (k in r.fields <==> k in obj.fields) && Field(r.fields, k) == Field(obj.fields, k)
  {
    if k in desc.keys {
      var j :| 0 <= j < |desc.keys| && desc.keys[j] == k;
      assert Default(dv[j], found).None? by {
        assert k in found by {
          assert OwnKeys(o) == o.keys;
        }
        assert dv[j].key == Str(k) by {
          assert OwnKeys(desc) == desc.keys;
        }
      }
    }
  }

  lemma RichDefaultsAdded(o: Value, desc: Value, found: set<string>, obj: Value, dv: seq<Visit>, r: Value)
    requires o.Obj? && WfObj(o.keys, o.fields) && desc.Obj? && WfObj(desc.keys, desc.fields)
    requires found == KeySet(o) && obj.Obj? && r.Obj? && dv == ForInVisits(desc) && |dv| == |desc.keys|
    requires forall k :: k in obj.fields ==> k in o.fields
    requires forall i :: 0 <= i < |desc.keys| && Default(dv[i], found).Some? ==>
      desc.keys[i] in r.fields && r.fields[desc.keys[i]] == Default(dv[i], found).value
    requires forall i :: 0 <= i < |desc.keys| && Default(dv[i], found).None? ==>
      (desc.keys[i] in r.fields <==> desc.keys[i] in obj.fields) && Field(r.fields, desc.keys[i]) == Field(obj.fields, desc.keys[i])
    requires forall k :: k !in desc.keys ==> (k in r.fields <==> k in obj.fields) && Field(r.fields, k) == Field(obj.fields, k)
    ensures forall k :: k in desc.fields && k != "*" && k !in o.fields ==>
      (!IsObject(desc.fields[k]) ==> Field(r.fields, k) == desc.fields[k]) &&
      (desc.fields[k].Arr? ==> Field(r.fields, k) == GetProp(desc.fields[k], "1").value) &&
      (desc.fields[k].Arr? || !IsObject(desc.fields[k]) <==> k in r.fields)
    ensures forall k :: k in r.fields ==> k in o.fields || k in desc.fields
    ensures "*" in r.fields ==> "*" in o.fields
  {
    forall k | k in desc.fields && k != "*" && k !in o.fields
      ensures !IsObject(desc.fields[k]) ==> Field(r.fields, k) == desc.fields[k]
      ensures desc.fields[k].Arr? ==> Field(r.fields, k) == GetProp(desc.fields[k], "1").value
      ensures desc.fields[k].Arr? || !IsObject(desc.fields[k]) <==> k in r.fields
    {
      var j :| 0 <= j < |desc.keys| && desc.keys[j] == k;
      assert dv[j] == Visit(Str(k), desc.fields[k]);
      assert ToJsString(Str(k)) == k && k !in found;
    }
    forall k | k in r.fields ensures k in o.fields || k in desc.fields {
      if k !in desc.keys {
        assert k in obj.fields;
      }
    }
    if "*" in desc.keys {
      var j :| 0 <= j < |desc.keys| && desc.keys[j] == "*";
      assert dv[j].key == Str("*");
      assert Default(dv[j], found).None?;
    }
  }

  /** The second half of the conversions over an array: the for-in pass. */
  lemma ElemResultsForIn(e: seq<Value>, desc: Value, ctor: Ctor, i: nat)
    requires i < |e|
    ensures ElemResults(Arr(e), desc, ctor)[|e| + i] == ToRich(e[i], desc, Str(NatToString(i)), ctor)
  {
    var a := seq(|e|, i requires 0 <= i < |e| => ToRich(e[i], desc, Num(i), ctor));
    var b := seq(|e|, i requires 0 <= i < |e| => ToRich(e[i], desc, Str(NatToString(i)), ctor));
    assert ElemResults(Arr(e), desc, ctor) == a + b;
    assert (a + b)[|e| + i] == b[i];
  }

  /** A successful conversion of an array keeps the results of the for-in pass. */
  lemma ToRichArrValue(e: seq<Value>, desc: Value, key: Value, ctor: Ctor)
    requires IsObject(desc) && ToRich(Arr(e), desc, key, ctor).Ok?
    ensures AllOk(ElemResults(Arr(e), desc, ctor)).Ok?
    ensures ToRich(Arr(e), desc, key, ctor).value == Arr(AllOk(ElemResults(Arr(e), desc, ctor)).value[|e|..])
  {
    var xs := AllOk(ElemResults(Arr(e), desc, ctor)).value;
    assert ToRich(Arr(e), desc, key, ctor) == Ok(MapWith(Arr(e), xs));
    assert xs == xs[..|e|] + xs[|e|..];
    MapWithArr(e, xs[..|e|], xs[|e|..]);
  }

  /** An array is converted element by element against the same descriptor, keyed by its index. */
  lemma ToRichArr(e: seq<Value>, desc: Value, key: Value, ctor: Ctor)
    requires IsObject(desc) && ToRich(Arr(e), desc, key, ctor).Ok?
    ensures ToRich(Arr(e), desc, key, ctor).value.Arr?
    ensures |ToRich(Arr(e), desc, key, ctor).value.elems| == |e|
    ensures forall i :: 0 <= i < |e| ==>
      ToRich(e[i], desc, Str(NatToString(i)), ctor) == Ok(ToRich(Arr(e), desc, key, ctor).value.elems[i])
  {
    var rs := ElemResults(Arr(e), desc, ctor);
    assert AllOk(rs).Ok?;
    var xs := AllOk(rs).value;
    var zs := xs[|e|..];
    ToRichArrValue(e, desc, key, ctor);
    forall i | 0 <= i < |e|
      ensures ToRich(e[i], desc, Str(NatToString(i)), ctor) == Ok(zs[i])
    {
      ElemResultsForIn(e, desc, ctor, i);
      assert rs[|e| + i] == Ok(xs[|e| + i]);
      assert zs[i] == xs[|e| + i];
    }
  }

  // ------------------------------------------------- the Model constructor

  /** A model instance before its constructor runs. */
  const NewInstance: Value := Obj(ModelProto, [], map[])

  /** A parameter's default: `d` when the argument is undefined. */
  function OrDefault(v: Value, d: Value): (r: Value)
    ensures v.Undefined? ==> r == d
    ensures !v.Undefined? ==> r == v
  {
    if v.Undefined? then d else v
  }

  /**
   * `new Model(data = null, typeDesc = {})`:
   * `$(this).extend($(data).toRichObject(typeDesc))`.
   */
  function ModelNew(data: Value, typeDesc: Value, ctor: Ctor): (r: Result<Value>)
    ensures r.Ok? <==> ToRich(OrDefault(data, Null), OrDefault(typeDesc, EmptyObj), Null, ctor).Ok?
    ensures r.Raise? ==> r == ToRich(OrDefault(data, Null), OrDefault(typeDesc, EmptyObj), Null, ctor)
    ensures r.Ok? ==> IsModel(r.value)
  {
    match ToRich(OrDefault(data, Null), OrDefault(typeDesc, EmptyObj), Null, ctor)
    case Raise(x) => Raise(x)
    case Ok(rich) => ExtendOneOk(NewInstance, rich); ExtendOne(NewInstance, rich)
  }

  /**
   * The constructor fails only where the conversion does; it yields a model
   * holding exactly the converted data's own fields.
   */
  lemma ModelNewFields(data: Value, typeDesc: Value, ctor: Ctor)
    requires ToRich(OrDefault(data, Null), OrDefault(typeDesc, EmptyObj), Null, ctor).Ok?
    ensures ModelNew(data, typeDesc, ctor).Ok? && IsModel(ModelNew(data, typeDesc, ctor).value)
    ensures var rich := ToRich(OrDefault(data, Null), OrDefault(typeDesc, EmptyObj), Null, ctor).value;
      rich.Obj? && WfObj(rich.keys, rich.fields) ==>
        forall k :: Field(ModelNew(data, typeDesc, ctor).value.fields, k) == Field(rich.fields, k)
  {
    var rich := ToRich(OrDefault(data, Null), OrDefault(typeDesc, EmptyObj), Null, ctor).value;
    ExtendOneOk(NewInstance, rich);
    if rich.Obj? && WfObj(rich.keys, rich.fields) {
      MergeRule(NewInstance, rich);
    }
  }
}
