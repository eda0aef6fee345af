/**
 * The JavaScript values the library works on, and the handful of language
 * operations its code relies on: truthiness, `instanceof`, property read,
 * property write, `String(v)`, `split`, `join` and the decimal form of an
 * array index (the key a `for…in` loop yields for an array element).
 */
module JsValue {

  datatype Option<T> = None | Some(value: T)

  /** An exception raised by the language or by the library. */
  datatype Exc =
    | TypeError                              // property access on undefined/null, iterating a non-iterable
    | URIError                               // decodeURIComponent on a malformed escape
    | ReferenceError(name: string)           // an identifier that is not bound
    | PlainError(message: string)            // `throw new Error(message)`
    | WelibError(errType: string, message: string)  // an `Err` built by one of the `Err.<TYPE>` factories

  /** A computation that either yields a value or raises. */
  datatype Result<T> = Ok(value: T) | Raise(exc: Exc)

  /** The prototype an object was built from, as far as the library tests for it. */
  datatype Proto = PlainProto | ModelProto

  /**
   * A JavaScript value. An object keeps its own enumerable keys in `keys`, in
   * insertion order, and their values in `fields`. A function is known by an
   * identity only and holds no properties. An array holds its elements.
   */
  datatype Value =
    | Undefined
    | Null
    | Bool(b: bool)
    | Num(n: int)
    | Str(s: string)
    | Fun(id: nat)
    | Obj(proto: Proto, keys: seq<string>, fields: map<string, Value>)
    | Arr(elems: seq<Value>)

  const EmptyObj: Value := Obj(PlainProto, [], map[])

  /** `v instanceof Object` */
  predicate IsObject(v: Value) {
    v.Fun? || v.Obj? || v.Arr?
  }

  /** `v instanceof Object && !(v instanceof Array)` */
  predicate IsRecord(v: Value) {
    v.Fun? || v.Obj?
  }

  /** `v === undefined || v === null` */
  predicate IsNullish(v: Value) {
    v.Undefined? || v.Null?
  }

  /** JavaScript truthiness (`!!v`). */
  predicate Truthy(v: Value) {
    match v
    case Undefined => false
    case Null => false
    case Bool(b) => b
    case Num(n) => n != 0
    case Str(s) => s != ""
    case _ => true
  }

  /** No key occurs twice. */
  ghost predicate Distinct(keys: seq<string>) {
    forall i, j :: 0 <= i < j < |keys| ==> keys[i] != keys[j]
  }

  /** An object whose key list has no repetition and names exactly its fields. */
  ghost predicate WfObj(keys: seq<string>, fields: map<string, Value>) {
    Distinct(keys) && (forall k :: k in fields <==> k in keys)
  }

  ghost predicate Wf(v: Value) {
    v.Obj? ==> WfObj(v.keys, v.fields)
  }

  /** The own field `k` of an object: undefined when absent. */
  function Field(fields: map<string, Value>, k: string): Value {
    if k in fields then fields[k] else Undefined
  }

  /** Adds or replaces own field `k`; a new key goes to the end of the insertion order. */
  function ObjPut(o: Value, k: string, v: Value): (r: Value)
    requires o.Obj?
    ensures r.Obj? && r.proto == o.proto
    ensures r.fields == o.fields[k := v]
    ensures k in o.fields ==> r.keys == o.keys
    ensures k !in o.fields ==> r.keys == o.keys + [k]
    ensures WfObj(o.keys, o.fields) ==> WfObj(r.keys, r.fields)
  {
    Obj(o.proto, if k in o.fields then o.keys else o.keys + [k], o.fields[k := v])
  }

  /** The key list without `k`. */
  function Without(keys: seq<string>, k: string): (r: seq<string>)
    ensures forall x :: x in r <==> x in keys && x != k
    ensures |r| <= |keys|
  {
    if keys == [] then []
    else if keys[0] == k then Without(keys[1..], k)
    else [keys[0]] + Without(keys[1..], k)
  }

  lemma {:induction false} WithoutDistinct(keys: seq<string>, k: string)
    ensures Distinct(keys) ==> Distinct(Without(keys, k))
  {
    if keys != [] && Distinct(keys) {
      var rest := keys[1..];
      assert Distinct(rest) by {
        forall i, j | 0 <= i < j < |rest| ensures rest[i] != rest[j] {
          assert rest[i] == keys[i + 1] && rest[j] == keys[j + 1];
        }
      }
      WithoutDistinct(rest, k);
      var r := Without(rest, k);
      if keys[0] != k {
        assert keys[0] !in rest by {
          forall j | 0 <= j < |rest| ensures rest[j] != keys[0] {
            assert rest[j] == keys[j + 1];
          }
        }
        var w := [keys[0]] + r;
        assert Without(keys, k) == w;
        forall i, j | 0 <= i < j < |w| ensures w[i] != w[j] {
          if i == 0 {
            assert w[0] == keys[0];
            assert w[j] == r[j - 1];
            assert r[j - 1] in r;
            assert r[j - 1] in rest;
          } else {
            assert w[i] == r[i - 1] && w[j] == r[j - 1];
          }
        }
        assert Distinct(w);
      }
    }
  }

  lemma WithoutAbsent(keys: seq<string>, k: string)
    requires k !in keys
    ensures Without(keys, k) == keys
  {
    if keys != [] {
      assert k !in keys[1..];
      WithoutAbsent(keys[1..], k);
      assert keys == [keys[0]] + keys[1..];
    }
  }

  /** `delete o[k]` on an object. */
  function ObjDelete(o: Value, k: string): (r: Value)
    requires o.Obj?
    ensures r.Obj? && r.proto == o.proto
    ensures r.fields == o.fields - {k}
    ensures WfObj(o.keys, o.fields) ==> WfObj(r.keys, r.fields)
  {
    WithoutDistinct(o.keys, k);
    Obj(o.proto, Without(o.keys, k), o.fields - {k})
  }

  /** `v instanceof Model` */
  predicate IsModel(v: Value) {
    v.Obj? && v.proto == ModelProto
  }

  /** The keys of `keys` that `fields` holds a value for, in order. */
  function KeysIn(keys: seq<string>, fields: map<string, Value>): (r: seq<string>)
    ensures forall k :: k in r <==> k in keys && k in fields
    ensures (forall k :: k in keys ==> k in fields) ==> r == keys
    ensures Distinct(keys) ==> Distinct(r)
  {
    if keys == [] then []
    else
      var rest := KeysIn(keys[1..], fields);
      assert Distinct(keys) ==> Distinct(keys[1..]) by {
        if Distinct(keys) {
          forall i, j | 0 <= i < j < |keys[1..]| ensures keys[1..][i] != keys[1..][j] {
            assert keys[1..][i] == keys[i + 1] && keys[1..][j] == keys[j + 1];
          }
        }
      }
      if keys[0] in fields then [keys[0]] + rest else rest
  }

  /** The own enumerable keys of an object, in `for…in` order. */
  function OwnKeys(o: Value): (r: seq<string>)
    requires o.Obj?
    ensures forall k :: k in r <==> k in o.keys && k in o.fields
    ensures WfObj(o.keys, o.fields) ==> r == o.keys
    ensures Distinct(o.keys) ==> Distinct(r)
  {
    KeysIn(o.keys, o.fields)
  }

  /** `o[ks[0]] = vs[0]; o[ks[1]] = vs[1]; …` on an object. */
  function PutAll(o: Value, ks: seq<string>, vs: seq<Value>): (r: Value)
    requires o.Obj? && |ks| == |vs|
    ensures r.Obj? && r.proto == o.proto
    decreases |ks|
  {
    if ks == [] then o else PutAll(ObjPut(o, ks[0], vs[0]), ks[1..], vs[1..])
  }

  /**
   * Storing distinct new keys appends them to the key order and gives each
   * its value; what the object held before stays.
   */
  lemma PutAllFresh(o: Value, ks: seq<string>, vs: seq<Value>)
    requires o.Obj? && |ks| == |vs| && Distinct(ks)
    requires forall i :: 0 <= i < |ks| ==> ks[i] !in o.fields
    ensures PutAll(o, ks, vs).keys == o.keys + ks
    ensures forall k :: k in PutAll(o, ks, vs).fields <==> k in o.fields || k in ks
    ensures forall i :: 0 <= i < |ks| ==> PutAll(o, ks, vs).fields[ks[i]] == vs[i]
    ensures forall k :: k in o.fields ==> PutAll(o, ks, vs).fields[k] == o.fields[k]
  {
    var r := PutAll(o, ks, vs);
    PutAllKeys(o, ks, vs);
    PutAllFreshOrder(o, ks, vs);
    forall i | 0 <= i < |ks| ensures r.fields[ks[i]] == vs[i] {
      PutAllLastValue(o, ks, vs, i);
    }
    forall k | k in o.fields ensures r.fields[k] == o.fields[k] {
      PutAllUntouched(o, ks, vs, k);
    }
  }

  /** The tail of a list of distinct keys is distinct and lacks the head. */
  lemma DistinctTail(ks: seq<string>)
    requires Distinct(ks) && ks != []
    ensures Distinct(ks[1..]) && ks[0] !in ks[1..]
  {
    var ks1 := ks[1..];
    forall i, j | 0 <= i < j < |ks1| ensures ks1[i] != ks1[j] {
      assert ks1[i] == ks[i + 1] && ks1[j] == ks[j + 1];
    }
    forall i | 0 <= i < |ks1| ensures ks1[i] != ks[0] {
      assert ks1[i] == ks[i + 1];
    }
  }

  /** New distinct keys go to the end of the key order, in the order written. */
  lemma {:induction false} PutAllFreshOrder(o: Value, ks: seq<string>, vs: seq<Value>)
    requires o.Obj? && |ks| == |vs| && Distinct(ks)
    requires forall i :: 0 <= i < |ks| ==> ks[i] !in o.fields
    ensures PutAll(o, ks, vs).keys == o.keys + ks
    decreases |ks|
  {
    if ks != [] {
      var o1 := ObjPut(o, ks[0], vs[0]);
      var ks1, vs1 := ks[1..], vs[1..];
      DistinctTail(ks);
      forall i | 0 <= i < |ks1| ensures ks1[i] !in o1.fields {
        assert ks1[i] == ks[i + 1];
      }
      PutAllFreshOrder(o1, ks1, vs1);
      assert ks == [ks[0]] + ks1;
    }
  }

  /**
   * Storing keys that may repeat: the value of a key written more than once
   * is the last one written to it; a key not written keeps its value.
   */
  lemma PutAllLast(o: Value, ks: seq<string>, vs: seq<Value>)
    requires o.Obj? && |ks| == |vs|
    ensures forall k :: k in PutAll(o, ks, vs).fields <==> k in o.fields || k in ks
    ensures forall i :: 0 <= i < |ks| && (forall j :: i < j < |ks| ==> ks[j] != ks[i]) ==>
      PutAll(o, ks, vs).fields[ks[i]] == vs[i]
    ensures forall k :: k in o.fields && k !in ks ==> PutAll(o, ks, vs).fields[k] == o.fields[k]
    ensures WfObj(o.keys, o.fields) ==> WfObj(PutAll(o, ks, vs).keys, PutAll(o, ks, vs).fields)
  {
    var r := PutAll(o, ks, vs);
    PutAllKeys(o, ks, vs);
    forall i | 0 <= i < |ks| && (forall j :: i < j < |ks| ==> ks[j] != ks[i])
      ensures r.fields[ks[i]] == vs[i]
    {
      PutAllLastValue(o, ks, vs, i);
    }
    forall k | k in o.fields && k !in ks ensures r.fields[k] == o.fields[k] {
      PutAllUntouched(o, ks, vs, k);
    }
    if WfObj(o.keys, o.fields) {
      PutAllWf(o, ks, vs);
    }
  }

  /** The last write to a key decides its value. */
  lemma {:induction false} PutAllLastValue(o: Value, ks: seq<string>, vs: seq<Value>, i: nat)
    requires o.Obj? && |ks| == |vs| && i < |ks|
    requires forall j :: i < j < |ks| ==> ks[j] != ks[i]
    ensures ks[i] in PutAll(o, ks, vs).fields && PutAll(o, ks, vs).fields[ks[i]] == vs[i]
    decreases |ks|
  {
    var o1 := ObjPut(o, ks[0], vs[0]);
    var ks1, vs1 := ks[1..], vs[1..];
    assert PutAll(o, ks, vs) == PutAll(o1, ks1, vs1);
    if i == 0 {
      assert ks[0] !in ks1 by {
        forall j | 0 <= j < |ks1| ensures ks1[j] != ks[0] {
          assert ks1[j] == ks[j + 1];
        }
      }
      PutAllUntouched(o1, ks1, vs1, ks[0]);
    } else {
      assert ks1[i - 1] == ks[i] && vs1[i - 1] == vs[i];
      forall j | i - 1 < j < |ks1| ensures ks1[j] != ks1[i - 1] {
        assert ks1[j] == ks[j + 1];
      }
      PutAllLastValue(o1, ks1, vs1, i - 1);
    }
  }

  /** A key not written keeps what it had, present or absent. */
  lemma {:induction false} PutAllUntouched(o: Value, ks: seq<string>, vs: seq<Value>, k: string)
    requires o.Obj? && |ks| == |vs| && k !in ks
    ensures (k in PutAll(o, ks, vs).fields <==> k in o.fields) && Field(PutAll(o, ks, vs).fields, k) == Field(o.fields, k)
    decreases |ks|
  {
    if ks != [] {
      assert ks == [ks[0]] + ks[1..];
      PutAllUntouched(ObjPut(o, ks[0], vs[0]), ks[1..], vs[1..], k);
    }
  }

  /** Storing keeps an object well formed. */
  lemma {:induction false} PutAllWf(o: Value, ks: seq<string>, vs: seq<Value>)
    requires o.Obj? && |ks| == |vs| && WfObj(o.keys, o.fields)
    ensures WfObj(PutAll(o, ks, vs).keys, PutAll(o, ks, vs).fields)
    decreases |ks|
  {
    if ks != [] {
      PutAllWf(ObjPut(o, ks[0], vs[0]), ks[1..], vs[1..]);
    }
  }

  /** The keys an object has after storing: what it had and the keys written. */
  lemma {:induction false} PutAllKeys(o: Value, ks: seq<string>, vs: seq<Value>)
    requires o.Obj? && |ks| == |vs|
    ensures forall k :: k in PutAll(o, ks, vs).fields <==> k in o.fields || k in ks
    decreases |ks|
  {
    if ks != [] {
      PutAllKeys(ObjPut(o, ks[0], vs[0]), ks[1..], vs[1..]);
      assert ks == [ks[0]] + ks[1..];
    }
  }

  /** Every key of a fresh object after storing is one of the keys written. */
  lemma PutAllOnly(o: Value, ks: seq<string>, vs: seq<Value>, p: string -> bool)
    requires o.Obj? && o.fields == map[] && |ks| == |vs|
    requires forall j :: 0 <= j < |ks| ==> p(ks[j])
    ensures forall k :: k in PutAll(o, ks, vs).fields ==> p(k)
  {
    PutAllKeys(o, ks, vs);
    forall k | k in PutAll(o, ks, vs).fields ensures p(k) {
      var j :| 0 <= j < |ks| && ks[j] == k;
    }
  }

  /** Storing, for every key written, a value that depends on the key alone gives each key that value. */
  lemma {:induction false} PutAllUniform(o: Value, ks: seq<string>, vs: seq<Value>, g: string -> Value)
    requires o.Obj? && |ks| == |vs|
    requires forall j :: 0 <= j < |ks| ==> vs[j] == g(ks[j])
    ensures forall k :: k in PutAll(o, ks, vs).fields <==> k in o.fields || k in ks
    ensures forall k :: k in ks ==> PutAll(o, ks, vs).fields[k] == g(k)
    decreases |ks|
  {
    PutAllKeys(o, ks, vs);
    if ks != [] {
      var o1 := ObjPut(o, ks[0], vs[0]);
      var ks1, vs1 := ks[1..], vs[1..];
      forall j | 0 <= j < |ks1| ensures vs1[j] == g(ks1[j]) {
        assert vs1[j] == vs[j + 1] && ks1[j] == ks[j + 1];
      }
      PutAllUniform(o1, ks1, vs1, g);
      var r := PutAll(o1, ks1, vs1);
      assert PutAll(o, ks, vs) == r;
      forall k | k in ks ensures r.fields[k] == g(k) {
        assert ks == [ks[0]] + ks1;
        if k !in ks1 {
          PutAllUntouched(o1, ks1, vs1, k);
        }
      }
    }
  }

  /** A join of at least one part is at least as long as its first part. */
  lemma JoinLength(parts: seq<string>, sep: string)
    requires |parts| >= 1
    ensures |Join(parts, sep)| >= |parts[0]|
  {
  }

  function DigitChar(d: nat): char
    requires d < 10
  {
    "0123456789"[d]
  }

  predicate IsDigit(c: char) {
    '0' <= c <= '9'
  }

  /** The decimal form of a natural number, as `String(n)` writes it. */
  function NatToString(n: nat): (r: string)
    ensures |r| >= 1
    ensures forall i :: 0 <= i < |r| ==> IsDigit(r[i])
    ensures n >= 10 ==> r[0] != '0'
    ensures n < 10 ==> r == [DigitChar(n)]
  {
    if n < 10 then [DigitChar(n)] else NatToString(n / 10) + [DigitChar(n % 10)]
  }

  /** `String(i)` for an integer. */
  function IntToString(i: int): string {
    if i < 0 then "-" + NatToString(-i) else NatToString(i)
  }

  function DigitsValue(s: string): nat
    requires forall i :: 0 <= i < |s| ==> IsDigit(s[i])
  {
    if s == [] then 0
    else
      assert IsDigit(s[|s| - 1]);
      10 * DigitsValue(s[..|s| - 1]) + (s[|s| - 1] as int - '0' as int)
  }

  /**
   * The array index a property key denotes: a key is an index exactly when
   * it is the canonical decimal form of a natural number.
   */
  function ParseIndex(s: string): Option<nat> {
    if s != [] && (forall i :: 0 <= i < |s| ==> IsDigit(s[i])) && (s == "0" || s[0] != '0')
    then Some(DigitsValue(s))
    else None
  }

  lemma {:induction false} DigitsValueOfNatToString(n: nat)
    ensures DigitsValue(NatToString(n)) == n
  {
    if n >= 10 {
      var s := NatToString(n);
      assert s == NatToString(n / 10) + [DigitChar(n % 10)];
      assert s[..|s| - 1] == NatToString(n / 10);
      DigitsValueOfNatToString(n / 10);
    }
  }

  /** The key `for…in` yields for index `n` denotes index `n` again. */
  lemma ParseIndexOfNatToString(n: nat)
    ensures ParseIndex(NatToString(n)) == Some(n)
  {
    DigitsValueOfNatToString(n);
    var s := NatToString(n);
    assert n < 10 ==> s == "0" || s[0] != '0';
  }

  lemma NatToStringInjective(m: nat, n: nat)
    requires NatToString(m) == NatToString(n)
    ensures m == n
  {
    ParseIndexOfNatToString(m);
    ParseIndexOfNatToString(n);
  }

  /** `String(v)` (an object without its own `toString`). */
  function ToJsString(v: Value): string {
    match v
    case Undefined => "undefined"
    case Null => "null"
    case Bool(b) => if b then "true" else "false"
    case Num(n) => IntToString(n)
    case Str(s) => s
    case Fun(_) => "function"
    case Obj(_, _, _) => "[object Object]"
    case Arr(e) => JoinElems(e)
  }

  /** `Array.prototype.toString`: elements joined by commas, undefined and null as "". */
  function JoinElems(e: seq<Value>): string
    decreases e
  {
    if e == [] then ""
    else
      var first := if IsNullish(e[0]) then "" else ToJsString(e[0]);
      if |e| == 1 then first else first + "," + JoinElems(e[1..])
  }

  /** `o[key]` for a string key. */
  function GetProp(o: Value, key: string): (r: Result<Value>)
    ensures r.Raise? <==> IsNullish(o)
    ensures r.Raise? ==> r.exc == TypeError
    ensures o.Obj? ==> r == Ok(Field(o.fields, key))
  {
    match o
    case Undefined => Raise(TypeError)
    case Null => Raise(TypeError)
    case Obj(_, _, fields) => Ok(Field(fields, key))
    case Arr(e) =>
      if key == "length" then Ok(Num(|e|))
      else (match ParseIndex(key)
            case Some(i) => if i < |e| then Ok(e[i]) else Ok(Undefined)
            case None => Ok(Undefined))
    case Str(s) =>
      if key == "length" then Ok(Num(|s|))
      else (match ParseIndex(key)
            case Some(i) => if i < |s| then Ok(Str([s[i]])) else Ok(Undefined)
            case None => Ok(Undefined))
    case _ => Ok(Undefined)
  }

  /** `e[i] = v` on an array: a write past the end leaves holes, read as undefined. */
  function ArrSet(e: seq<Value>, i: nat, v: Value): (r: seq<Value>)
    ensures |r| == if i < |e| then |e| else i + 1
    ensures r[i] == v
    ensures forall j :: 0 <= j < |r| && j != i ==> r[j] == if j < |e| then e[j] else Undefined
  {
    if i < |e| then e[i := v]
    else e + seq(i - |e|, _ => Undefined) + [v]
  }

  /**
   * `o[key] = v` in non-strict code: raises on undefined/null; a write to
   * another primitive is ignored; a write of a non-index key to an array or of
   * any key to a function is not represented and leaves the value unchanged.
   */
  function PutProp(o: Value, key: string, v: Value): (r: Result<Value>)
    ensures r.Raise? <==> IsNullish(o)
    ensures r.Raise? ==> r.exc == TypeError
    ensures o.Obj? ==> r == Ok(ObjPut(o, key, v))
    ensures r.Ok? && o.Arr? ==> r.value.Arr?
    ensures r.Ok? && !o.Obj? && !o.Arr? ==> r.value == o
  {
    match o
    case Undefined => Raise(TypeError)
    case Null => Raise(TypeError)
    case Obj(_, _, _) => Ok(ObjPut(o, key, v))
    case Arr(e) =>
      (match ParseIndex(key)
       case Some(i) => Ok(Arr(ArrSet(e, i, v)))
       case None => Ok(o))
    case _ => Ok(o)
  }

  /** Position of the first `c` in `s`, or -1 (`s.indexOf(c)`). */
  function IndexOfChar(s: string, c: char): (r: int)
    ensures -1 <= r < |s|
    ensures r >= 0 ==> s[r] == c && forall j :: 0 <= j < r ==> s[j] != c
    ensures r == -1 <==> forall j :: 0 <= j < |s| ==> s[j] != c
  {
    if s == [] then -1
    else if s[0] == c then 0
    else
      var k := IndexOfChar(s[1..], c);
      if k == -1 then -1 else k + 1
  }

  /** `s.split(sep)` for a one-character separator. */
  function Split(s: string, sep: char): (r: seq<string>)
    ensures |r| >= 1
    ensures forall i :: 0 <= i < |r| ==> sep !in r[i]
    decreases |s|
  {
    var i := IndexOfChar(s, sep);
    if i < 0 then [s] else [s[..i]] + Split(s[i + 1..], sep)
  }

  /** `parts.join(sep)`. */
  function Join(parts: seq<string>, sep: string): string {
    if parts == [] then ""
    else if |parts| == 1 then parts[0]
    else parts[0] + sep + Join(parts[1..], sep)
  }

  lemma JoinCons(a: string, rest: seq<string>, sep: string)
    requires |rest| >= 1
    ensures Join([a] + rest, sep) == a + sep + Join(rest, sep)
  {
    assert ([a] + rest)[1..] == rest;
  }

  lemma SplitAt(s: string, sep: char, i: int)
    requires i == IndexOfChar(s, sep) && i >= 0
    ensures Split(s, sep) == [s[..i]] + Split(s[i + 1..], sep)
  {
    var r := Split(s, sep);
    var j := IndexOfChar(s, sep);
    assert r == (if j < 0 then [s] else [s[..j]] + Split(s[j + 1..], sep));
  }

  /** The first separator in `a + [sep] + b`, when `a` has none, ends `a`. */
  lemma IndexOfCharAfter(a: string, sep: char, b: string)
    requires sep !in a
    ensures IndexOfChar(a + [sep] + b, sep) == |a|
  {
    var s := a + [sep] + b;
    assert s[|a|] == sep;
    assert forall j :: 0 <= j < |a| ==> s[j] == a[j];
  }

  /** Joining parts that hold no separator and splitting again gives back the parts. */
  lemma {:induction false} SplitJoin(parts: seq<string>, sep: char)
    requires |parts| >= 1
    requires forall i :: 0 <= i < |parts| ==> sep !in parts[i]
    ensures Split(Join(parts, [sep]), sep) == parts
    decreases |parts|
  {
    if |parts| == 1 {
      assert Join(parts, [sep]) == parts[0];
    } else {
      var a, rest := parts[0], parts[1..];
      var b := Join(rest, [sep]);
      assert parts == [a] + rest;
      JoinCons(a, rest, [sep]);
      var s := a + [sep] + b;
      IndexOfCharAfter(a, sep, b);
      SplitAt(s, sep, |a|);
      assert s[..|a|] == a;
      assert s[|a| + 1..] == b;
      SplitJoin(rest, sep);
    }
  }

  /** Splitting and joining again with the same separator gives back the string. */
  lemma {:induction false} JoinSplit(s: string, sep: char)
    ensures Join(Split(s, sep), [sep]) == s
    decreases |s|
  {
    var i := IndexOfChar(s, sep);
    if i >= 0 {
      var tail := s[i + 1..];
      var rest := Split(tail, sep);
      JoinSplit(tail, sep);
      SplitAt(s, sep, i);
      JoinCons(s[..i], rest, [sep]);
      assert s == s[..i] + [sep] + tail;
    }
  }
}
