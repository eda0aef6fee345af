/**
 * `Err` (err.js): the library's error class. Its static table maps an error
 * type to a brief description; `_initial` turns every entry into a factory
 * `Err.<TYPE>(…)` building an `Err` of that type, and `fromResponseError`
 * builds an `Err` from the error a response reports.
 */
module Err {
  import opened JsValue

  /** An `Err` object: its `type`, `brief`, the `message` `Error` stores, and `statusCode`. */
  datatype ErrObj = ErrObj(errType: Value, brief: Value, message: string, statusCode: Value)

  /** An entry of the static table: a brief before `_initial`, a factory after. */
  datatype Entry = Brief(text: string) | Factory(errType: string, brief: Value)

  /** The entry as a JavaScript value: a string, or a function. */
  function EntryValue(e: Entry): (r: Value)
    ensures e.Factory? ==> r.Fun?
    ensures e.Brief? ==> r == Str(e.text)
  {
    match e
    case Brief(t) => Str(t)
    case Factory(_, _) => Fun(0)
  }

  /** The built-in error types, in the order they are assigned. */
  const BuiltinTypes: seq<string> := [
    "UNKNOWN", "FAIL", "REQUEST_ERROR", "INVALID_RESPONSE_FORMAT",
    "LOGIN_FAIL", "NEED_LOGIN",
    "MISSING_PARAM", "INVALID_PARAM", "DUPLICATE_SUBMIT", "INVALID_FILE", "NO_RESOURCE",
    "INTERNAL_EXCEPTION", "DB_EXCEPTION", "NOT_IMPLEMENTED"]

  /** The briefs of the built-in error types, by type. */
  const BuiltinBriefs: map<string, string> := map[
    "UNKNOWN" := "欧，不知道哪里出错啦！",
    "FAIL" := "系统错误",
    "REQUEST_ERROR" := "网络貌似不太给力哦！",
    "INVALID_RESPONSE_FORMAT" := "无效的响应格式。",
    "LOGIN_FAIL" := "登录失败啦！",
    "NEED_LOGIN" := "只有登录用户才能看哦，快去登录吧！",
    "MISSING_PARAM" := "缺少必须的请求参数。",
    "INVALID_PARAM" := "请求中包含无效参数。",
    "DUPLICATE_SUBMIT" := "不可重复执行该提交请求。",
    "INVALID_FILE" := "上传的文件不符合要求。",
    "NO_RESOURCE" := "找不到您想看的东西哦！",
    "INTERNAL_EXCEPTION" := "哎哟，服务器出错啦！",
    "DB_EXCEPTION" := "执行数据库操作时发生异常。",
    "NOT_IMPLEMENTED" := "该方法尚未实现。"]

  /** `Error(message)`: no message gives `""`, anything else its string form. */
  function MessageOf(params: seq<Value>): (r: string)
    ensures |params| > 0 && params[0].Str? ==> r == params[0].s
    ensures (|params| == 0 || params[0].Undefined?) ==> r == ""
  {
    if |params| == 0 || params[0].Undefined? then "" else ToJsString(params[0])
  }

  /** `new Err(type, brief, ...params)`: `type` and `brief` as given, the message from the first parameter. */
  function NewErr(t: Value, brief: Value, params: seq<Value>): (r: ErrObj)
    ensures r.errType == t && r.brief == brief
    ensures r.message == MessageOf(params)
    ensures r.statusCode == Undefined
  {
    ErrObj(t, brief, MessageOf(params), Undefined)
  }

  /**
   * Calling a table entry with the arguments `args`: a factory passes them on
   * as ONE array, so the message is their comma-joined string form; a brief
   * is a string, and calling it raises.
   */
  function CallEntry(e: Entry, args: seq<Value>): (r: Result<ErrObj>)
    ensures e.Brief? <==> r.Raise?
    ensures r.Raise? ==> r.exc == TypeError
    ensures e.Factory? ==> r == Ok(NewErr(Str(e.errType), e.brief, [Arr(args)]))
  {
    match e
    case Brief(_) => Raise(TypeError)
    case Factory(t, b) => Ok(NewErr(Str(t), b, [Arr(args)]))
  }

  /** The table after `_initial`: every listed key becomes a factory over the value it held. */
  function Initialized(keys: seq<string>, table: map<string, Entry>): (r: map<string, Entry>)
    ensures r.Keys == table.Keys
  {
    map k | k in table :: if k in keys then Factory(k, EntryValue(table[k])) else table[k]
  }

  /** The static side of `Err`: its enumerable properties, in `for…in` order. */
  class Registry {
    var keys: seq<string>
    var table: map<string, Entry>

    ghost predicate Valid()
      reads this
    {
      WfKeys(keys, table) && forall k :: k in table ==> k !in OwnStatics
    }

    /** The class as err.js leaves it when it is loaded: the built-in briefs. */
    constructor ()
      ensures keys == BuiltinTypes
      ensures table == map k | k in BuiltinBriefs :: Brief(BuiltinBriefs[k])
      ensures Valid()
    {
      keys := BuiltinTypes;
      table := map k | k in BuiltinBriefs :: Brief(BuiltinBriefs[k]);
      BuiltinWf();
      BuiltinNotStatic();
    }

    /** `Err._initial(config)`: `Err[key] = (...params) => new Err(key, value, params)` for every key. */
    method Initial()
      requires Valid()
      modifies this
      ensures Valid()
      ensures keys == old(keys)
      ensures table == Initialized(old(keys), old(table))
    {
      var i := 0;
      ghost var t0 := table;
      while i < |keys|
        invariant 0 <= i <= |keys|
        invariant keys == old(keys) && Distinct(keys)
        invariant table.Keys == t0.Keys && forall k :: k in t0 <==> k in keys
        invariant forall k :: k in table ==> table[k] == if k in keys[..i] then Factory(k, EntryValue(t0[k])) else t0[k]
      {
        var key := keys[i];
        var value := EntryValue(table[key]);
        assert key !in keys[..i] by {
          forall j | 0 <= j < i ensures keys[..i][j] != key {
            assert keys[..i][j] == keys[j];
          }
        }
        table := table[key := Factory(key, value)];
        assert keys[..i + 1] == keys[..i] + [key];
        i := i + 1;
      }
      assert keys[..i] == keys;
    }

    /**
     * `Err[t]`: the table's entry, else one of the class's own non-enumerable
     * properties, else undefined.
     */
    function Lookup(t: string): (r: Value)
      reads this
      ensures t in table ==> r == EntryValue(table[t])
      ensures t !in table ==> r == OwnStatic(t)
      ensures t !in table && t !in OwnStatics ==> r == Undefined
    {
      if t in table then EntryValue(table[t]) else OwnStatic(t)
    }

    /**
     * `Err.fromResponseError(error)`: when `Err[error.type]` is truthy it is
     * called with `error.message` (a table factory builds its `Err`; the
     * static `fromResponseError` runs again on the message; every other static
     * raises, being no function or, for `_initial`, returning undefined, so
     * that `err.statusCode = …` raises); otherwise a new `Err` whose type and
     * brief are both `error.type`. Then `statusCode` is copied.
     */
    function FromResponseError(error: Value): (r: Result<ErrObj>)
      reads this
      ensures IsNullish(error) ==> r == Raise(TypeError)
      ensures r.Ok? ==> r.value.statusCode == GetProp(error, "statusCode").value
      decreases error
    {
      match GetProp(error, "type")
      case Raise(x) => Raise(x)
      case Ok(tv) =>
        var key := ToJsString(tv);
        var message := GetProp(error, "message").value;
        var status := GetProp(error, "statusCode").value;
        var made :=
          if !Truthy(Lookup(key)) then Ok(NewErr(tv, tv, [message]))
          else if key in table then CallEntry(table[key], [message])
          else if key == "fromResponseError" then
            (if error.Obj? && "message" in error.fields then FromResponseError(error.fields["message"])
             else Raise(TypeError))
          else Raise(TypeError);
        match made
        case Raise(x) => Raise(x)
        case Ok(err) => Ok(err.(statusCode := status))
    }
  }

  /** The own properties class `Err` has besides its table: `name`, `length`, `prototype` and its two static methods. */
  const OwnStatics: set<string> := {"name", "length", "prototype", "fromResponseError", "_initial"}

  /** Their values: the class name, the constructor's two named parameters, an object, and two functions. */
  function OwnStatic(t: string): (r: Value)
    ensures t in OwnStatics <==> Truthy(r)
    ensures t !in OwnStatics ==> r == Undefined
  {
    if t == "name" then Str("Err")
    else if t == "length" then Num(2)
    else if t == "prototype" then Obj(PlainProto, [], map[])
    else if t == "fromResponseError" then Fun(1)
    else if t == "_initial" then Fun(2)
    else Undefined
  }

  ghost predicate WfKeys(keys: seq<string>, table: map<string, Entry>) {
    Distinct(keys) && forall k :: k in table <==> k in keys
  }

  lemma BuiltinWf()
    ensures WfKeys(BuiltinTypes, map k | k in BuiltinBriefs :: Brief(BuiltinBriefs[k]))
  {
    assert forall k :: k in BuiltinBriefs <==> k in BuiltinTypes;
  }

  lemma BuiltinNotStatic()
    ensures forall k :: k in BuiltinBriefs ==> k !in OwnStatics
  {
    assert forall k :: k in BuiltinBriefs <==> k in BuiltinTypes;
    forall i | 0 <= i < |BuiltinTypes|
      ensures BuiltinTypes[i] !in OwnStatics
    {
    }
  }

  /** After `_initial` from the built-in briefs, every built-in type has the factory over its brief. */
  lemma InitializedBuiltins(t: string)
    requires t in BuiltinBriefs
    ensures Initialized(BuiltinTypes, map k | k in BuiltinBriefs :: Brief(BuiltinBriefs[k]))[t]
      == Factory(t, Str(BuiltinBriefs[t]))
  {
    assert t in BuiltinTypes;
  }

  /**
   * A factory called with any arguments builds the `Err` of its type and
   * brief, whose message is the arguments joined with commas
   * (`Array.prototype.join` on `arguments`).
   */
  lemma FactoryCall(t: string, b: Value, args: seq<Value>)
    ensures CallEntry(Factory(t, b), args) == Ok(ErrObj(Str(t), b, JoinElems(args), Undefined))
  {
    assert MessageOf([Arr(args)]) == JoinElems(args);
  }

  /** A factory given one string builds the `Err` of its type with that string as message. */
  lemma FactoryMessage(t: string, brief: string, msg: string)
    ensures CallEntry(Factory(t, Str(brief)), [Str(msg)]) == Ok(ErrObj(Str(t), Str(brief), msg, Undefined))
  {
    assert JoinElems([Str(msg)]) == msg;
  }

  /** A factory given several arguments joins them with commas into the message. */
  lemma FactoryJoinsArgs(t: string, brief: string, a: string, b: string)
    ensures CallEntry(Factory(t, Str(brief)), [Str(a), Str(b)]) == Ok(ErrObj(Str(t), Str(brief), a + "," + b, Undefined))
  {
    var args := [Str(a), Str(b)];
    assert args[1..] == [Str(b)];
    assert JoinElems([Str(b)]) == b;
    assert JoinElems(args) == a + "," + b;
    assert MessageOf([Arr(args)]) == a + "," + b;
  }

  /**
   * `fromResponseError` with a type the initialised table holds: that type,
   * its brief, the message and the status code of the response error.
   */
  lemma FromKnownType(r: Registry, t: string, msg: string, status: Value)
    requires t in BuiltinBriefs
    requires r.table == Initialized(BuiltinTypes, map k | k in BuiltinBriefs :: Brief(BuiltinBriefs[k]))
    ensures r.FromResponseError(Obj(PlainProto, ["type", "message", "statusCode"],
        map["type" := Str(t), "message" := Str(msg), "statusCode" := status]))
      == Ok(ErrObj(Str(t), Str(BuiltinBriefs[t]), msg, status))
  {
    InitializedBuiltins(t);
    FactoryMessage(t, BuiltinBriefs[t], msg);
  }

  /**
   * `fromResponseError` with a type the table does not hold: type and brief
   * are both that type; the message is the message reported.
   */
  lemma FromUnknownType(r: Registry, t: string, msg: string, status: Value)
    requires t !in r.table && t !in OwnStatics
    ensures r.FromResponseError(Obj(PlainProto, ["type", "message", "statusCode"],
        map["type" := Str(t), "message" := Str(msg), "statusCode" := status]))
      == Ok(ErrObj(Str(t), Str(t), msg, status))
  {
  }

  /**
   * `fromResponseError` with a type naming one of the class's own properties
   * that is not a function (`name`, `length`, `prototype`) or `_initial`
   * (which returns undefined): it raises `TypeError`.
   */
  lemma FromOwnStaticRaises(r: Registry, t: string, msg: string, status: Value)
    requires t !in r.table && t in OwnStatics && t != "fromResponseError"
    ensures r.FromResponseError(Obj(PlainProto, ["type", "message", "statusCode"],
        map["type" := Str(t), "message" := Str(msg), "statusCode" := status]))
      == Raise(TypeError)
  {
  }

  /**
   * `fromResponseError` with the type `"fromResponseError"` runs itself on the
   * message and then overwrites the status code.
   */
  lemma FromSelfType(r: Registry, inner: Value, status: Value)
    requires "fromResponseError" !in r.table
    ensures r.FromResponseError(Obj(PlainProto, ["type", "message", "statusCode"],
        map["type" := Str("fromResponseError"), "message" := inner, "statusCode" := status]))
      == match r.FromResponseError(inner)
         case Raise(x) => Raise(x)
         case Ok(e) => Ok(e.(statusCode := status))
  {
  }

  /** With a string message that inner call finds no `type`: the result is an `Err` whose type and brief are undefined. */
  lemma FromSelfTypeString(r: Registry, msg: string, status: Value)
    requires "fromResponseError" !in r.table && "undefined" !in r.table
    ensures r.FromResponseError(Obj(PlainProto, ["type", "message", "statusCode"],
        map["type" := Str("fromResponseError"), "message" := Str(msg), "statusCode" := status]))
      == Ok(ErrObj(Undefined, Undefined, "", status))
  {
    FromSelfType(r, Str(msg), status);
    assert r.FromResponseError(Str(msg)) == Ok(ErrObj(Undefined, Undefined, "", Undefined));
  }

  /** Before `_initial` the entries are strings: `fromResponseError` of a known type raises on the call. */
  lemma FromKnownTypeUninitialized(r: Registry, t: string, msg: string)
    requires t in r.table && r.table[t] == Brief(BuiltinBriefs["FAIL"])
    ensures r.FromResponseError(Obj(PlainProto, ["type", "message"], map["type" := Str(t), "message" := Str(msg)]))
      == Raise(TypeError)
  {
  }

  /** A second `_initial` wraps the factories themselves: the brief of what they build is then a function. */
  lemma InitialTwice(keys: seq<string>, table: map<string, Entry>, k: string)
    requires k in table && k in keys
    ensures Initialized(keys, Initialized(keys, table))[k].brief.Fun?
  {
  }
}
