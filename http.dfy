/**
 * `Http` (http.js): the module variable `host`, set by `_initial`; the
 * options `request`, `submit` and `upload` hand to the network layer. A
 * request string `"METHOD /path"` is split at its first space (no space
 * means `GET`), the path is appended to `host`, and the caller's options are
 * merged with the request's own fields by `weobj.extend`. The network calls
 * themselves, and the promises around them, are not modelled: each operation
 * yields the options object it would pass on.
 */
module Http {
  import opened JsValue
  import opened WeObj

  /** The message `_initial` throws when the configuration names no host. */
  const MissingHost := "Failed to initialize module welib.HTTP: missing field 'host' in config"

  /** The message `submit` and `upload` throw without a form id. */
  const MissingFormId := "missing e or e.detail.formId"

  /** The `success` and `fail` callbacks `request` and `upload` create, by identity. */
  const SuccessCallback: Value := Fun(1)
  const FailCallback: Value := Fun(2)

  // ------------------------------------------------------- method and URL

  /** `urlWithMethod.indexOf(' ')` */
  function SplitPosition(u: string): int {
    IndexOfChar(u, ' ')
  }

  /** `s.substr(start)` and `s.substr(start, len)` for the non-negative arguments used here. */
  function Substr(s: string, start: nat, len: nat): (r: string)
    ensures |r| <= len
    ensures start + len <= |s| ==> r == s[start..start + len]
  {
    if start >= |s| then [] else if start + len <= |s| then s[start..start + len] else s[start..]
  }

  /** The request method: text before the first space, `GET` when there is none. */
  function MethodOf(u: string): (r: string)
    ensures forall j :: 0 <= j < |r| ==> r[j] != ' '
    ensures (forall j :: 0 <= j < |u| ==> u[j] != ' ') <==> r == "GET" && RelativeUrl(u) == u
  {
    var p := SplitPosition(u);
    if p == -1 then "GET" else Substr(u, 0, p)
  }

  /** The relative URL: text after the first space, the whole string when there is none. */
  function RelativeUrl(u: string): (r: string)
    ensures |r| <= |u| && r == u[|u| - |r|..]
  {
    var p := SplitPosition(u);
    u[p + 1..]
  }

  /** A request string without a space is a `GET` of the whole string. */
  lemma SplitNoSpace(u: string)
    requires forall i :: 0 <= i < |u| ==> u[i] != ' '
    ensures MethodOf(u) == "GET"
    ensures RelativeUrl(u) == u
  {
  }

  /**
   * A request string with a space: the method is everything before the
   * first space (so it holds no space itself), the URL everything after it.
   */
  lemma SplitAtFirstSpace(u: string, i: nat)
    requires i < |u| && u[i] == ' ' && forall j :: 0 <= j < i ==> u[j] != ' '
    ensures MethodOf(u) == u[..i]
    ensures RelativeUrl(u) == u[i + 1..]
    ensures forall j :: 0 <= j < |MethodOf(u)| ==> MethodOf(u)[j] != ' '
  {
    assert SplitPosition(u) == i;
  }

  /** Composing a method without spaces and a URL with one space splits back into the two. */
  lemma SplitRoundTrip(m: string, url: string)
    requires forall j :: 0 <= j < |m| ==> m[j] != ' '
    ensures MethodOf(m + " " + url) == m
    ensures RelativeUrl(m + " " + url) == url
  {
    var u := m + " " + url;
    assert u[|m|] == ' ';
    SplitAtFirstSpace(u, |m|);
    assert u[..|m|] == m;
    assert u[|m| + 1..] == url;
  }

  /** The default request string of `submit` is a `GET` of `/noop`. */
  lemma NoopSplit()
    ensures MethodOf("/noop") == "GET" && RelativeUrl("/noop") == "/noop"
  {
    SplitNoSpace("/noop");
  }

  // ------------------------------------------------------------ options

  /** `options && options.login ? true : !!Session.get('skey')`, with the session's `skey` given. */
  function LoginWanted(options: Value, skey: Value): (r: bool)
    ensures Truthy(skey) ==> r
    ensures options.Obj? ==> (r <==> Truthy(Field(options.fields, "login")) || Truthy(skey))
    ensures !Truthy(options) ==> (r <==> Truthy(skey))
  {
    if Truthy(options) && Truthy(GetProp(options, "login").value) then true
    else Truthy(skey)
  }

  /** The object literal `request` merges over the caller's options. */
  function RequestFields(url: string, verb: string, login: bool, data: Value): (r: Value)
    ensures r.Obj? && WfObj(r.keys, r.fields)
  {
    Obj(PlainProto, ["url", "method", "login", "data", "success", "fail"],
      map["url" := Str(url), "method" := Str(verb), "login" := Bool(login), "data" := data,
          "success" := SuccessCallback, "fail" := FailCallback])
  }

  /** The URL, method and login flag of a request override the caller's options. */
  lemma RequestFieldsWin(options: Value, url: string, verb: string, login: bool, data: Value)
    requires !options.Arr?
    ensures Field(ExtendPair(options, RequestFields(url, verb, login, data)).fields, "url") == Str(url)
    ensures Field(ExtendPair(options, RequestFields(url, verb, login, data)).fields, "method") == Str(verb)
    ensures Field(ExtendPair(options, RequestFields(url, verb, login, data)).fields, "login") == Bool(login)
  {
    var lit := RequestFields(url, verb, login, data);
    var merged := ExtendPair(options, lit);
    LiteralWins(options, lit, "url");
    LiteralWins(options, lit, "method");
    LiteralWins(options, lit, "login");
  }

  /** The data and callback of a request are merged with the caller's. */
  lemma RequestFieldsMerge(options: Value, url: string, verb: string, login: bool, data: Value)
    requires !options.Arr? && Wf(options)
    ensures Field(ExtendPair(options, RequestFields(url, verb, login, data)).fields, "data") ==
      Merged(OptionField(options, "data"), data)
    ensures Field(ExtendPair(options, RequestFields(url, verb, login, data)).fields, "success") ==
      Merged(OptionField(options, "success"), SuccessCallback)
  {
    var lit := RequestFields(url, verb, login, data);
    ExtendPairFields(options, lit, "data");
    ExtendPairFields(options, lit, "success");
  }

  /** A function the caller gives as `success` survives the merge with the request's own. */
  lemma CallerSuccessKept(options: Value, url: string, verb: string, login: bool, data: Value)
    requires options.Obj? && Wf(options) && Field(options.fields, "success").Fun?
    ensures Field(ExtendPair(options, RequestFields(url, verb, login, data)).fields, "success") == Field(options.fields, "success")
  {
    var f := Field(options.fields, "success");
    RequestFieldsMerge(options, url, verb, login, data);
    assert ExtendOne(f, SuccessCallback) == Ok(f);
  }

  /** Every option a request does not set is the caller's. */
  lemma RequestFieldsOthers(options: Value, url: string, verb: string, login: bool, data: Value)
    requires !options.Arr? && Wf(options)
    ensures forall k :: k !in {"url", "method", "login", "data", "success", "fail"} ==>
      Field(ExtendPair(options, RequestFields(url, verb, login, data)).fields, k) == OptionField(options, k)
  {
    var lit := RequestFields(url, verb, login, data);
    forall k | k !in {"url", "method", "login", "data", "success", "fail"}
      ensures Field(ExtendPair(options, lit).fields, k) == OptionField(options, k)
    {
      ExtendPairFields(options, lit, k);
    }
  }

  /** What an own field of the caller's options reads as: nothing unless the options are an object. */
  function OptionField(options: Value, k: string): Value {
    if options.Obj? then Field(options.fields, k) else Undefined
  }

  /** `$.extend(a, b)`, that is `weobj.extend(a, b)`: both merged into a fresh plain object. */
  function ExtendPair(a: Value, b: Value): (r: Value)
    ensures r.Obj? && r.proto == PlainProto && Wf(r)
  {
    StaticExtendOk([a, b]);
    ExtendArgsWf(EmptyObj, [a, b]);
    StaticExtend([a, b]).value
  }

  /**
   * `$.extend(a, b)` of two well-formed non-arrays: a key `b` holds has the
   * merge of `a`'s value (undefined when `a` lacks it) and `b`'s; every other
   * key has `a`'s value.
   */
  lemma ExtendPairFields(a: Value, b: Value, k: string)
    requires !a.Arr? && !b.Arr? && Wf(a) && Wf(b)
    ensures Field(ExtendPair(a, b).fields, k) ==
      if b.Obj? && k in b.fields then Merged(OptionField(a, k), b.fields[k]) else OptionField(a, k)
  {
    ExtendOneOk(EmptyObj, a);
    var o1 := ExtendOne(EmptyObj, a).value;
    if a.Obj? {
      MergeRule(EmptyObj, a);
    }
    assert forall k :: Field(o1.fields, k) == OptionField(a, k);
    if b.Obj? {
      MergeRule(o1, b);
    }
    ExtendOneOk(o1, b);
    var o2 := ExtendOne(o1, b).value;
    ExtendPairSteps(a, b, o1, o2);
  }

  /** A key of the literal `lit` whose value is not an object holds that value after `$.extend(a, lit)`. */
  lemma LiteralWins(a: Value, lit: Value, k: string)
    requires !a.Arr? && lit.Obj? && WfObj(lit.keys, lit.fields)
    requires k in lit.fields && !IsRecord(lit.fields[k])
    ensures Field(ExtendPair(a, lit).fields, k) == lit.fields[k]
  {
    ExtendOneOk(EmptyObj, a);
    var o1 := ExtendOne(EmptyObj, a).value;
    MergeRule(o1, lit);
    var o2 := ExtendOne(o1, lit).value;
    ExtendPairSteps(a, lit, o1, o2);
  }

  lemma ExtendPairSteps(a: Value, b: Value, o1: Value, o2: Value)
    requires ExtendOne(EmptyObj, a) == Ok(o1) && ExtendOne(o1, b) == Ok(o2)
    ensures ExtendPair(a, b) == o2
  {
    assert Extend(o1, [b]) == Ok(o2) by {
      assert [b][1..] == [];
    }
    assert Extend(EmptyObj, [a, b]) == Extend(o1, [b]) by {
      assert [a, b][1..] == [b];
    }
  }

  /**
   * `!e || !e.detail.formId`: the form id of a submit event, or the
   * exception `submit` and `upload` throw (an event without `detail` raises
   * when the property is read).
   */
  function FormId(e: Value): (r: Result<Value>)
    ensures !Truthy(e) ==> r == Raise(PlainError(MissingFormId))
    ensures r.Ok? ==> Truthy(r.value)
    ensures e.Obj? && IsNullish(Field(e.fields, "detail")) ==> r == Raise(TypeError)
    ensures e.Obj? && Field(e.fields, "detail").Obj? ==>
      r == (if Truthy(Field(Field(e.fields, "detail").fields, "formId"))
            then Ok(Field(Field(e.fields, "detail").fields, "formId"))
            else Raise(PlainError(MissingFormId)))
  {
    if !Truthy(e) then Raise(PlainError(MissingFormId))
    else
      match GetProp(e, "detail")
      case Raise(x) => Raise(x)
      case Ok(detail) =>
        match GetProp(detail, "formId")
        case Raise(x) => Raise(x)
        case Ok(id) => if Truthy(id) then Ok(id) else Raise(PlainError(MissingFormId))
  }

  /** `$.extend({'X-WX-Formid': formId}, options ? options.header : null)` */
  function FormHeader(formId: Value, options: Value): (r: Value)
    ensures r.Obj?
  {
    var extra := if Truthy(options) then GetProp(options, "header").value else Null;
    ExtendPair(Obj(PlainProto, ["X-WX-Formid"], map["X-WX-Formid" := formId]), extra)
  }

  /** The options `submit` adds: the form header and `login: true`. */
  function SubmitOptions(formId: Value, options: Value): (r: Value)
    ensures r.Obj?
  {
    var lit := Obj(PlainProto, ["header", "login"], map["header" := FormHeader(formId, options), "login" := Bool(true)]);
    ExtendPair(options, lit)
  }

  /**
   * The form header carries the event's form id unless the caller's own
   * `header` sets `X-WX-Formid`; the caller's other header fields are kept.
   */
  lemma FormHeaderFields(formId: Value, options: Value)
    requires options.Obj?
    requires !Field(options.fields, "header").Arr? && Wf(Field(options.fields, "header"))
    ensures !(Field(options.fields, "header").Obj? && "X-WX-Formid" in Field(options.fields, "header").fields) ==>
      Field(FormHeader(formId, options).fields, "X-WX-Formid") == formId
    ensures forall k :: k != "X-WX-Formid" ==>
      Field(FormHeader(formId, options).fields, k) == OptionField(Field(options.fields, "header"), k)
  {
    var h := Field(options.fields, "header");
    var lit := Obj(PlainProto, ["X-WX-Formid"], map["X-WX-Formid" := formId]);
    assert FormHeader(formId, options) == ExtendPair(lit, h);
    ExtendPairFields(lit, h, "X-WX-Formid");
    forall k | k != "X-WX-Formid"
      ensures Field(FormHeader(formId, options).fields, k) == OptionField(h, k)
    {
      ExtendPairFields(lit, h, k);
    }
  }

  /** The object literal `upload` merges over the caller's options. */
  function UploadFields(url: string, header: Value, file: Value, name: Value, data: Value): (r: Value)
    ensures r.Obj? && WfObj(r.keys, r.fields)
  {
    var ks := ["url", "header", "login", "filePath", "name", "formData", "success", "fail"];
    var m := map["url" := Str(url), "header" := header, "login" := Bool(true), "filePath" := file, "name" := name,
                 "formData" := data, "success" := SuccessCallback, "fail" := FailCallback];
    assert Distinct(ks) by {
      assert forall i, j :: 0 <= i < j < |ks| ==> ks[i] != ks[j] by {
        assert ks[3][1] != ks[7][1] && ks[5][1] != ks[7][1] && ks[3][1] != ks[5][1];
      }
    }
    assert forall k :: k in m <==> k in ks by {
      assert m.Keys == {"url", "header", "login", "filePath", "name", "formData", "success", "fail"};
    }
    Obj(PlainProto, ks, m)
  }

  /** The URL and login flag of an upload override the caller's. */
  lemma UploadFieldsWin(options: Value, url: string, header: Value, file: Value, name: Value, data: Value)
    requires !options.Arr?
    ensures Field(ExtendPair(options, UploadFields(url, header, file, name, data)).fields, "url") == Str(url)
    ensures Field(ExtendPair(options, UploadFields(url, header, file, name, data)).fields, "login") == Bool(true)
  {
    var lit := UploadFields(url, header, file, name, data);
    LiteralWins(options, lit, "url");
    LiteralWins(options, lit, "login");
  }

  /** The file, name and form data of an upload are merged with the caller's. */
  lemma UploadFieldsMerge(options: Value, url: string, header: Value, file: Value, name: Value, data: Value)
    requires !options.Arr? && Wf(options)
    ensures Field(ExtendPair(options, UploadFields(url, header, file, name, data)).fields, "filePath") ==
      Merged(OptionField(options, "filePath"), file)
    ensures Field(ExtendPair(options, UploadFields(url, header, file, name, data)).fields, "name") ==
      Merged(OptionField(options, "name"), name)
    ensures Field(ExtendPair(options, UploadFields(url, header, file, name, data)).fields, "formData") ==
      Merged(OptionField(options, "formData"), data)
  {
    var lit := UploadFields(url, header, file, name, data);
    assert Wf(lit) && !lit.Arr?;
    assert Field(ExtendPair(options, lit).fields, "filePath") == Merged(OptionField(options, "filePath"), file) by {
      ExtendPairFields(options, lit, "filePath");
    }
    assert Field(ExtendPair(options, lit).fields, "name") == Merged(OptionField(options, "name"), name) by {
      ExtendPairFields(options, lit, "name");
    }
    assert Field(ExtendPair(options, lit).fields, "formData") == Merged(OptionField(options, "formData"), data) by {
      ExtendPairFields(options, lit, "formData");
    }
  }

  /** The options `submit` passes on always ask for login. */
  lemma SubmitOptionsLogin(formId: Value, options: Value)
    requires !options.Arr?
    ensures Field(SubmitOptions(formId, options).fields, "login") == Bool(true)
  {
    var lit := Obj(PlainProto, ["header", "login"], map["header" := FormHeader(formId, options), "login" := Bool(true)]);
    LiteralWins(options, lit, "login");
  }

  /** The header `submit` passes on: the caller's header merged with the form header. */
  lemma SubmitOptionsHeader(formId: Value, options: Value)
    requires !options.Arr? && Wf(options)
    ensures Field(SubmitOptions(formId, options).fields, "header") ==
      Merged(OptionField(options, "header"), FormHeader(formId, options))
  {
    var lit := Obj(PlainProto, ["header", "login"], map["header" := FormHeader(formId, options), "login" := Bool(true)]);
    ExtendPairFields(options, lit, "header");
  }

  /** The module state of http.js: `host`, and the login URL handed to the network layer. */
  class HttpModule {
    var host: Value
    var loginUrl: string

    /** The module as it is loaded: an empty host. */
    constructor ()
      ensures host == Str("") && loginUrl == ""
    {
      host := Str("");
      loginUrl := "";
    }

    /**
     * `Http._initial(config)`: a falsy `config.host` throws and changes
     * nothing; otherwise the host is stored and the login URL is the host
     * followed by `/login`.
     */
    method Initial(config: Value) returns (r: Result<Value>)
      modifies this
      ensures IsNullish(config) ==> r == Raise(TypeError) && unchanged(this)
      ensures !IsNullish(config) && !Truthy(GetProp(config, "host").value) ==>
        r == Raise(PlainError(MissingHost)) && unchanged(this)
      ensures !IsNullish(config) && Truthy(GetProp(config, "host").value) ==>
        r == Ok(Undefined) && host == GetProp(config, "host").value && loginUrl == ToJsString(host) + "/login"
    {
      var h := GetProp(config, "host");
      if h.Raise? {
        return Raise(h.exc);
      }
      if !Truthy(h.value) {
        return Raise(PlainError(MissingHost));
      }
      host := h.value;
      loginUrl := ToJsString(host) + "/login";
      return Ok(Undefined);
    }

    /**
     * `Http.request(urlWithMethod, data, options)`: the options passed to the
     * network layer. A request string that is not a string has no `indexOf`
     * and `substr`, and raises.
     */
    function Request(urlWithMethod: Value, data: Value, options: Value, skey: Value): (r: Result<Value>)
      reads this
      ensures !urlWithMethod.Str? <==> r.Raise?
      ensures r.Raise? ==> r.exc == TypeError
      ensures r.Ok? ==> r.value.Obj?
    {
      if !urlWithMethod.Str? then Raise(TypeError)
      else
        var u := urlWithMethod.s;
        var fields := RequestFields(ToJsString(host) + RelativeUrl(u), MethodOf(u), LoginWanted(options, skey), data);
        Ok(ExtendPair(options, fields))
    }

    /**
     * The request's own fields of its options: `url` is the host followed by
     * the relative URL, `method` the split method, `login` the login decision,
     * whatever the caller's options held under those names.
     */
    lemma RequestOwnFields(u: string, data: Value, options: Value, skey: Value)
      requires !options.Arr?
      ensures Request(Str(u), data, options, skey).Ok?
      ensures Field(Request(Str(u), data, options, skey).value.fields, "url") == Str(ToJsString(host) + RelativeUrl(u))
      ensures Field(Request(Str(u), data, options, skey).value.fields, "method") == Str(MethodOf(u))
      ensures Field(Request(Str(u), data, options, skey).value.fields, "login") == Bool(LoginWanted(options, skey))
    {
      var url, verb, login := ToJsString(host) + RelativeUrl(u), MethodOf(u), LoginWanted(options, skey);
      assert Request(Str(u), data, options, skey) == Ok(ExtendPair(options, RequestFields(url, verb, login, data)));
      RequestFieldsWin(options, url, verb, login, data);
    }

    /**
     * The rest of a request's options: `data` is the caller's `data` merged
     * with the given one, the `success` callback the caller's merged with the
     * request's own, and every option `request` does not set is the caller's.
     */
    lemma RequestOptions(u: string, data: Value, options: Value, skey: Value)
      requires !options.Arr? && Wf(options)
      ensures Request(Str(u), data, options, skey).Ok?
      ensures Field(Request(Str(u), data, options, skey).value.fields, "data") == Merged(OptionField(options, "data"), data)
      ensures Field(Request(Str(u), data, options, skey).value.fields, "success") == Merged(OptionField(options, "success"), SuccessCallback)
      ensures forall k :: k !in {"url", "method", "login", "data", "success", "fail"} ==>
        Field(Request(Str(u), data, options, skey).value.fields, k) == OptionField(options, k)
    {
      var url, verb, login := ToJsString(host) + RelativeUrl(u), MethodOf(u), LoginWanted(options, skey);
      assert Request(Str(u), data, options, skey) == Ok(ExtendPair(options, RequestFields(url, verb, login, data)));
      RequestFieldsMerge(options, url, verb, login, data);
      RequestFieldsOthers(options, url, verb, login, data);
    }

    /** An option `request` does not set is the caller's. */
    lemma RequestOtherKey(u: string, data: Value, options: Value, skey: Value, k: string)
      requires !options.Arr? && Wf(options)
      requires k !in {"url", "method", "login", "data", "success", "fail"}
      ensures Request(Str(u), data, options, skey).Ok?
      ensures Field(Request(Str(u), data, options, skey).value.fields, k) == OptionField(options, k)
    {
      var url, verb, login := ToJsString(host) + RelativeUrl(u), MethodOf(u), LoginWanted(options, skey);
      assert Request(Str(u), data, options, skey) == Ok(ExtendPair(options, RequestFields(url, verb, login, data)));
      RequestFieldsOthers(options, url, verb, login, data);
    }

    /** With no object `data` on both sides, the given `data` replaces the caller's. */
    lemma RequestData(u: string, data: Value, options: Value, skey: Value)
      requires !options.Arr? && Wf(options)
      requires !IsRecord(OptionField(options, "data")) || !IsRecord(data)
      ensures Request(Str(u), data, options, skey).Ok?
      ensures Field(Request(Str(u), data, options, skey).value.fields, "data") == data
    {
      RequestOptions(u, data, options, skey);
    }

    /**
     * A function the caller passes as `options.success` is merged with the
     * request's own callback, which leaves it as it was: the caller's
     * function, not the request's, is handed to the network layer.
     */
    lemma CallerCallbackKept(u: string, data: Value, options: Value, skey: Value)
      requires options.Obj? && Wf(options) && Field(options.fields, "success").Fun?
      ensures Request(Str(u), data, options, skey).Ok?
      ensures Field(Request(Str(u), data, options, skey).value.fields, "success") == Field(options.fields, "success")
    {
      var url, verb, login := ToJsString(host) + RelativeUrl(u), MethodOf(u), LoginWanted(options, skey);
      assert Request(Str(u), data, options, skey) == Ok(ExtendPair(options, RequestFields(url, verb, login, data)));
      CallerSuccessKept(options, url, verb, login, data);
    }

    /**
     * `Http.submit(e, urlWithMethod, data, options)` as written: after the
     * checks it calls `request`, a name http.js does not bind (the method is
     * `Http.request`), so every call that passes the checks raises.
     */
    function SubmitAsWritten(e: Value, urlWithMethod: Value, data: Value, options: Value, skey: Value): (r: Result<Value>)
      reads this
      ensures FormId(e).Raise? ==> r == Raise(FormId(e).exc)
      ensures FormId(e).Ok? ==> r == Raise(ReferenceError("request"))
    {
      match FormId(e)
      case Raise(x) => Raise(x)
      case Ok(_) => Raise(ReferenceError("request"))
    }

    /**
     * `submit` as intended: the request, by default to `/noop`, with the
     * options the caller gave plus the form header and `login: true`.
     */
    function Submit(e: Value, urlWithMethod: Value, data: Value, options: Value, skey: Value): (r: Result<Value>)
      reads this
      ensures FormId(e).Raise? ==> r == Raise(FormId(e).exc)
      ensures FormId(e).Ok? && (urlWithMethod.Str? || urlWithMethod.Undefined?) ==> r.Ok?
    {
      match FormId(e)
      case Raise(x) => Raise(x)
      case Ok(id) =>
        var u := if urlWithMethod.Undefined? then Str("/noop") else urlWithMethod;
        Request(u, data, SubmitOptions(id, options), skey)
    }

    /** Wherever `submit` (as written) gets past its checks, the intended `submit` yields request options. */
    lemma SubmitFinding(e: Value, data: Value, options: Value, skey: Value)
      requires FormId(e).Ok?
      ensures SubmitAsWritten(e, Undefined, data, options, skey) == Raise(ReferenceError("request"))
      ensures Submit(e, Undefined, data, options, skey).Ok?
    {
    }

    /**
     * A submitted request always asks for login, and without a request
     * string goes by `GET` to the host followed by `/noop`.
     */
    lemma SubmitForcesLogin(e: Value, urlWithMethod: Value, data: Value, options: Value, skey: Value)
      requires FormId(e).Ok? && (urlWithMethod.Str? || urlWithMethod.Undefined?)
      requires !options.Arr?
      ensures Submit(e, urlWithMethod, data, options, skey).Ok?
      ensures Field(Submit(e, urlWithMethod, data, options, skey).value.fields, "login") == Bool(true)
      ensures urlWithMethod.Undefined? ==>
        Field(Submit(e, urlWithMethod, data, options, skey).value.fields, "url") == Str(ToJsString(host) + "/noop") &&
        Field(Submit(e, urlWithMethod, data, options, skey).value.fields, "method") == Str("GET")
    {
      var id := FormId(e).value;
      var opts := SubmitOptions(id, options);
      SubmitOptionsLogin(id, options);
      assert LoginWanted(opts, skey);
      var u := if urlWithMethod.Undefined? then Str("/noop") else urlWithMethod;
      assert Submit(e, urlWithMethod, data, options, skey) == Request(u, data, opts, skey);
      RequestOwnFields(u.s, data, opts, skey);
      if urlWithMethod.Undefined? {
        NoopSplit();
      }
    }

    /**
     * `Http.upload(e, url, file, name, data, options)`: after the checks, the
     * upload options are the caller's with the URL on the host, the form
     * header, `login: true`, the file, its name and the form data.
     */
    function Upload(e: Value, url: Value, file: Value, name: Value, data: Value, options: Value): (r: Result<Value>)
      reads this
      ensures FormId(e).Raise? ==> r == Raise(FormId(e).exc)
      ensures FormId(e).Ok? ==> r.Ok? && r.value.Obj?
    {
      match FormId(e)
      case Raise(x) => Raise(x)
      case Ok(id) =>
        Ok(ExtendPair(options, UploadFields(ToJsString(host) + ToJsString(url), FormHeader(id, options), file, name, data)))
    }

    /**
     * An upload goes to the host followed by the given URL and asks for
     * login; the file path, name and form data are the given ones unless
     * the caller's options hold objects under those names to merge them into.
     */
    lemma UploadOptions(e: Value, url: Value, file: Value, name: Value, data: Value, options: Value)
      requires FormId(e).Ok? && !options.Arr? && Wf(options)
      ensures Upload(e, url, file, name, data, options).Ok?
      ensures Field(Upload(e, url, file, name, data, options).value.fields, "url") == Str(ToJsString(host) + ToJsString(url))
      ensures Field(Upload(e, url, file, name, data, options).value.fields, "login") == Bool(true)
      ensures Field(Upload(e, url, file, name, data, options).value.fields, "filePath") == Merged(OptionField(options, "filePath"), file)
      ensures Field(Upload(e, url, file, name, data, options).value.fields, "name") == Merged(OptionField(options, "name"), name)
      ensures Field(Upload(e, url, file, name, data, options).value.fields, "formData") == Merged(OptionField(options, "formData"), data)
    {
      var id := FormId(e).value;
      var lit := UploadFields(ToJsString(host) + ToJsString(url), FormHeader(id, options), file, name, data);
      assert Upload(e, url, file, name, data, options) == Ok(ExtendPair(options, lit));
      UploadFieldsWin(options, ToJsString(host) + ToJsString(url), FormHeader(id, options), file, name, data);
      UploadFieldsMerge(options, ToJsString(host) + ToJsString(url), FormHeader(id, options), file, name, data);
    }

    /**
     * The header of a submitted request is the form header (the event's form
     * id under the caller's own header fields), merged into the caller's
     * header when that is an object; without a header of the caller's, it
     * carries the form id.
     */
    lemma SubmitHeader(e: Value, urlWithMethod: Value, data: Value, options: Value, skey: Value)
      requires FormId(e).Ok? && (urlWithMethod.Str? || urlWithMethod.Undefined?)
      requires !options.Arr? && Wf(options)
      ensures Submit(e, urlWithMethod, data, options, skey).Ok?
      ensures Field(Submit(e, urlWithMethod, data, options, skey).value.fields, "header") ==
        Merged(OptionField(options, "header"), FormHeader(FormId(e).value, options))
    {
      var id := FormId(e).value;
      var opts := SubmitOptions(id, options);
      SubmitOptionsHeader(id, options);
      var u := if urlWithMethod.Undefined? then Str("/noop") else urlWithMethod;
      assert Submit(e, urlWithMethod, data, options, skey) == Request(u, data, opts, skey);
      RequestOtherKey(u.s, data, opts, skey, "header");
    }
  }
}
