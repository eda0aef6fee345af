/**
 * What the two page extensions (extension/page.js and page-ext.js) share:
 * the outcome of an awaited user callback, the trace of calls into user code
 * and the host, the loading flags `setLoading` writes, the cross-page mailbox
 * `Page.dataAcross`, the path `getPath` builds and the URL the navigation
 * wrappers build.
 */
module PageCommon {
  import opened JsValue
  import opened WeObj
  import Url

  /** What a callback threw: a value of the program's, or an error the language raised. */
  datatype Thrown = Threw(v: Value) | Raised(e: Exc)

  /** A thrown error object is truthy; a thrown value as the value is. */
  predicate ThrownTruthy(t: Thrown) {
    match t
    case Threw(v) => Truthy(v)
    case Raised(_) => true
  }

  /** An awaited callback: it returned `false`, returned anything else, or threw. */
  datatype Outcome = Continue | Veto | Throw(ex: Thrown)

  /** A call into user code or the host, in the order the page makes them. */
  datatype Event =
    | BeforeLoadCalled              // `$.App.beforePageLoad(this)`, or the configured page loading function
    | GlobalsSet                    // `this.setData({ '$': $.AppData })`
    | UserLoadCalled(options: Value) // the page's own `onLoad(loadOptions)`
    | UserShowCalled                // the page's own `onShow()`
    | DialogResolved(result: Value) // the pending `dialogPageResolve(result)`
    | RefreshStopped                // `wx.stopPullDownRefresh()`
    | ErrorShown(ex: Thrown)        // `$.Modal.showError('页面刷新失败', ex)`

  // ------------------------------------------------------------- mailbox

  /** `Page.dataAcross`: absent until the first push, then an object. */
  type Across = Option<map<string, Value>>

  /** The mailbox after `pushData(key, value)`: created when absent, then the key set. */
  function Pushed(a: Across, key: string, value: Value): (r: Across)
    ensures r.Some? && key in r.value && r.value[key] == value
    ensures a.Some? ==> forall k :: k in a.value && k != key ==> k in r.value && r.value[k] == a.value[k]
    ensures a.Some? ==> r.value.Keys == a.value.Keys + {key}
    ensures a.None? ==> r.value.Keys == {key}
  {
    var m := if a.None? then map[] else a.value;
    Some(m[key := value])
  }

  /** What `pullData(key)` returns, and the mailbox after it: the key is deleted. */
  function Pulled(a: Across, key: string): (r: (Value, Across))
    ensures a.None? ==> r == (Null, None)
    ensures a.Some? ==> r.0 == Field(a.value, key) && r.1 == Some(a.value - {key})
  {
    if a.None? then (Null, None) else (Field(a.value, key), Some(a.value - {key}))
  }

  /** A pull returns what the last push under that key stored. */
  lemma PullAfterPush(a: Across, key: string, value: Value)
    ensures Pulled(Pushed(a, key, value), key).0 == value
  {
  }

  /** A second pull of the same key finds nothing: the first one deleted it. */
  lemma PullTwice(a: Across, key: string)
    requires a.Some?
    ensures Pulled(Pulled(a, key).1, key).0 == Undefined
  {
  }

  /** Before any push the mailbox does not exist and every pull returns null. */
  lemma PullBeforePush(key: string)
    ensures Pulled(None, key) == (Null, None)
  {
  }

  /** Pushing and pulling different keys do not disturb each other. */
  lemma PushPullOtherKey(a: Across, k1: string, v: Value, k2: string)
    requires a.Some? && k1 != k2
    ensures Pulled(Pushed(a, k1, v), k2).0 == Pulled(a, k2).0
    ensures Pulled(Pushed(a, k1, v), k2).1 == Pushed(Pulled(a, k2).1, k1, v)
  {
    assert (a.value[k1 := v]) - {k2} == (a.value - {k2})[k1 := v];
  }

  /** `Page.dataAcross` with its two functions. */
  class Mailbox {
    var dataAcross: Across

    /** Before any page pushes anything. */
    constructor ()
      ensures dataAcross == None
    {
      dataAcross := None;
    }

    /** `Page.pushData(key, value)` */
    method PushData(key: string, value: Value)
      modifies this
      ensures dataAcross == Pushed(old(dataAcross), key, value)
    {
      if dataAcross.None? {
        dataAcross := Some(map[]);
      }
      dataAcross := Some(dataAcross.value[key := value]);
    }

    /** `Page.pullData(key)` */
    method PullData(key: string) returns (r: Value)
      modifies this
      ensures (r, dataAcross) == Pulled(old(dataAcross), key)
    {
      if dataAcross.None? {
        return Null;
      }
      r := Field(dataAcross.value, key);
      dataAcross := Some(dataAcross.value - {key});
    }
  }

  // -------------------------------------------------------- loading flags

  /** `data.loading` and `data.loadingError` of a page. */
  datatype Flags = Flags(loading: bool, loadingError: Option<Thrown>)

  /** The flags before any `setLoading`: loading, no error. */
  const InitialFlags := Flags(true, None)

  /**
   * The flags `setLoading(isLoading, ex)` writes: loading as asked; an error
   * only when not loading and given a truthy one, and then exactly that one.
   */
  function LoadingFlags(isLoading: bool, ex: Option<Thrown>): (r: Flags)
    ensures r.loading == isLoading
    ensures r.loadingError.Some? <==> !isLoading && ex.Some? && ThrownTruthy(ex.value)
    ensures r.loadingError.Some? ==> r.loadingError == ex
  {
    if isLoading then Flags(true, None)
    else if ex.None? || !ThrownTruthy(ex.value) then Flags(false, None)
    else Flags(false, ex)
  }

  /** `setLoading(true)` always clears the error; a later `setLoading(false)` without error leaves none. */
  lemma LoadingCleared(ex: Option<Thrown>)
    ensures LoadingFlags(true, ex) == Flags(true, None)
    ensures LoadingFlags(false, None) == Flags(false, None)
  {
  }

  // ----------------------------------------------------------------- path

  /**
   * `getPath()`: `/` and the route, then `?` and the parameter string of the
   * options unless they are empty.
   */
  function PathOf(c: Url.Codec, route: string, options: Value): (r: Result<string>)
    ensures IsEmpty(options, false) ==> r == Ok("/" + route)
    ensures !IsEmpty(options, false) ==> r.Ok? && r == Ok("/" + route + "?" + Url.ToParamString(c, options).value)
  {
    if IsEmpty(options, false) then Ok("/" + route)
    else
      NonEmptyIsObject(options);
      match Url.ToParamString(c, options)
      case Raise(x) => Raise(x)
      case Ok(ps) => Ok("/" + route + "?" + ps)
  }

  /** Only an object has an entry for `each` to visit. */
  lemma NonEmptyIsObject(o: Value)
    requires !IsEmpty(o, false)
    ensures IsObject(o)
  {
    IsEmptyIffNoVisit(o, (k, v) => Bool(false), false);
  }

  // ----------------------------------------------------------- navigation

  /** The URL with parameters appended: after `&` when it already has a query, after `?` otherwise. */
  function WithParams(url: string, ps: string): (r: string)
    ensures '?' in url ==> r == url + "&" + ps
    ensures '?' !in url ==> r == url + "?" + ps
  {
    if IndexOfChar(url, '?') >= 0 then url + "&" + ps else url + "?" + ps
  }

  /**
   * `option.url += …` in `navigateTo`, `redirectTo` and `reLaunch`: with
   * truthy `option.data` the URL gets the parameter string of the data;
   * otherwise the options are left as they are. A missing options argument
   * is `{}`; a URL that is not a string has no `indexOf` and raises, and so
   * does data that is not an object.
   */
  function NavOptions(c: Url.Codec, option: Value): (r: Result<Value>)
    ensures option.Undefined? ==> r == Ok(EmptyObj)
    ensures option.Null? ==> r == Raise(TypeError)
    ensures r.Ok? && option.Obj? ==> r.value.Obj? && r.value.proto == option.proto
  {
    var opt := if option.Undefined? then EmptyObj else option;
    match GetProp(opt, "data")
    case Raise(x) => Raise(x)
    case Ok(data) =>
      if !Truthy(data) then Ok(opt)
      else
        match GetProp(opt, "url")
        case Raise(x) => Raise(x)
        case Ok(url) =>
          if !url.Str? then Raise(TypeError)
          else
            match Url.ToParamString(c, data)
            case Raise(x) => Raise(x)
            case Ok(ps) => PutProp(opt, "url", Str(WithParams(url.s, ps)))
  }

  /**
   * Navigation with data: the URL of an options object gains the parameter
   * string of the data, after `&` when it already holds a `?` and after `?`
   * otherwise; every other option is left alone.
   */
  lemma NavAppendsParams(c: Url.Codec, option: Value)
    requires option.Obj? && Truthy(Field(option.fields, "data")) && IsObject(Field(option.fields, "data"))
    requires Field(option.fields, "url").Str?
    ensures NavOptions(c, option).Ok? && NavOptions(c, option).value.Obj?
    ensures Field(NavOptions(c, option).value.fields, "url") ==
      Str(WithParams(Field(option.fields, "url").s, Url.ToParamString(c, Field(option.fields, "data")).value))
    ensures forall k :: k != "url" ==> Field(NavOptions(c, option).value.fields, k) == Field(option.fields, k)
  {
  }

  /** Navigation without data leaves the options as they are. */
  lemma NavWithoutData(c: Url.Codec, option: Value)
    requires option.Obj? && !Truthy(Field(option.fields, "data"))
    ensures NavOptions(c, option) == Ok(option)
  {
  }

  /** With data, a non-string URL, or data that is not an object, raises. */
  lemma NavRaises(c: Url.Codec, option: Value)
    requires option.Obj? && Truthy(Field(option.fields, "data"))
    requires !Field(option.fields, "url").Str? || !IsObject(Field(option.fields, "data"))
    ensures NavOptions(c, option).Raise?
    ensures !Field(option.fields, "url").Str? ==> NavOptions(c, option) == Raise(TypeError)
    ensures Field(option.fields, "url").Str? ==> NavOptions(c, option) == Raise(Url.NotObject)
  {
  }
}
