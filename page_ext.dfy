/**
 * The older page wrapper of page-ext.js: no call chain, but two flags.
 * `onLoadExecuting` is set while the wrapped `onLoad` runs, and a native
 * `onShow` arriving meanwhile only records `onShowCalledByNative` and
 * returns; the `onLoad` then calls `onShow(true, …)` itself once it has
 * finished. A pull-down refresh reruns `onLoad` with the load options;
 * the page loading function set by `PageExt._initial` runs before every load.
 *
 * User callbacks are awaited and are modelled by their outcome; calls into
 * user code and the host are recorded in the page's trace.
 */
module PageExt {
  import opened JsValue
  import opened WeObj
  import opened PageCommon
  import Url

  /**
   * The outcome of the configured page loading function when it is a
   * function, and of the page's own `onLoad` and `onShow` (`None` when the
   * page has no such function).
   */
  datatype ExtCallbacks = ExtCallbacks(hook: Outcome, onLoad: Option<Outcome>, onShow: Option<Outcome>)

  /** What the wrapped functions read and write: the page's fields and data, its trace and the mailbox. */
  datatype ExtState = ExtState(
    onLoadExecuting: bool,
    onShowCalledByNative: bool,
    loadOptions: Value,
    dialogPending: bool,
    flags: Flags,
    log: seq<Event>,
    across: Across)

  /**
   * `await pageLoadingFunction.call(this)`: the built-in empty function when
   * none was configured; a configured function runs; a configured value
   * that is not a function has no `call` and raises.
   */
  function HookEffect(s: ExtState, plf: Option<Value>, cb: ExtCallbacks): (r: (ExtState, Outcome))
    ensures plf.None? ==> r == (s, Continue)
    ensures plf.Some? && !plf.value.Fun? ==> r == (s, Throw(Raised(TypeError)))
    ensures plf.Some? && plf.value.Fun? ==> r == (s.(log := s.log + [BeforeLoadCalled]), cb.hook)
  {
    match plf
    case None => (s, Continue)
    case Some(f) => if f.Fun? then (s.(log := s.log + [BeforeLoadCalled]), cb.hook) else (s, Throw(Raised(TypeError)))
  }

  /** The `catch` of the wrapped `onLoad`: the flag reset, then the exception rethrown on a refresh and shown otherwise. */
  function Caught(s: ExtState, ex: Thrown, refresh: bool): (r: (ExtState, Option<Thrown>))
    ensures !r.0.onLoadExecuting
    ensures refresh <==> r.1.Some?
    ensures refresh ==> r == (s.(onLoadExecuting := false), Some(ex))
    ensures !refresh ==> r.0 == s.(onLoadExecuting := false, flags := LoadingFlags(false, Some(ex)))
  {
    var s1 := s.(onLoadExecuting := false);
    if refresh then (s1, Some(ex)) else (s1.(flags := LoadingFlags(false, Some(ex))), None)
  }

  /**
   * The wrapped `onShow(callByOnLoad, isPulldownRefresh)`: a native call
   * records itself; while `onLoad` runs nothing else happens. Otherwise the
   * page's own `onShow` runs between the loading flags; its exception is
   * rethrown to an `onLoad` caller and shown otherwise; then a pending dialog
   * is resolved with the pulled `dialogResult`. The second component is the
   * exception rethrown.
   */
  function ShowSpec(s: ExtState, callByOnLoad: bool, refresh: bool, cb: ExtCallbacks): (r: (ExtState, Option<Thrown>))
    ensures r.1.Some? ==> callByOnLoad
    ensures r.0.onLoadExecuting == s.onLoadExecuting && r.0.loadOptions == s.loadOptions
    ensures r.0.onShowCalledByNative == (s.onShowCalledByNative || !callByOnLoad)
  {
    var s1 := if !callByOnLoad then s.(onShowCalledByNative := true) else s;
    if s1.onLoadExecuting then (s1, None)
    else
      var s2 := s1.(flags := LoadingFlags(!refresh, None));
      var s3 := if cb.onShow.Some? then s2.(log := s2.log + [UserShowCalled]) else s2;
      var o := if cb.onShow.Some? then cb.onShow.value else Continue;
      if o.Throw? && callByOnLoad then (s3, Some(o.ex))
      else
        var s4 := s3.(flags := if o.Throw? then LoadingFlags(false, Some(o.ex)) else LoadingFlags(false, None));
        if s4.dialogPending then
          var pulled := Pulled(s4.across, "dialogResult");
          (s4.(dialogPending := false, across := pulled.1, log := s4.log + [DialogResolved(pulled.0)]), None)
        else (s4, None)
  }

  /**
   * The wrapped `onLoad(options, isPulldownRefresh)` up to the page's own
   * `onLoad`: the flag set, the loading flags, the options decoded unless
   * they are `true`, the page loading function, the global data and the
   * page's `onLoad` with the load options. The outcome is the first `false`
   * or exception, or `Continue`.
   */
  function LoadPrefix(s: ExtState, options: Value, refresh: bool, plf: Option<Value>, cb: ExtCallbacks, c: Url.Codec): (r: (ExtState, Outcome))
    ensures r.0.onLoadExecuting && r.0.flags == LoadingFlags(!refresh, None)
    ensures r.0.onShowCalledByNative == s.onShowCalledByNative
    ensures r.0.dialogPending == s.dialogPending && r.0.across == s.across
  {
    var started := LoadStart(s, options, refresh, c);
    if !started.1.Continue? then started else LoadCallbacks(started.0, plf, cb)
  }

  /** The start of `onLoad`: the flag set, the loading flags, and the options decoded unless they are `true`. */
  function LoadStart(s: ExtState, options: Value, refresh: bool, c: Url.Codec): (r: (ExtState, Outcome))
    ensures r.0 == s.(onLoadExecuting := true, flags := LoadingFlags(!refresh, None), loadOptions := r.0.loadOptions)
    ensures options == Bool(true) ==> r == (s.(onLoadExecuting := true, flags := LoadingFlags(!refresh, None)), Continue)
    ensures options != Bool(true) && Url.FromParams(c, options).Raise? ==> r.0.loadOptions == s.loadOptions && r.1 == Throw(Raised(URIError))
    ensures options != Bool(true) && Url.FromParams(c, options).Ok? ==> r.0.loadOptions == Url.FromParams(c, options).value && r.1 == Continue
  {
    var s1 := s.(onLoadExecuting := true, flags := LoadingFlags(!refresh, None));
    if options == Bool(true) then (s1, Continue)
    else
      match Url.FromParams(c, options)
      case Raise(x) => (s1, Throw(Raised(x)))
      case Ok(v) => (s1.(loadOptions := v), Continue)
  }

  /** The page loading function, the global data and the page's own `onLoad` with the load options. */
  function LoadCallbacks(s: ExtState, plf: Option<Value>, cb: ExtCallbacks): (r: (ExtState, Outcome))
    ensures r.0 == s.(log := r.0.log)
    ensures |r.0.log| >= |s.log| && r.0.log[..|s.log|] == s.log
  {
    var hooked := HookEffect(s, plf, cb);
    if !hooked.1.Continue? then hooked
    else
      var s4 := hooked.0.(log := hooked.0.log + [GlobalsSet]);
      if cb.onLoad.Some? then (s4.(log := s4.log + [UserLoadCalled(s4.loadOptions)]), cb.onLoad.value)
      else (s4, Continue)
  }

  /** The rest of `onLoad` once the page's own `onLoad` went on: the flag cleared, then `onShow(true, …)` if a native one came. */
  function LoadFinish(s: ExtState, refresh: bool, cb: ExtCallbacks): (r: (ExtState, Option<Thrown>))
    ensures !r.0.onLoadExecuting
    ensures !s.onShowCalledByNative ==> r == (s.(onLoadExecuting := false), None)
  {
    var s1 := s.(onLoadExecuting := false);
    if s1.onShowCalledByNative then
      var shown := ShowSpec(s1, true, refresh, cb);
      if shown.1.Some? then Caught(shown.0, shown.1.value, refresh) else shown
    else (s1, None)
  }

  /** The whole wrapped `onLoad`: its final state and the exception it rethrows. */
  function LoadSpec(s: ExtState, options: Value, refresh: bool, plf: Option<Value>, cb: ExtCallbacks, c: Url.Codec): (r: (ExtState, Option<Thrown>))
    ensures r.1.Some? ==> refresh
  {
    var p := LoadPrefix(s, options, refresh, plf, cb, c);
    match p.1
    case Veto => (p.0, None)
    case Throw(ex) => Caught(p.0, ex, refresh)
    case Continue => LoadFinish(p.0, refresh, cb)
  }

  /**
   * The default `onPullDownRefresh`: while loading or showing an error it
   * only stops the refresh; otherwise it reruns `onLoad` on the load options
   * as a refresh, shows what that throws, and stops the refresh.
   */
  function RefreshSpec(s: ExtState, plf: Option<Value>, cb: ExtCallbacks, c: Url.Codec): (r: ExtState)
    ensures (s.flags.loading || s.flags.loadingError.Some?) ==> r == s.(log := s.log + [RefreshStopped])
  {
    if s.flags.loading || s.flags.loadingError.Some? then s.(log := s.log + [RefreshStopped])
    else
      var loaded := LoadSpec(s, s.loadOptions, true, plf, cb, c);
      var shown := if loaded.1.Some? then loaded.0.log + [ErrorShown(loaded.1.value)] else loaded.0.log;
      loaded.0.(log := shown + [RefreshStopped])
  }

  // ----------------------------------------------------------- properties

  /** A native `onShow` while `onLoad` runs only records itself; one from `onLoad` then does nothing at all. */
  lemma ShowDeferredWhileLoading(s: ExtState, refresh: bool, cb: ExtCallbacks)
    requires s.onLoadExecuting
    ensures ShowSpec(s, false, refresh, cb) == (s.(onShowCalledByNative := true), None)
    ensures ShowSpec(s, true, refresh, cb) == (s, None)
  {
  }

  /**
   * `onLoad` calls `onShow` only when a native one came: without it, the
   * finished load just clears the flag; with it, the page's own `onShow`
   * runs after the load.
   */
  lemma LoadShowsOnlyAfterNative(s: ExtState, options: Value, refresh: bool, plf: Option<Value>, cb: ExtCallbacks, c: Url.Codec)
    requires LoadPrefix(s, options, refresh, plf, cb, c).1.Continue?
    ensures !s.onShowCalledByNative ==>
      LoadSpec(s, options, refresh, plf, cb, c) == (LoadPrefix(s, options, refresh, plf, cb, c).0.(onLoadExecuting := false), None)
    ensures s.onShowCalledByNative && cb.onShow.Some? ==>
      var p := LoadPrefix(s, options, refresh, plf, cb, c).0;
      UserShowCalled in LoadSpec(s, options, refresh, plf, cb, c).0.log[|p.log|..]
  {
    var p := LoadPrefix(s, options, refresh, plf, cb, c).0;
    if s.onShowCalledByNative && cb.onShow.Some? {
      var s1 := p.(onLoadExecuting := false);
      var shown := ShowSpec(s1, true, refresh, cb);
      var s2 := s1.(flags := LoadingFlags(!refresh, None));
      var s3 := s2.(log := s2.log + [UserShowCalled]);
      assert shown.0.log[..|s3.log|] == s3.log;
      assert shown.0.log[|p.log|] == UserShowCalled;
      assert LoadSpec(s, options, refresh, plf, cb, c).0.log == shown.0.log;
      assert shown.0.log[|p.log|..][0] == UserShowCalled;
    }
  }

  /**
   * A `false` from the page loading function or the page's own `onLoad`
   * ends the load at once: `onLoadExecuting` stays set (so every later native
   * `onShow` is deferred forever), nothing is rethrown and `onShow` is not
   * called; a `false` from the page loading function also skips the global
   * data and the page's `onLoad`.
   */
  lemma LoadVetoKeepsExecuting(s: ExtState, options: Value, refresh: bool, plf: Option<Value>, cb: ExtCallbacks, c: Url.Codec)
    requires LoadPrefix(s, options, refresh, plf, cb, c).1 == Veto
    ensures LoadSpec(s, options, refresh, plf, cb, c) == (LoadPrefix(s, options, refresh, plf, cb, c).0, None)
    ensures LoadSpec(s, options, refresh, plf, cb, c).0.onLoadExecuting
    ensures plf.Some? && plf.value.Fun? && cb.hook == Veto ==>
      LoadSpec(s, options, refresh, plf, cb, c).0.log == s.log + [BeforeLoadCalled]
  {
  }

  /**
   * An exception before or in the page's own `onLoad` resets the flag; it is
   * rethrown on a pull-down refresh and shown otherwise.
   */
  lemma LoadThrowCaught(s: ExtState, options: Value, refresh: bool, plf: Option<Value>, cb: ExtCallbacks, c: Url.Codec)
    requires LoadPrefix(s, options, refresh, plf, cb, c).1.Throw?
    ensures !LoadSpec(s, options, refresh, plf, cb, c).0.onLoadExecuting
    ensures refresh ==> LoadSpec(s, options, refresh, plf, cb, c).1 == Some(LoadPrefix(s, options, refresh, plf, cb, c).1.ex)
    ensures !refresh ==> (
      LoadSpec(s, options, refresh, plf, cb, c).1 == None &&
      LoadSpec(s, options, refresh, plf, cb, c).0.flags == LoadingFlags(false, Some(LoadPrefix(s, options, refresh, plf, cb, c).1.ex)))
  {
  }

  /** Options that cannot be decoded end the load with the decoding error, caught as any other. */
  lemma LoadDecodeError(s: ExtState, options: Value, refresh: bool, plf: Option<Value>, cb: ExtCallbacks, c: Url.Codec)
    requires options != Bool(true) && Url.FromParams(c, options).Raise?
    ensures LoadPrefix(s, options, refresh, plf, cb, c).1 == Throw(Raised(URIError))
    ensures LoadSpec(s, options, refresh, plf, cb, c).0.loadOptions == s.loadOptions
  {
  }

  /** `onLoad(true)`, as `reloadPage` calls it, keeps the load options as they are. */
  lemma ReloadKeepsOptions(s: ExtState, refresh: bool, plf: Option<Value>, cb: ExtCallbacks, c: Url.Codec)
    ensures LoadSpec(s, Bool(true), refresh, plf, cb, c).0.loadOptions == s.loadOptions
  {
  }

  /** Outside a refresh `onLoad` never rethrows: every exception ends up in the loading flags. */
  lemma LoadOutsideRefreshNeverThrows(s: ExtState, options: Value, plf: Option<Value>, cb: ExtCallbacks, c: Url.Codec)
    ensures LoadSpec(s, options, false, plf, cb, c).1 == None
  {
  }

  /**
   * The page's own `onShow` throwing: rethrown, with the dialog left pending,
   * when `onLoad` called; shown in the loading flags, with the dialog still
   * resolved, when the host called.
   */
  lemma ShowRethrowIff(s: ExtState, callByOnLoad: bool, refresh: bool, cb: ExtCallbacks, ex: Thrown)
    requires !s.onLoadExecuting && cb.onShow == Some(Throw(ex))
    ensures callByOnLoad ==> (
      ShowSpec(s, callByOnLoad, refresh, cb).1 == Some(ex) &&
      ShowSpec(s, callByOnLoad, refresh, cb).0.dialogPending == s.dialogPending)
    ensures !callByOnLoad ==> (
      ShowSpec(s, callByOnLoad, refresh, cb).1 == None &&
      ShowSpec(s, callByOnLoad, refresh, cb).0.flags == LoadingFlags(false, Some(ex)) &&
      !ShowSpec(s, callByOnLoad, refresh, cb).0.dialogPending)
  {
  }

  /** A show that is not deferred and not rethrown ends by resolving the pending dialog with the pulled `dialogResult`. */
  lemma ShowResolvesDialog(s: ExtState, callByOnLoad: bool, refresh: bool, cb: ExtCallbacks)
    requires !s.onLoadExecuting && s.dialogPending
    requires !(callByOnLoad && cb.onShow.Some? && cb.onShow.value.Throw?)
    ensures !ShowSpec(s, callByOnLoad, refresh, cb).0.dialogPending
    ensures ShowSpec(s, callByOnLoad, refresh, cb).0.across == Pulled(s.across, "dialogResult").1
    ensures var log := ShowSpec(s, callByOnLoad, refresh, cb).0.log;
      |log| > 0 && log[|log| - 1] == DialogResolved(Pulled(s.across, "dialogResult").0)
  {
  }

  /**
   * The deferral at work: a native `onShow` arriving while `onLoad` awaits the
   * page's own `onLoad` is held back, and the rest of that `onLoad` runs the
   * page's own `onShow` once, then clears the loading flags.
   */
  lemma DeferredShowRunsAfterLoad(s: ExtState, nativeRefresh: bool, refresh: bool, cb: ExtCallbacks)
    requires s.onLoadExecuting && !s.dialogPending && cb.onShow == Some(Continue)
    ensures var held := ShowSpec(s, false, nativeRefresh, cb).0;
      LoadFinish(held, refresh, cb).0.log == s.log + [UserShowCalled] &&
      LoadFinish(held, refresh, cb).0.flags == Flags(false, None) &&
      LoadFinish(held, refresh, cb).1 == None
  {
    ShowDeferredWhileLoading(s, nativeRefresh, cb);
  }

  /** The default refresh while loading or showing an error only stops the refresh. */
  lemma RefreshGuard(s: ExtState, plf: Option<Value>, cb: ExtCallbacks, c: Url.Codec)
    requires s.flags.loading || s.flags.loadingError.Some?
    ensures RefreshSpec(s, plf, cb, c).log == s.log + [RefreshStopped]
    ensures RefreshSpec(s, plf, cb, c).(log := s.log) == s
  {
  }

  /** A refresh whose reload throws shows the error before stopping the refresh. */
  lemma RefreshShowsError(s: ExtState, plf: Option<Value>, cb: ExtCallbacks, c: Url.Codec)
    requires !s.flags.loading && s.flags.loadingError.None?
    requires LoadSpec(s, s.loadOptions, true, plf, cb, c).1.Some?
    ensures var log := RefreshSpec(s, plf, cb, c).log;
      |log| >= 2 && log[|log| - 2] == ErrorShown(LoadSpec(s, s.loadOptions, true, plf, cb, c).1.value) &&
      log[|log| - 1] == RefreshStopped
  {
  }

  // -------------------------------------------------------------- module state

  /** The module variable `pageLoadingFunction`; `None` is the built-in empty function. */
  class PageLoading {
    var pageLoadingFunction: Option<Value>

    constructor ()
      ensures pageLoadingFunction.None?
    {
      pageLoadingFunction := None;
    }

    /** `PageExt._initial(config)`: a truthy `config.pageBeforeLoad` becomes the page loading function. */
    method Initial(config: Value) returns (r: Result<Value>)
      modifies this
      ensures IsNullish(config) ==> r == Raise(TypeError) && unchanged(this)
      ensures !IsNullish(config) ==> r == Ok(Undefined)
      ensures !IsNullish(config) && Truthy(GetProp(config, "pageBeforeLoad").value) ==>
        pageLoadingFunction == Some(GetProp(config, "pageBeforeLoad").value)
      ensures !IsNullish(config) && !Truthy(GetProp(config, "pageBeforeLoad").value) ==> unchanged(this)
    {
      var f := GetProp(config, "pageBeforeLoad");
      if f.Raise? {
        return Raise(f.exc);
      }
      if Truthy(f.value) {
        pageLoadingFunction := Some(f.value);
      }
      return Ok(Undefined);
    }
  }

  // -------------------------------------------------------------- the page

  /** A page built by the wrapped `Page` function of page-ext.js. */
  class ExtPage {
    var onLoadExecuting: bool
    var onShowCalledByNative: bool
    var loadOptions: Value
    var dialogPending: bool
    var flags: Flags
    var log: seq<Event>
    const route: string
    const cb: ExtCallbacks
    const codec: Url.Codec
    /** `Page.dataAcross`, shared by every page. */
    const mailbox: Mailbox
    /** The module's `pageLoadingFunction`, shared by every page. */
    const loading: PageLoading

    /** The page as it starts: its data extended with `loading: true`, neither flag set. */
    constructor (route: string, cb: ExtCallbacks, codec: Url.Codec, mailbox: Mailbox, loading: PageLoading)
      ensures !onLoadExecuting && !onShowCalledByNative && !dialogPending && log == []
      ensures loadOptions == Undefined && flags == InitialFlags
      ensures this.route == route && this.cb == cb && this.codec == codec
      ensures this.mailbox == mailbox && this.loading == loading
    {
      onLoadExecuting := false;
      onShowCalledByNative := false;
      loadOptions := Undefined;
      dialogPending := false;
      flags := InitialFlags;
      log := [];
      this.route := route;
      this.cb := cb;
      this.codec := codec;
      this.mailbox := mailbox;
      this.loading := loading;
    }

    ghost function State(): ExtState
      reads this, mailbox
    {
      ExtState(onLoadExecuting, onShowCalledByNative, loadOptions, dialogPending, flags, log, mailbox.dataAcross)
    }

    /** `setLoading(isLoading, ex)` */
    method SetLoading(isLoading: bool, ex: Option<Thrown>)
      modifies this`flags
      ensures flags == LoadingFlags(isLoading, ex)
    {
      if isLoading {
        flags := Flags(true, None);
      } else if ex.None? || !ThrownTruthy(ex.value) {
        flags := Flags(false, None);
      } else {
        flags := Flags(false, ex);
      }
    }

    /** `isLoading()` */
    function IsLoading(): (r: bool)
      reads this
      ensures r <==> flags.loading
    {
      flags.loading
    }

    /** `getPath()`: the route with the parameter string of the load options. */
    function GetPath(): (r: Result<string>)
      reads this
      ensures IsEmpty(loadOptions, false) ==> r == Ok("/" + route)
      ensures !IsEmpty(loadOptions, false) ==> r == Ok("/" + route + "?" + Url.ToParamString(codec, loadOptions).value)
    {
      PathOf(codec, route, loadOptions)
    }

    method CatchLoad(ex: Thrown, refresh: bool) returns (thrown: Option<Thrown>)
      modifies this`onLoadExecuting, this`flags
      ensures (State(), thrown) == Caught(old(State()), ex, refresh)
    {
      onLoadExecuting := false;
      if refresh {
        return Some(ex);
      }
      SetLoading(false, Some(ex));
      return None;
    }

    /** `await pageLoadingFunction.call(this)` */
    method RunHook() returns (o: Outcome)
      modifies this`log
      ensures (State(), o) == HookEffect(old(State()), loading.pageLoadingFunction, cb)
    {
      var plf := loading.pageLoadingFunction;
      if plf.None? {
        return Continue;
      }
      if !plf.value.Fun? {
        return Throw(Raised(TypeError));
      }
      log := log + [BeforeLoadCalled];
      return cb.hook;
    }

    /** The start of the wrapped `onLoad`. */
    method StartLoad(options: Value, refresh: bool) returns (o: Outcome)
      modifies this`onLoadExecuting, this`flags, this`loadOptions
      ensures (State(), o) == LoadStart(old(State()), options, refresh, codec)
    {
      onLoadExecuting := true;
      SetLoading(!refresh, None);
      if options == Bool(true) {
        return Continue;
      }
      var decoded := Url.FromParams(codec, options);
      match decoded
      case Raise(x) =>
        return Throw(Raised(x));
      case Ok(v) =>
        loadOptions := v;
        return Continue;
    }

    /** The callbacks of the wrapped `onLoad`. */
    method RunLoadCallbacks() returns (o: Outcome)
      modifies this`log
      ensures (State(), o) == LoadCallbacks(old(State()), loading.pageLoadingFunction, cb)
    {
      o := RunHook();
      if !o.Continue? {
        return;
      }
      log := log + [GlobalsSet];
      if cb.onLoad.Some? {
        log := log + [UserLoadCalled(loadOptions)];
        o := cb.onLoad.value;
      }
    }

    /** The wrapped `onLoad(options, isPulldownRefresh)`; `thrown` is what it rethrows. */
    method OnLoad(options: Value, refresh: bool) returns (thrown: Option<Thrown>)
      modifies this, mailbox
      ensures (State(), thrown) == LoadSpec(old(State()), options, refresh, loading.pageLoadingFunction, cb, codec)
    {
      var o := StartLoad(options, refresh);
      if o.Continue? {
        o := RunLoadCallbacks();
      }
      match o
      case Veto =>
        return None;
      case Throw(ex) =>
        thrown := CatchLoad(ex, refresh);
      case Continue =>
        thrown := FinishLoad(refresh);
    }

    /** The end of the wrapped `onLoad`, once the page's own `onLoad` went on. */
    method FinishLoad(refresh: bool) returns (thrown: Option<Thrown>)
      modifies this, mailbox
      ensures (State(), thrown) == LoadFinish(old(State()), refresh, cb)
    {
      onLoadExecuting := false;
      if onShowCalledByNative {
        var e := OnShow(true, refresh);
        if e.Some? {
          thrown := CatchLoad(e.value, refresh);
          return;
        }
      }
      return None;
    }

    /** The wrapped `onShow(callByOnLoad, isPulldownRefresh)`; `thrown` is what it rethrows to `onLoad`. */
    method OnShow(callByOnLoad: bool, refresh: bool) returns (thrown: Option<Thrown>)
      modifies this, mailbox
      ensures (State(), thrown) == ShowSpec(old(State()), callByOnLoad, refresh, cb)
    {
      if !callByOnLoad {
        onShowCalledByNative := true;
      }
      if onLoadExecuting {
        return None;
      }
      SetLoading(!refresh, None);
      var o := Continue;
      if cb.onShow.Some? {
        log := log + [UserShowCalled];
        o := cb.onShow.value;
      }
      if o.Throw? {
        if callByOnLoad {
          return Some(o.ex);
        }
        SetLoading(false, Some(o.ex));
      } else {
        SetLoading(false, None);
      }
      if dialogPending {
        dialogPending := false;
        var result := mailbox.PullData("dialogResult");
        log := log + [DialogResolved(result)];
      }
      return None;
    }

    /** `reloadPage()`: `onLoad(true)`, which keeps the load options and does not rethrow. */
    method ReloadPage()
      modifies this, mailbox
      ensures State() == LoadSpec(old(State()), Bool(true), false, loading.pageLoadingFunction, cb, codec).0
      ensures loadOptions == old(loadOptions)
    {
      var thrown := OnLoad(Bool(true), false);
      ReloadKeepsOptions(old(State()), false, loading.pageLoadingFunction, cb, codec);
    }

    /** The default `onPullDownRefresh`. */
    method OnPullDownRefresh()
      modifies this, mailbox
      ensures State() == RefreshSpec(old(State()), loading.pageLoadingFunction, cb, codec)
    {
      if IsLoading() || flags.loadingError.Some? {
        log := log + [RefreshStopped];
        return;
      }
      var thrown := OnLoad(loadOptions, true);
      if thrown.Some? {
        log := log + [ErrorShown(thrown.value)];
      }
      log := log + [RefreshStopped];
    }
  }
}
