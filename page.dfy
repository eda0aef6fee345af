/**
 * The page extension of extension/page.js. Every page keeps a call chain:
 * the wrapped `onLoad` queues the load step, the wrapped `onShow` queues the
 * show step and drains the chain in order, stopping after the first step that
 * returns `false`, and always leaving the chain empty and the running flag
 * clear. The load step runs the application's `beforePageLoad`, sets the
 * global data and runs the page's own `onLoad`; the show step either answers a
 * pending dialog or runs the page's own `onShow`.
 *
 * User callbacks are awaited and are modelled by their outcome; calls into
 * user code and the host are recorded in the page's trace.
 */
module PageExtension {
  import opened JsValue
  import opened WeObj
  import opened PageCommon
  import Url

  /** The outcome of each user callback a page has; `None` when it is not a function. */
  datatype Callbacks = Callbacks(beforePageLoad: Option<Outcome>, onLoad: Option<Outcome>, onShow: Option<Outcome>)

  /** A function in the call chain: `pageOnLoad` or `pageOnShow`, bound to the page. */
  datatype Step = LoadStep | ShowStep

  /** What the steps of the chain read and write: the trace, the pending dialog, the mailbox. */
  datatype StepState = StepState(log: seq<Event>, dialogPending: bool, across: Across)

  /**
   * `pageOnLoad`: `beforePageLoad` when the application has one (a `false`
   * ends the step with `false`), then the global data, then the page's own
   * `onLoad` with the load options (a `false` ends the step with `false`).
   * A callback that throws ends the step with its exception.
   */
  function LoadEffect(s: StepState, cb: Callbacks, loadOptions: Value): (r: (StepState, Outcome))
    ensures r.0.dialogPending == s.dialogPending && r.0.across == s.across
    ensures |r.0.log| >= |s.log| && r.0.log[..|s.log|] == s.log
  {
    var log1 := if cb.beforePageLoad.Some? then s.log + [BeforeLoadCalled] else s.log;
    var o1 := if cb.beforePageLoad.Some? then cb.beforePageLoad.value else Continue;
    if !o1.Continue? then (s.(log := log1), o1)
    else
      var log2 := log1 + [GlobalsSet];
      if cb.onLoad.Some? then (s.(log := log2 + [UserLoadCalled(loadOptions)]), cb.onLoad.value)
      else (s.(log := log2), Continue)
  }

  /**
   * `pageOnShow`: a pending dialog is cleared and resolved with what the
   * mailbox holds under `dialogResult`, and the step returns `false`;
   * otherwise the page's own `onShow` runs (a `false` ends the step with
   * `false`).
   */
  function ShowEffect(s: StepState, cb: Callbacks): (r: (StepState, Outcome))
    ensures !r.0.dialogPending
    ensures |r.0.log| >= |s.log| && r.0.log[..|s.log|] == s.log
  {
    if s.dialogPending then
      var pulled := Pulled(s.across, "dialogResult");
      (StepState(s.log + [DialogResolved(pulled.0)], false, pulled.1), Veto)
    else if cb.onShow.Some? then (s.(log := s.log + [UserShowCalled]), cb.onShow.value)
    else (s, Continue)
  }

  function StepEffect(s: StepState, step: Step, cb: Callbacks, loadOptions: Value): (r: (StepState, Outcome))
    ensures |r.0.log| >= |s.log| && r.0.log[..|s.log|] == s.log
  {
    match step
    case LoadStep => LoadEffect(s, cb, loadOptions)
    case ShowStep => ShowEffect(s, cb)
  }

  /**
   * The loop of `pageRunChain` over `chain`: each step in turn while they
   * return anything but `false`; the state after the last step run and its
   * outcome (`Continue` when every step ran).
   */
  function RunSteps(s: StepState, chain: seq<Step>, cb: Callbacks, loadOptions: Value): (r: (StepState, Outcome))
    ensures |r.0.log| >= |s.log| && r.0.log[..|s.log|] == s.log
    decreases |chain|
  {
    if chain == [] then (s, Continue)
    else
      var first := StepEffect(s, chain[0], cb, loadOptions);
      if first.1.Continue? then
        var rest := RunSteps(first.0, chain[1..], cb, loadOptions);
        assert rest.0.log[..|s.log|] == rest.0.log[..|first.0.log|][..|s.log|];
        rest
      else first
  }

  /** What a finished chain reports: the exception of a step that threw, if one did. */
  function ChainError(o: Outcome): (r: Option<Thrown>)
    ensures r.Some? <==> o.Throw?
  {
    if o.Throw? then Some(o.ex) else None
  }

  /** `pageReload`: nothing while the chain is running; otherwise the load and show steps are queued and the chain drained. */
  function ReloadEffect(s: StepState, running: bool, chain: seq<Step>, cb: Callbacks, loadOptions: Value): (r: (StepState, Option<Thrown>))
    ensures running ==> r == (s, None)
    ensures !running ==> r.1 == ChainError(RunSteps(s, chain + [LoadStep, ShowStep], cb, loadOptions).1)
  {
    if running then (s, None)
    else
      var run := RunSteps(s, chain + [LoadStep, ShowStep], cb, loadOptions);
      (run.0, ChainError(run.1))
  }

  // --------------------------------------------------- properties of steps

  /** A `beforePageLoad` veto ends the load step at once: no global data, no user `onLoad`, and `false`. */
  lemma LoadVetoedBefore(s: StepState, cb: Callbacks, loadOptions: Value)
    requires cb.beforePageLoad == Some(Veto)
    ensures LoadEffect(s, cb, loadOptions) == (s.(log := s.log + [BeforeLoadCalled]), Veto)
  {
  }

  /**
   * When `beforePageLoad` lets the load go on, the global data is set and the
   * user `onLoad` runs with the load options; the step returns `false` exactly
   * when that `onLoad` does.
   */
  lemma LoadRunsUserOnLoad(s: StepState, cb: Callbacks, loadOptions: Value)
    requires cb.beforePageLoad.None? || cb.beforePageLoad == Some(Continue)
    requires cb.onLoad.Some?
    ensures LoadEffect(s, cb, loadOptions).0.log ==
      s.log + (if cb.beforePageLoad.Some? then [BeforeLoadCalled] else []) + [GlobalsSet, UserLoadCalled(loadOptions)]
    ensures LoadEffect(s, cb, loadOptions).1 == cb.onLoad.value
    ensures LoadEffect(s, cb, loadOptions).1 == Veto <==> cb.onLoad == Some(Veto)
  {
    var pre := if cb.beforePageLoad.Some? then [BeforeLoadCalled] else [];
    assert (s.log + pre) + [GlobalsSet] + [UserLoadCalled(loadOptions)] == s.log + pre + [GlobalsSet, UserLoadCalled(loadOptions)];
  }

  /** The load step returns `false` exactly when `beforePageLoad` or, after it, the user `onLoad` does. */
  lemma LoadVetoIff(s: StepState, cb: Callbacks, loadOptions: Value)
    ensures LoadEffect(s, cb, loadOptions).1 == Veto <==>
      cb.beforePageLoad == Some(Veto) ||
      ((cb.beforePageLoad.None? || cb.beforePageLoad == Some(Continue)) && cb.onLoad == Some(Veto))
  {
  }

  /**
   * The show step with a pending dialog: it is cleared and resolved with the
   * pulled `dialogResult`, which leaves the mailbox; the user `onShow` does not
   * run, and the step returns `false`.
   */
  lemma ShowResolvesDialog(s: StepState, cb: Callbacks)
    requires s.dialogPending
    ensures ShowEffect(s, cb).1 == Veto
    ensures ShowEffect(s, cb).0 ==
      StepState(s.log + [DialogResolved(Pulled(s.across, "dialogResult").0)], false, Pulled(s.across, "dialogResult").1)
  {
  }

  /** The dialog page's `navigateReturn(data)` pushes `dialogResult`; the opener's next show step resolves with it. */
  lemma DialogRoundTrip(s: StepState, cb: Callbacks, a: Across, result: Value)
    requires s.dialogPending && s.across == Pushed(a, "dialogResult", result)
    ensures ShowEffect(s, cb).0.log == s.log + [DialogResolved(result)]
    ensures ShowEffect(s, cb).1 == Veto
  {
    PullAfterPush(a, "dialogResult", result);
  }

  // --------------------------------------------------- properties of the chain

  /** A chain of one step runs exactly that step. */
  lemma {:induction false} RunSingle(s: StepState, step: Step, cb: Callbacks, lo: Value)
    ensures RunSteps(s, [step], cb, lo) == StepEffect(s, step, cb, lo)
  {
    var first := StepEffect(s, step, cb, lo);
    if first.1.Continue? {
      assert [step][1..] == [];
    }
  }

  /**
   * The steps run in queue order: running `a + b` is running `a` and then,
   * when every step of `a` went on, running `b` from where `a` left off;
   * when a step of `a` returned `false` or threw, no step of `b` runs.
   */
  lemma {:induction false} RunAppend(s: StepState, a: seq<Step>, b: seq<Step>, cb: Callbacks, lo: Value)
    ensures RunSteps(s, a, cb, lo).1.Continue? ==>
      RunSteps(s, a + b, cb, lo) == RunSteps(RunSteps(s, a, cb, lo).0, b, cb, lo)
    ensures !RunSteps(s, a, cb, lo).1.Continue? ==> RunSteps(s, a + b, cb, lo) == RunSteps(s, a, cb, lo)
    decreases |a|
  {
    if a == [] {
      assert a + b == b;
    } else {
      assert (a + b)[0] == a[0] && (a + b)[1..] == a[1..] + b;
      var first := StepEffect(s, a[0], cb, lo);
      if first.1.Continue? {
        RunAppend(first.0, a[1..], b, cb, lo);
      }
    }
  }

  /**
   * The first step to return `false` or throw is the last one run: a chain
   * whose step `i` stops it, after steps that all went on, ends in the state
   * and outcome of that step, whatever follows it.
   */
  lemma StopsAtFirstVeto(s: StepState, chain: seq<Step>, cb: Callbacks, lo: Value, i: nat)
    requires i < |chain|
    requires RunSteps(s, chain[..i], cb, lo).1.Continue?
    requires !StepEffect(RunSteps(s, chain[..i], cb, lo).0, chain[i], cb, lo).1.Continue?
    ensures RunSteps(s, chain, cb, lo) == StepEffect(RunSteps(s, chain[..i], cb, lo).0, chain[i], cb, lo)
  {
    var pre := RunSteps(s, chain[..i], cb, lo).0;
    assert chain == chain[..i] + ([chain[i]] + chain[i + 1..]);
    RunAppend(s, chain[..i], [chain[i]] + chain[i + 1..], cb, lo);
    RunSingle(pre, chain[i], cb, lo);
    RunAppend(pre, [chain[i]], chain[i + 1..], cb, lo);
  }

  /** A reload whose load step returns `false` or throws does not run the show step. */
  lemma ReloadVetoSkipsShow(s: StepState, cb: Callbacks, lo: Value)
    requires !LoadEffect(s, cb, lo).1.Continue?
    ensures RunSteps(s, [LoadStep, ShowStep], cb, lo) == LoadEffect(s, cb, lo)
  {
  }

  /** A reload whose load step goes on runs the show step after it. */
  lemma ReloadRunsBoth(s: StepState, cb: Callbacks, lo: Value)
    requires LoadEffect(s, cb, lo).1.Continue?
    ensures RunSteps(s, [LoadStep, ShowStep], cb, lo) == ShowEffect(LoadEffect(s, cb, lo).0, cb)
  {
    RunAppend(s, [LoadStep], [ShowStep], cb, lo);
    RunSingle(s, LoadStep, cb, lo);
    RunSingle(LoadEffect(s, cb, lo).0, ShowStep, cb, lo);
    assert [LoadStep] + [ShowStep] == [LoadStep, ShowStep];
  }

  // -------------------------------------------------------------- the page

  /**
   * The global object, which is `this` inside a function called without a
   * receiver in sloppy mode: only the two properties `pageRunChain` writes.
   * The global `_callChain`, once set, is always `[]`.
   */
  class GlobalScope {
    var callChainSet: bool
    var chainRunning: bool

    /** Before any page runs, neither global property exists. */
    constructor ()
      ensures !callChainSet && !chainRunning
    {
      callChainSet := false;
      chainRunning := false;
    }
  }

  /** A page built by the wrapped `Page` function. */
  class PageInstance {
    var callChain: seq<Step>
    var chainRunning: bool
    var dialogPending: bool
    var log: seq<Event>
    var flags: Flags
    var rawOptions: Value
    var loadOptions: Value
    const route: string
    const cb: Callbacks
    const codec: Url.Codec
    /** `Page.dataAcross`, shared by every page. */
    const mailbox: Mailbox

    /** The page as it starts: nothing queued, loading, no error. */
    constructor (route: string, cb: Callbacks, codec: Url.Codec, mailbox: Mailbox)
      ensures callChain == [] && !chainRunning && !dialogPending && log == []
      ensures flags == InitialFlags && rawOptions == Undefined && loadOptions == Undefined
      ensures this.route == route && this.cb == cb && this.codec == codec && this.mailbox == mailbox
    {
      callChain := [];
      chainRunning := false;
      dialogPending := false;
      log := [];
      flags := InitialFlags;
      rawOptions := Undefined;
      loadOptions := Undefined;
      this.route := route;
      this.cb := cb;
      this.codec := codec;
      this.mailbox := mailbox;
    }

    ghost function State(): StepState
      reads this, mailbox
    {
      StepState(log, dialogPending, mailbox.dataAcross)
    }

    /** `pageOnLoad.call(this)` */
    method PageOnLoad() returns (o: Outcome)
      modifies this`log
      ensures (State(), o) == LoadEffect(old(State()), cb, loadOptions)
    {
      if cb.beforePageLoad.Some? {
        log := log + [BeforeLoadCalled];
        var r := cb.beforePageLoad.value;
        if !r.Continue? {
          return r;
        }
      }
      log := log + [GlobalsSet];
      if cb.onLoad.Some? {
        log := log + [UserLoadCalled(loadOptions)];
        return cb.onLoad.value;
      }
      return Continue;
    }

    /** `pageOnShow.call(this)` */
    method PageOnShow() returns (o: Outcome)
      modifies this`log, this`dialogPending, mailbox
      ensures (State(), o) == ShowEffect(old(State()), cb)
    {
      if dialogPending {
        dialogPending := false;
        var result := mailbox.PullData("dialogResult");
        log := log + [DialogResolved(result)];
        return Veto;
      }
      if cb.onShow.Some? {
        log := log + [UserShowCalled];
        return cb.onShow.value;
      }
      return Continue;
    }

    method RunStep(step: Step) returns (o: Outcome)
      modifies this`log, this`dialogPending, mailbox
      ensures (State(), o) == StepEffect(old(State()), step, cb, loadOptions)
    {
      match step
      case LoadStep => o := PageOnLoad();
      case ShowStep => o := PageOnShow();
    }

    /**
     * `pageRunChain.call(this)`: the queued steps in order until one returns
     * `false` or throws; whatever happens, the chain is then empty and the
     * running flag clear. The exception of a step that threw is reported.
     */
    method RunChain() returns (err: Option<Thrown>)
      modifies this, mailbox
      ensures callChain == [] && !chainRunning
      ensures State() == RunSteps(old(State()), old(callChain), cb, old(loadOptions)).0
      ensures err == ChainError(RunSteps(old(State()), old(callChain), cb, old(loadOptions)).1)
      ensures flags == old(flags) && rawOptions == old(rawOptions) && loadOptions == old(loadOptions)
    {
      ghost var s0 := State();
      chainRunning := true;
      var chain := callChain;
      var i := 0;
      var stop := false;
      var last := Continue;
      while i < |chain| && !stop
        invariant 0 <= i <= |chain|
        invariant !stop ==> last.Continue?
        invariant RunSteps(s0, chain, cb, loadOptions) ==
          if stop then (State(), last) else RunSteps(State(), chain[i..], cb, loadOptions)
        modifies this`log, this`dialogPending, mailbox
        decreases (if stop then 0 else 1), |chain| - i
      {
        assert chain[i..][0] == chain[i] && chain[i..][1..] == chain[i + 1..];
        last := RunStep(chain[i]);
        if !last.Continue? {
          stop := true;
        } else {
          i := i + 1;
        }
      }
      callChain := [];
      chainRunning := false;
      return ChainError(last);
    }

    /** `pageReload.call(this)` */
    method Reload() returns (err: Option<Thrown>)
      modifies this, mailbox
      ensures (State(), err) == ReloadEffect(old(State()), old(chainRunning), old(callChain), cb, old(loadOptions))
      ensures old(chainRunning) ==> unchanged(this) && unchanged(mailbox)
      ensures !old(chainRunning) ==> callChain == [] && !chainRunning
      ensures flags == old(flags) && rawOptions == old(rawOptions) && loadOptions == old(loadOptions)
    {
      if chainRunning {
        return None;
      }
      callChain := callChain + [LoadStep];
      callChain := callChain + [ShowStep];
      assert callChain == old(callChain) + [LoadStep, ShowStep];
      err := RunChain();
    }

    /** `setLoading(isLoading, ex)` */
    method SetLoading(isLoading: bool, ex: Option<Thrown>)
      modifies this`flags
      ensures flags == LoadingFlags(isLoading, ex)
    {
      if isLoading {
        flags := Flags(true, None);
      } else if ex.None? || !ThrownTruthy(ex.value) {
        flags := Flags(false, None);
      } else {
        flags := Flags(false, ex);
      }
    }

    /** `isLoading()` */
    function IsLoading(): (r: bool)
      reads this
      ensures r <==> flags.loading
    {
      flags.loading
    }

    /**
     * `reloadPage()`: loading while the page reloads, then not loading, with
     * the exception of the reload as the error when it threw.
     */
    method ReloadPage()
      modifies this, mailbox
      ensures State() == ReloadEffect(old(State()), old(chainRunning), old(callChain), cb, old(loadOptions)).0
      ensures flags == LoadingFlags(false, ReloadEffect(old(State()), old(chainRunning), old(callChain), cb, old(loadOptions)).1)
      ensures !old(chainRunning) ==> callChain == [] && !chainRunning
      ensures old(chainRunning) ==> callChain == old(callChain) && chainRunning
      ensures rawOptions == old(rawOptions) && loadOptions == old(loadOptions)
    {
      SetLoading(true, None);
      var err := Reload();
      SetLoading(false, err);
    }

    /**
     * The default `onPullDownRefresh`: while the chain runs or the page shows
     * an error, it only stops the refresh; otherwise it reloads the page and
     * then stops the refresh (`reloadPage` catches every exception itself).
     */
    method OnPullDownRefresh()
      modifies this, mailbox
      ensures (old(chainRunning) || old(flags.loadingError).Some?) ==>
        log == old(log) + [RefreshStopped] && dialogPending == old(dialogPending) &&
        flags == old(flags) && callChain == old(callChain) && chainRunning == old(chainRunning) &&
        unchanged(mailbox)
      ensures !(old(chainRunning) || old(flags.loadingError).Some?) ==>
        var reloaded := ReloadEffect(old(State()), false, old(callChain), cb, old(loadOptions));
        State() == reloaded.0.(log := reloaded.0.log + [RefreshStopped]) &&
        flags == LoadingFlags(false, reloaded.1) &&
        callChain == [] && !chainRunning
      ensures rawOptions == old(rawOptions) && loadOptions == old(loadOptions)
    {
      if chainRunning || flags.loadingError.Some? {
        log := log + [RefreshStopped];
        return;
      }
      ReloadPage();
      log := log + [RefreshStopped];
    }

    /** `getPath()`: the route with the parameter string of the raw options. */
    function GetPath(): (r: Result<string>)
      reads this
      ensures IsEmpty(rawOptions, false) ==> r == Ok("/" + route)
      ensures !IsEmpty(rawOptions, false) ==> r == Ok("/" + route + "?" + Url.ToParamString(codec, rawOptions).value)
    {
      PathOf(codec, route, rawOptions)
    }

    /**
     * The wrapped `onLoad(options)`: the raw options are kept; the load
     * options are the `richData` pulled from the mailbox extended with the
     * decoded options; the load step is queued. A decoding error leaves the
     * load options and the chain as they were, after `richData` was pulled.
     */
    method OnLoad(options: Value) returns (r: Result<Value>)
      modifies this, mailbox
      ensures rawOptions == options
      ensures mailbox.dataAcross == Pulled(old(mailbox.dataAcross), "richData").1
      ensures Url.FromParams(codec, options).Raise? ==>
        r == Raise(URIError) && loadOptions == old(loadOptions) && callChain == old(callChain)
      ensures Url.FromParams(codec, options).Ok? ==>
        r == Ok(Undefined) && callChain == old(callChain) + [LoadStep] &&
        StaticExtend([Pulled(old(mailbox.dataAcross), "richData").0, Url.FromParams(codec, options).value]) == Ok(loadOptions)
      ensures log == old(log) && dialogPending == old(dialogPending) && flags == old(flags) && chainRunning == old(chainRunning)
    {
      rawOptions := options;
      var rich := mailbox.PullData("richData");
      var decoded := Url.FromParams(codec, options);
      if decoded.Raise? {
        return Raise(decoded.exc);
      }
      StaticExtendOk([rich, decoded.value]);
      loadOptions := StaticExtend([rich, decoded.value]).value;
      callChain := callChain + [LoadStep];
      return Ok(Undefined);
    }

    /**
     * The wrapped `onShow()` as intended: loading, the show step queued, the
     * chain drained, then not loading, with the chain's exception as the
     * error when a step threw.
     */
    method OnShow()
      modifies this, mailbox
      ensures callChain == [] && !chainRunning
      ensures State() == RunSteps(old(State()), old(callChain) + [ShowStep], cb, old(loadOptions)).0
      ensures flags == LoadingFlags(false, ChainError(RunSteps(old(State()), old(callChain) + [ShowStep], cb, old(loadOptions)).1))
      ensures rawOptions == old(rawOptions) && loadOptions == old(loadOptions)
    {
      SetLoading(true, None);
      callChain := callChain + [ShowStep];
      var err := RunChain();
      SetLoading(false, err);
    }

    /**
     * The wrapped `onShow()` as written: `pageRunChain(_this)` calls the chain
     * function without binding the page, so, in sloppy mode, `this` inside it
     * is the global object. While the global `_callChain` is unset the
     * `for…of` over it raises a `TypeError`, which the page shows; once the
     * first call's `finally` has set it to `[]`, later calls drain that empty
     * chain and report no error. Either way the page's own chain never runs:
     * the show step stays queued behind whatever was queued before.
     */
    method OnShowAsWritten(global: GlobalScope)
      modifies this`flags, this`callChain, global
      ensures callChain == old(callChain) + [ShowStep]
      ensures global.callChainSet && !global.chainRunning
      ensures flags == if old(global.callChainSet) then Flags(false, None) else Flags(false, Some(Raised(TypeError)))
    {
      SetLoading(true, None);
      callChain := callChain + [ShowStep];
      // pageRunChain with the global object as `this`
      global.chainRunning := true;
      var err: Option<Thrown> := None;
      if !global.callChainSet {
        err := Some(Raised(TypeError));
      }
      global.callChainSet := true;
      global.chainRunning := false;
      SetLoading(false, err);
    }

    /**
     * `navigateTo`, `redirectTo` and `reLaunch`: the options with the URL
     * built from the data, then a truthy `richData` pushed to the mailbox; a
     * URL that cannot be built raises before anything is pushed.
     */
    method Navigate(option: Value) returns (r: Result<Value>)
      modifies mailbox
      ensures r == NavOptions(codec, option)
      ensures r.Raise? ==> unchanged(mailbox)
      ensures r.Ok? && Truthy(GetProp(r.value, "richData").value) ==>
        mailbox.dataAcross == Pushed(old(mailbox.dataAcross), "richData", GetProp(r.value, "richData").value)
      ensures r.Ok? && !Truthy(GetProp(r.value, "richData").value) ==> unchanged(mailbox)
    {
      r := NavOptions(codec, option);
      if r.Raise? {
        return;
      }
      NavKeepsShape(codec, option);
      var rich := GetProp(r.value, "richData").value;
      if Truthy(rich) {
        mailbox.PushData("richData", rich);
      }
    }
  }

  /** The options a navigation builds are never undefined or null. */
  lemma NavKeepsShape(c: Url.Codec, option: Value)
    requires NavOptions(c, option).Ok?
    ensures !IsNullish(NavOptions(c, option).value)
  {
  }

  /**
   * Opening a page: the wrapped `onLoad` queues the load step and the wrapped
   * `onShow` drains it with the show step, load first. So the first show runs
   * exactly a reload of a page with an empty chain.
   */
  lemma FirstShowIsReload(s: StepState, cb: Callbacks, lo: Value)
    ensures RunSteps(s, [] + [LoadStep] + [ShowStep], cb, lo).0 == ReloadEffect(s, false, [], cb, lo).0
    ensures ChainError(RunSteps(s, [] + [LoadStep] + [ShowStep], cb, lo).1) == ReloadEffect(s, false, [], cb, lo).1
  {
    assert [] + [LoadStep] + [ShowStep] == [] + [LoadStep, ShowStep];
  }
}
