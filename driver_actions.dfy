/** The driver-level wrappers of `Driver`: every browser call goes through
    `SafeCapsule`, which runs the delegate, lets the driver cool down, and
    turns a WebDriverException into a null result routed to a handler or to
    the log. Also `ScrollToBottom`, which scrolls until the page height stops
    growing. The delegate's effect is an input: what invoking it does. */
module DriverActions {
  import opened Wrappers

  /** The kind of delegate handed to a capsule: a function with a result, an
      action without one, or anything else. */
  datatype Shape = FuncShape | ActionShape | UnknownShape

  /** What invoking the delegate does: returns a value (`None` standing for
      null) or raises an exception. */
  datatype Invocation<T> = Returned(value: Option<T>) | Raised(error: Exception)

  /** An event handler: absent, or present and either "empty" (its first
      parameter is compiler-named, as `Driver.IsEmptyEventHandler` tests) or
      not. */
  datatype Handler = NoHandler | Handler(empty: bool)

  /** Where an intercepted WebDriverException goes. */
  datatype Routing = Logged | CallSiteInvoked | GenericInvoked | Swallowed

  /** What a capsule did: its result, whether the cooldown `Sleep` ran,
      whether the "scenario not implemented" Critical entry was logged, and
      how an intercepted fault was routed. */
  datatype Capsule<T> = Capsule(result: Option<T>, slept: bool, criticalLogged: bool, routing: Option<Routing>)

  /** A lookup: whether it found something, and its output. */
  datatype Lookup<T> = Lookup(found: bool, output: Option<T>)

  /** `Driver.IsEmptyEventHandler`: reads the handler's method, so a null
      handler raises a null dereference. */
  function IsEmptyEventHandler(handler: Handler): (r: Result<bool>)
    ensures r.Threw? <==> handler.NoHandler?
    ensures r.Threw? ==> r.error == NullReferenceException
    ensures r.Ok? ==> r.value == handler.empty
  {
    match handler
    case NoHandler => Threw(NullReferenceException)
    case Handler(empty) => Ok(empty)
  }

  /** The catch branch of the driver capsule as written. `callSite` is the handler
      passed to the call, `generic` the driver's own `ExceptionRaised`. The
      third test asks whether the call-site handler is empty, so it
      dereferences a missing one, and it is only reached when the call-site
      handler is missing or empty: the generic handler is never invoked. */
  function Route(callSite: Handler, generic: Handler): (r: Result<Routing>)
    ensures r == Ok(Logged) <==> callSite.NoHandler? && generic.NoHandler?
    ensures r == Ok(CallSiteInvoked) <==> callSite.Handler? && !callSite.empty
    ensures r.Threw? <==> callSite.NoHandler? && generic.Handler?
    ensures r.Threw? ==> r.error == NullReferenceException
    ensures r == Ok(Swallowed) <==> callSite.Handler? && callSite.empty
    ensures r != Ok(GenericInvoked)
  {
    if callSite.NoHandler? && generic.NoHandler? then Ok(Logged)
    else if callSite.Handler? && !callSite.empty then Ok(CallSiteInvoked)
    else if generic.Handler? then
      match IsEmptyEventHandler(callSite)
      case Threw(e) => Threw(e)
      case Ok(empty) => if !empty then Ok(GenericInvoked) else Ok(Swallowed)
    else Ok(Swallowed)
  }

  /** The catch branch as its third test evidently means it: asking whether
      the driver's generic handler, not the call-site one, is empty. Nothing
      is dereferenced that may be missing, and a generic handler that is not
      empty is invoked when the call-site handler is missing or empty. */
  function RouteIntended(callSite: Handler, generic: Handler): (r: Routing)
    ensures r == Logged <==> callSite.NoHandler? && generic.NoHandler?
    ensures r == CallSiteInvoked <==> callSite.Handler? && !callSite.empty
    ensures r == GenericInvoked <==> (callSite.NoHandler? || callSite.empty) && generic.Handler? && !generic.empty
    ensures r == Swallowed <==>
      || ((callSite.NoHandler? || callSite.empty) && generic.Handler? && generic.empty)
      || (callSite.Handler? && callSite.empty && generic.NoHandler?)
  {
    if callSite.NoHandler? && generic.NoHandler? then Logged
    else if callSite.Handler? && !callSite.empty then CallSiteInvoked
    else if generic.Handler? && !generic.empty then GenericInvoked
    else Swallowed
  }

  /** Where the two routings part: without a call-site handler, a generic
      handler makes the code as written raise where it should be invoked. */
  lemma GenericHandlerUnreachable()
    ensures Route(NoHandler, Handler(false)) == Threw(NullReferenceException)
    ensures RouteIntended(NoHandler, Handler(false)) == GenericInvoked
  {
  }

  /** Without a generic handler, which is how the scraper's driver runs, the
      two routings agree. */
  lemma RoutesAgreeWithoutGeneric(callSite: Handler)
    ensures Route(callSite, NoHandler) == Ok(RouteIntended(callSite, NoHandler))
  {
  }

  /** `Driver.SafeCapsule`, routing an intercepted fault as intended. Only a
      WebDriverException is intercepted: the result is then null and the
      cooldown is skipped. Any other exception escapes. */
  function SafeCapsule<T>(shape: Shape, call: Invocation<T>, callSite: Handler, generic: Handler): (r: Result<Capsule<T>>)
    ensures shape.FuncShape? && call.Returned? ==> r == Ok(Capsule(call.value, true, false, None))
    ensures shape.ActionShape? && call.Returned? ==> r == Ok(Capsule(None, true, false, None))
    ensures shape.UnknownShape? ==> r == Ok(Capsule(None, true, true, None))
    ensures r.Ok? ==> (r.value.slept <==> r.value.routing.None?)
    ensures r.Ok? && r.value.routing.Some? ==>
      && !shape.UnknownShape? && call == Raised(WebDriverException)
      && r.value.result.None?
      && r.value.routing.value == RouteIntended(callSite, generic)
    ensures r.Threw? <==> !shape.UnknownShape? && call.Raised? && !call.error.WebDriverException?
    ensures r.Threw? ==> r.error == call.error
  {
    match shape
    case UnknownShape => Ok(Capsule(None, true, true, None))
    case _ =>
      match call
      case Returned(v) => Ok(Capsule(if shape.FuncShape? then v else None, true, false, None))
      case Raised(e) =>
        if e.WebDriverException? then Ok(Capsule(None, false, false, Some(RouteIntended(callSite, generic))))
        else Threw(e)
  }

  /** `Safely` for an element or a collection: the capsule's result. */
  function Safely<T>(call: Invocation<T>, callSite: Handler, generic: Handler): (r: Result<Option<T>>)
    ensures call.Returned? ==> r == Ok(call.value)
    ensures r.Ok? && r.value.Some? ==> call == Returned(r.value)
  {
    match SafeCapsule(FuncShape, call, callSite, generic)
    case Ok(c) => Ok(c.result)
    case Threw(e) => Threw(e)
  }

  /** `Safely` for a string: the capsule's result is converted with
      `ToString()`, so a null result, whether returned or produced by an
      intercepted fault, raises a null dereference. */
  function SafelyString(call: Invocation<string>, callSite: Handler, generic: Handler): (r: Result<string>)
    ensures r.Ok? <==> call.Returned? && call.value.Some?
    ensures r.Ok? ==> r.value == call.value.value
    ensures call == Raised(WebDriverException) ==> r == Threw(NullReferenceException)
  {
    match Safely(call, callSite, generic)
    case Ok(Some(s)) => Ok(s)
    case Ok(None) => Threw(NullReferenceException)
    case Threw(e) => Threw(e)
  }

  /** `Safely` for an action: no result, only the capsule's effects. */
  function SafelyAction(call: Invocation<()>, callSite: Handler, generic: Handler): (r: Result<Capsule<()>>)
    ensures r.Ok? ==> r.value.result.None?
    ensures r.Ok? ==> (r.value.slept <==> call.Returned?)
  {
    SafeCapsule(ActionShape, call, callSite, generic)
  }

  /** `TryFindElement`: true exactly when the output is not null. */
  function TryFindElement<T>(call: Invocation<T>, callSite: Handler, generic: Handler): (r: Result<Lookup<T>>)
    ensures r.Ok? ==> (r.value.found <==> r.value.output.Some?)
    ensures r.Ok? && r.value.found ==> call == Returned(r.value.output)
    ensures call.Returned? ==> r == Ok(Lookup(call.value.Some?, call.value))
  {
    match Safely(call, callSite, generic)
    case Ok(output) => Ok(Lookup(output.Some?, output))
    case Threw(e) => Threw(e)
  }

  /** `TryFindElements`: true exactly when the output is not null and holds
      at least one element. */
  function TryFindElements<T>(call: Invocation<seq<T>>, callSite: Handler, generic: Handler): (r: Result<Lookup<seq<T>>>)
    ensures r.Ok? ==> (r.value.found <==> r.value.output.Some? && |r.value.output.value| > 0)
    ensures r.Ok? && r.value.found ==> call == Returned(r.value.output)
  {
    match Safely(call, callSite, generic)
    case Ok(output) => Ok(Lookup(output.Some? && |output.value| > 0, output))
    case Threw(e) => Threw(e)
  }

  /** A WebDriverException with a call-site handler that is not empty makes a
      lookup report "not found" rather than fail. */
  lemma HandledFaultIsNotFound<T>(callSite: Handler, generic: Handler)
    requires callSite.Handler? && !callSite.empty
    ensures TryFindElement<T>(Raised(WebDriverException), callSite, generic) == Ok(Lookup(false, None))
    ensures TryFindElements<T>(Raised(WebDriverException), callSite, generic) == Ok(Lookup(false, None))
  {
  }

  // ----- ScrollToBottom -----

  /** One turn of the scrolling loop: the cancellation check, then the page
      height read if the check passed. */
  datatype Probe = Probe(cancelled: bool, height: int)

  datatype ScrollEnd = Settled | CancelledScroll | OutOfProbes

  /** How the loop ended and the scroll amounts it issued, in order. */
  datatype ScrollRun = ScrollRun(end: ScrollEnd, scrolls: seq<int>)

  /** The scrolling loop with `previous` the last height seen. The loop
      stops at the first height equal to the previous one, or on
      cancellation; every other reading becomes the new previous height and
      the amount scrolled. */
  function Scroll(probes: seq<Probe>, previous: int): (r: ScrollRun)
    decreases |probes|
  {
    if probes == [] then ScrollRun(OutOfProbes, [])
    else if probes[0].cancelled then ScrollRun(CancelledScroll, [])
    else if probes[0].height == previous then ScrollRun(Settled, [])
    else
      var rest := Scroll(probes[1..], probes[0].height);
      ScrollRun(rest.end, [probes[0].height] + rest.scrolls)
  }

  /** What the scrolling loop does, in full: it scrolls by each height it
      reads, in order, none of them cancelled and each different from the
      one before; it ends out of probes exactly when every probe was used;
      otherwise the next probe is the one that stopped it, either cancelled
      or reading the same height as the last one. */
  lemma {:induction false} ScrollCharacterised(probes: seq<Probe>, previous: int)
    ensures var r := Scroll(probes, previous);
      && |r.scrolls| <= |probes|
      && (forall i :: 0 <= i < |r.scrolls| ==> r.scrolls[i] == probes[i].height && !probes[i].cancelled)
      && (forall i :: 0 <= i < |r.scrolls| ==> r.scrolls[i] != (if i == 0 then previous else r.scrolls[i - 1]))
      && (r.end == OutOfProbes <==> |r.scrolls| == |probes|)
      && (r.end == CancelledScroll ==> probes[|r.scrolls|].cancelled)
      && (r.end == Settled ==>
            && !probes[|r.scrolls|].cancelled
            && probes[|r.scrolls|].height == (if r.scrolls == [] then previous else r.scrolls[|r.scrolls| - 1]))
    decreases |probes|
  {
    if probes != [] && !probes[0].cancelled && probes[0].height != previous {
      ScrollCharacterised(probes[1..], probes[0].height);
      var rest := Scroll(probes[1..], probes[0].height);
      var r := Scroll(probes, previous);
      assert r.scrolls == [probes[0].height] + rest.scrolls;
      forall i | 1 <= i < |r.scrolls|
        ensures r.scrolls[i] == probes[i].height && !probes[i].cancelled
        ensures r.scrolls[i] != r.scrolls[i - 1]
      {
        assert r.scrolls[i] == rest.scrolls[i - 1];
        assert probes[1..][i - 1] == probes[i];
        if i >= 2 {
          assert r.scrolls[i - 1] == rest.scrolls[i - 2];
        }
      }
      if r.end != OutOfProbes {
        assert probes[1..][|rest.scrolls|] == probes[|r.scrolls|];
      }
    }
  }

  /** `ScrollToBottom`: the previous height starts at 0. */
  method ScrollToBottom(probes: seq<Probe>) returns (run: ScrollRun)
    ensures run == Scroll(probes, 0)
  {
    var previousScrollHeight := 0;
    var scrolls: seq<int> := [];
    var k := 0;
    while k < |probes|
      invariant 0 <= k <= |probes|
      invariant previousScrollHeight == (if k == 0 then 0 else probes[k - 1].height)
      invariant Scroll(probes, 0) == ScrollRun(Scroll(probes[k..], previousScrollHeight).end,
                                               scrolls + Scroll(probes[k..], previousScrollHeight).scrolls)
      decreases |probes| - k
    {
      assert probes[k..][0] == probes[k] && probes[k..][1..] == probes[k + 1..];
      if probes[k].cancelled {
        return ScrollRun(CancelledScroll, scrolls);
      }
      var scrollHeight := probes[k].height;
      if scrollHeight == previousScrollHeight {
        return ScrollRun(Settled, scrolls);
      }
      previousScrollHeight := scrollHeight;
      scrolls := scrolls + [previousScrollHeight];
      k := k + 1;
    }
    assert probes[k..] == [];
    run := ScrollRun(OutOfProbes, scrolls);
  }
}
