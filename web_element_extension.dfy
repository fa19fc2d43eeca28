/** The element-level wrappers of `WebElementExtension`. Unlike the driver
    capsule, the element capsule has no cooldown and one handler: a
    WebDriverException is passed to that handler when there is one and is
    rethrown otherwise. */
module ElementActions {
  import opened Wrappers
  import opened DriverActions

  /** What an element capsule did: its result, whether the "scenario not
      implemented" Critical entry was logged, and whether the handler was
      invoked (after a Low entry). */
  datatype ElementRun<T> = ElementRun(result: Option<T>, criticalLogged: bool, handlerInvoked: bool)

  /** `WebElementExtension.SafeCapsule`. The three function shapes (string,
      element, collection) all hand back their result. */
  function SafeCapsule<T>(shape: Shape, call: Invocation<T>, hasHandler: bool): (r: Result<ElementRun<T>>)
    ensures shape.FuncShape? && call.Returned? ==> r == Ok(ElementRun(call.value, false, false))
    ensures shape.ActionShape? && call.Returned? ==> r == Ok(ElementRun(None, false, false))
    ensures shape.UnknownShape? ==> r == Ok(ElementRun(None, true, false))
    ensures r.Ok? && r.value.handlerInvoked <==>
      !shape.UnknownShape? && call == Raised(WebDriverException) && hasHandler
    ensures r.Ok? && r.value.handlerInvoked ==> r.value.result.None?
    ensures r.Threw? <==> !shape.UnknownShape? && call.Raised? && (!call.error.WebDriverException? || !hasHandler)
    ensures r.Threw? ==> call.Raised? && r.error == call.error
  {
    match shape
    case UnknownShape => Ok(ElementRun(None, true, false))
    case _ =>
      match call
      case Returned(v) => Ok(ElementRun(if shape.FuncShape? then v else None, false, false))
      case Raised(e) =>
        if e.WebDriverException? && hasHandler then Ok(ElementRun(None, false, true))
        else Threw(e)
  }

  /** `Safely` for an element or a collection. */
  function Safely<T>(call: Invocation<T>, hasHandler: bool): (r: Result<Option<T>>)
    ensures call.Returned? ==> r == Ok(call.value)
    ensures r.Ok? && r.value.Some? ==> call == Returned(r.value)
    ensures r.Threw? <==> call.Raised? && (!call.error.WebDriverException? || !hasHandler)
  {
    match SafeCapsule(FuncShape, call, hasHandler)
    case Ok(run) => Ok(run.result)
    case Threw(e) => Threw(e)
  }

  /** `Safely` for a string: `ToString()` on a null result raises a null
      dereference, so a handled fault still fails. */
  function SafelyString(call: Invocation<string>, hasHandler: bool): (r: Result<string>)
    ensures r.Ok? <==> call.Returned? && call.value.Some?
    ensures r.Ok? ==> r.value == call.value.value
    ensures call == Raised(WebDriverException) ==>
      r == Threw(if hasHandler then NullReferenceException else WebDriverException)
  {
    match Safely(call, hasHandler)
    case Ok(Some(s)) => Ok(s)
    case Ok(None) => Threw(NullReferenceException)
    case Threw(e) => Threw(e)
  }

  /** `Safely` for an action. */
  function SafelyAction(call: Invocation<()>, hasHandler: bool): (r: Result<ElementRun<()>>)
    ensures r.Ok? ==> r.value.result.None? && !r.value.criticalLogged
    ensures r.Ok? ==> (r.value.handlerInvoked <==> call.Raised?)
  {
    SafeCapsule(ActionShape, call, hasHandler)
  }

  /** `TryFindElement`: true exactly when the output is not null. */
  function TryFindElement<T>(call: Invocation<T>, hasHandler: bool): (r: Result<Lookup<T>>)
    ensures r.Ok? ==> (r.value.found <==> r.value.output.Some?)
    ensures r.Ok? && r.value.found ==> call == Returned(r.value.output)
    ensures r.Threw? <==> call.Raised? && (!call.error.WebDriverException? || !hasHandler)
  {
    match Safely(call, hasHandler)
    case Ok(output) => Ok(Lookup(output.Some?, output))
    case Threw(e) => Threw(e)
  }

  /** `TryFindElements`: true exactly when the output is not null and not
      empty. */
  function TryFindElements<T>(call: Invocation<seq<T>>, hasHandler: bool): (r: Result<Lookup<seq<T>>>)
    ensures r.Ok? ==> (r.value.found <==> r.value.output.Some? && |r.value.output.value| > 0)
    ensures r.Ok? && r.value.found ==> call == Returned(r.value.output)
    ensures r.Threw? <==> call.Raised? && (!call.error.WebDriverException? || !hasHandler)
  {
    match Safely(call, hasHandler)
    case Ok(output) => Ok(Lookup(output.Some? && |output.value| > 0, output))
    case Threw(e) => Threw(e)
  }

  /** What `SafelyClickAndWait` did: whether the driver slept after the
      click, and whether the handler was invoked. */
  datatype ClickRun = ClickRun(slept: bool, handlerInvoked: bool)

  /** `SafelyClickAndWait`: the click and the driver's sleep run as one
      action inside the capsule, so a click that faults skips the sleep. */
  function SafelyClickAndWait(click: Invocation<()>, hasHandler: bool): (r: Result<ClickRun>)
    ensures r.Ok? ==> (r.value.slept <==> click.Returned?)
    ensures r.Ok? ==> (r.value.slept <==> !r.value.handlerInvoked)
    ensures r.Threw? <==> click.Raised? && (!click.error.WebDriverException? || !hasHandler)
  {
    match SafeCapsule(ActionShape, click, hasHandler)
    case Ok(run) => Ok(ClickRun(click.Returned?, run.handlerInvoked))
    case Threw(e) => Threw(e)
  }

  /** What the browser reports about an element and the window: the
      element's visibility, location and size, the window size and the page
      scroll offsets. */
  datatype Geometry = Geometry(
    displayed: bool, x: int, y: int, width: int, height: int,
    windowWidth: int, windowHeight: int, offsetX: int, offsetY: int)

  /** The test inside `IsEntirelyDisplayed`. */
  predicate InsideWindow(g: Geometry)
  {
    && g.displayed && g.x > 0 && g.y > 0
    && g.width + g.x <= g.windowWidth + g.offsetX
    && g.height + g.y <= g.windowHeight + g.offsetY
  }

  /** A point of the page strictly right of and below the page origin and
      not beyond the bottom-right corner of the scrolled window. */
  predicate InPage(g: Geometry, px: int, py: int)
  {
    0 < px <= g.windowWidth + g.offsetX && 0 < py <= g.windowHeight + g.offsetY
  }

  /** The test holds exactly when the element is displayed and every point
      of its rectangle lies in that region; for an element of non-negative
      size, exactly when its two opposite corners do. */
  lemma InsideWindowIsContainment(g: Geometry)
    requires g.width >= 0 && g.height >= 0
    ensures InsideWindow(g) <==> g.displayed && InPage(g, g.x, g.y) && InPage(g, g.x + g.width, g.y + g.height)
    ensures InsideWindow(g) <==>
      g.displayed && forall px, py :: g.x <= px <= g.x + g.width && g.y <= py <= g.y + g.height ==> InPage(g, px, py)
  {
    if g.displayed && forall px, py :: g.x <= px <= g.x + g.width && g.y <= py <= g.y + g.height ==> InPage(g, px, py) {
      assert InPage(g, g.x, g.y);
      assert InPage(g, g.x + g.width, g.y + g.height);
    }
  }

  /** The left and top edges are compared with the page origin, not with the
      scrolled window: an element that has scrolled out above the window
      still passes. */
  lemma ScrolledAboveStillPasses(g: Geometry)
    requires g.displayed && 0 < g.x && g.x + g.width <= g.windowWidth + g.offsetX
    requires 0 < g.y && g.y + g.height <= g.offsetY && g.windowHeight >= 0
    ensures InsideWindow(g)
  {
  }

  /** Reading the geometry either succeeds or raises an exception. */
  datatype Reading = Read(geometry: Geometry) | ReadRaised(error: Exception)

  /** `IsEntirelyDisplayed`: `result` starts false and is set only by the
      test; a WebDriverException while reading the geometry leaves it false
      when there is a handler and escapes otherwise. */
  function IsEntirelyDisplayed(read: Reading, hasHandler: bool): (r: Result<bool>)
    ensures read.Read? ==> r == Ok(InsideWindow(read.geometry))
    ensures read == ReadRaised(WebDriverException) && hasHandler ==> r == Ok(false)
    ensures r.Threw? <==> read.ReadRaised? && (!read.error.WebDriverException? || !hasHandler)
    ensures r.Threw? ==> r.error == read.error
  {
    var action: Invocation<()> := match read case Read(_) => Returned(None) case ReadRaised(e) => Raised(e);
    var result := read.Read? && InsideWindow(read.geometry);
    match SafeCapsule(ActionShape, action, hasHandler)
    case Ok(_) => Ok(result)
    case Threw(e) => Threw(e)
  }
}
