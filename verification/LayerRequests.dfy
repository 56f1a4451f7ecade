/** The map page's layer requests (web/app.js, loadLayer): overlapping loads, quiet
    polls and aborts, told apart by a sequence number. The page is single threaded,
    so a load is two steps: what runs before its first await, and what runs when its
    request settles. */
module LayerRequests {
  import opened Wrappers

  datatype Text = Loading | TooMany | CouldNotLoad

  /** The loading box: its `hidden`, text and `is-error`. */
  datatype Box = Box(hidden: bool, text: Text, isError: bool)

  const NO_BOX := Box(true, Loading, false)

  /** How a request settles. `Broke` is an exception while drawing a layer that did
      arrive; `Aborted` only follows the request's own abort. */
  datatype Result = Drawn | Broke | Failed(status: nat) | Aborted

  /** One call: `quiet` as it stands after a visible load was taken over. */
  datatype Request = Request(quiet: bool, aborted: bool, result: Option<Result>)

  /** `shown` numbers the request whose cells are in state.features, 0 before any.
      Request n is requests[n - 1]; `held` is the one state.layerAbort can abort. */
  datatype Page = Page(requests: seq<Request>, held: Option<nat>, shown: nat, box: Box, refetching: bool) {
    function LayerSeq(): nat { |requests| }
  }

  const OPENED := Page([], None, 0, NO_BOX, false)

  datatype Step = Load(quiet: bool) | Settle(n: nat, result: Result)

  function AbortHeld(p: Page): seq<Request> {
    if p.held.None? || p.held.value == 0 || p.held.value > |p.requests| then p.requests
    else p.requests[p.held.value - 1 := p.requests[p.held.value - 1].(aborted := true)]
  }

  function Started(p: Page, quiet: bool): Page {
    var quietly := quiet && p.box.hidden;
    var requests := AbortHeld(p) + [Request(quietly, false, None)];
    Page(requests, Some(|requests|), p.shown,
      if quietly then p.box else Box(false, Loading, false),
      p.refetching || !quietly)
  }

  predicate Outstanding(p: Page, n: nat) {
    1 <= n <= |p.requests| && p.requests[n - 1].result.None?
  }

  /** The box after an error that is this load's to report. */
  function Reported(result: Result): Box {
    Box(false, if result == Failed(429) then TooMany else CouldNotLoad, true)
  }

  function Settled(p: Page, n: nat, result: Result): Page
    requires Outstanding(p, n)
  {
    var q := p.(requests := p.requests[n - 1 := p.requests[n - 1].(result := Some(result))]);
    if n != p.LayerSeq() then q
    else
      var drawn := if result.Drawn? || result.Broke? then q.(shown := n) else q;
      var boxed :=
        if result.Drawn? then drawn.(box := NO_BOX)
        else if result.Aborted? || p.requests[n - 1].quiet then drawn
        else drawn.(box := Reported(result));
      boxed.(refetching := false)
  }

  predicate Enabled(p: Page, step: Step) {
    match step
    case Load(_) => true
    case Settle(n, result) => Outstanding(p, n) && (result.Aborted? ==> p.requests[n - 1].aborted)
  }

  function Next(p: Page, step: Step): Page
    requires Enabled(p, step)
  {
    match step
    case Load(quiet) => Started(p, quiet)
    case Settle(n, result) => Settled(p, n, result)
  }

  /** Any interleaving of loads, polls, aborts, successes and failures. */
  predicate Run(p: Page, steps: seq<Step>)
    decreases |steps|
  {
    steps == [] || (Enabled(p, steps[0]) && Run(Next(p, steps[0]), steps[1..]))
  }

  function After(p: Page, steps: seq<Step>): Page
    requires Run(p, steps)
    decreases |steps|
  {
    if steps == [] then p else After(Next(p, steps[0]), steps[1..])
  }

  // ---- what the screen says

  function Newest(p: Page): Request
    requires p.requests != []
  {
    p.requests[|p.requests| - 1]
  }

  /** What the box and the dimmed map say of the newest request, in every case. */
  predicate ScreenTells(p: Page)
    requires p.requests != []
  {
    match Newest(p).result
    case None =>
      && p.refetching == !Newest(p).quiet
      && p.box == if Newest(p).quiet then NO_BOX else Box(false, Loading, false)
    case Some(result) =>
      && !p.refetching
      && p.box == if result.Drawn? || Newest(p).quiet then NO_BOX else Reported(result)
  }

  /** Only requests before the newest are ever aborted, and all those still out are. */
  predicate AbortsExact(p: Page) {
    && (|p.requests| > 0 ==> !Newest(p).aborted)
    && forall i :: 0 <= i < |p.requests| - 1 ==> p.requests[i].aborted || p.requests[i].result.Some?
  }

  /** `shown` is the last request that arrived while it was the newest. */
  predicate ShownArrived(p: Page) {
    && p.shown <= |p.requests|
    && (p.shown > 0 ==> p.requests[p.shown - 1].result in {Some(Drawn), Some(Broke)})
    && (p.requests != [] && Newest(p).result in {Some(Drawn), Some(Broke)} ==> p.shown == |p.requests|)
  }

  predicate NeverSelfAborted(p: Page) {
    p.requests != [] ==> Newest(p).result != Some(Aborted)
  }

  ghost predicate Inv(p: Page) {
    && p.held == (if p.requests == [] then None else Some(|p.requests|))
    && (if p.requests == [] then p == OPENED else ScreenTells(p))
    && AbortsExact(p) && NeverSelfAborted(p) && ShownArrived(p)
  }

  lemma NextInv(p: Page, step: Step)
    requires Inv(p) && Enabled(p, step)
    ensures Inv(Next(p, step))
  {
    match step
    case Load(quiet) => StartedInv(p, quiet);
    case Settle(n, result) => SettledInv(p, n, result);
  }

  lemma StartedInv(p: Page, quiet: bool)
    requires Inv(p)
    ensures Inv(Started(p, quiet))
  {
    var q := Started(p, quiet);
    assert Newest(q) == Request(quiet && p.box.hidden, false, None);
    forall i | 0 <= i < |p.requests|
      ensures q.requests[i] == p.requests[i].(aborted := i == |p.requests| - 1 || p.requests[i].aborted) {
    }
  }

  lemma SettledInv(p: Page, n: nat, result: Result)
    requires Inv(p) && Enabled(p, Settle(n, result))
    ensures Inv(Settled(p, n, result))
  {
    var q := Settled(p, n, result);
    forall i | 0 <= i < |p.requests|
      ensures q.requests[i] == if i == n - 1 then p.requests[i].(result := Some(result)) else p.requests[i]
    {
    }
  }

  lemma {:induction false} RunInv(p: Page, steps: seq<Step>)
    requires Inv(p) && Run(p, steps)
    ensures Inv(After(p, steps))
    decreases |steps|
  {
    if steps != [] {
      NextInv(p, steps[0]);
      RunInv(Next(p, steps[0]), steps[1..]);
    }
  }

  // ---- the guarantees

  /** The box reads "Loading" only while a load the user can see is outstanding, and
      the map is dimmed exactly then: once the newest request has settled the box is
      hidden or shows an error, whatever the older ones did or will do. */
  lemma {:induction false} NeverStuckLoading(steps: seq<Step>)
    requires Run(OPENED, steps)
    ensures var p := After(OPENED, steps);
      && (p.refetching <==> p.requests != [] && Newest(p).result.None? && !Newest(p).quiet)
      && (!p.box.hidden && p.box.text == Loading <==> p.refetching)
      && (!p.box.hidden && !p.refetching <==> p.box.isError)
      && (p.box.isError
          <==> p.requests != [] && !Newest(p).quiet && Newest(p).result.Some? && Newest(p).result != Some(Drawn))
      && (p.box.isError ==> p.box.text == if Newest(p).result == Some(Failed(429)) then TooMany else CouldNotLoad)
  {
    RunInv(OPENED, steps);
  }

  /** A request is aborted only by a later one, so the newest always runs to its own
      end; and when it arrives its cells are the ones shown. */
  lemma {:induction false} NewestIsNeverAborted(steps: seq<Step>)
    requires Run(OPENED, steps) && After(OPENED, steps).requests != []
    ensures var p := After(OPENED, steps);
      && !Newest(p).aborted && Newest(p).result != Some(Aborted)
      && (forall n :: 1 <= n < p.LayerSeq() && Outstanding(p, n) ==> p.requests[n - 1].aborted)
      && (Newest(p).result == Some(Drawn) ==> p.shown == p.LayerSeq() && p.box.hidden)
  {
    RunInv(OPENED, steps);
  }

  /** The layer on screen never goes back to an older request. */
  lemma {:induction false} ShownOnlyGrows(p: Page, steps: seq<Step>)
    requires Inv(p) && Run(p, steps)
    ensures p.shown <= After(p, steps).shown <= After(p, steps).LayerSeq()
    ensures After(p, steps).shown != p.shown ==> p.LayerSeq() <= After(p, steps).shown
    decreases |steps|
  {
    if steps != [] {
      NextInv(p, steps[0]);
      ShownOnlyGrows(Next(p, steps[0]), steps[1..]);
    }
  }

  /** Steps of requests older than `n` settling. */
  predicate OnlyOlder(steps: seq<Step>, n: nat) {
    forall i :: 0 <= i < |steps| ==> steps[i].Settle? && steps[i].n < n
  }

  predicate SameScreen(p: Page, q: Page) {
    p.shown == q.shown && p.box == q.box && p.refetching == q.refetching
  }

  /** However a superseded request ends, nothing on screen moves. */
  lemma {:induction false} SupersededIsSilent(p: Page, steps: seq<Step>)
    requires Run(p, steps) && OnlyOlder(steps, p.LayerSeq())
    ensures SameScreen(p, After(p, steps)) && After(p, steps).LayerSeq() == p.LayerSeq()
    ensures p.requests != [] ==> Newest(After(p, steps)) == Newest(p)
    decreases |steps|
  {
    if steps != [] {
      SupersededIsSilent(Next(p, steps[0]), steps[1..]);
    }
  }

  /** A poll that fails leaves the screen as it found it: untouched when nothing was
      being loaded, and otherwise it has taken the visible load over, so it reports. */
  lemma {:induction false} FailedPoll(before: seq<Step>, between: seq<Step>, status: nat)
    requires Run(OPENED, before)
    requires var p := Started(After(OPENED, before), true); Run(p, between) && OnlyOlder(between, p.LayerSeq())
    ensures var p := After(OPENED, before);
      var q := After(Started(p, true), between);
      && Outstanding(q, q.LayerSeq())
      && var r := Settled(q, q.LayerSeq(), Failed(status));
         && (p.box.hidden ==> SameScreen(p, r))
         && (!p.box.hidden ==>
               && r.box == Box(false, if status == 429 then TooMany else CouldNotLoad, true)
               && r.shown == p.shown && !r.refetching)
  {
    RunInv(OPENED, before);
    var p := After(OPENED, before);
    StartedInv(p, true);
    assert Newest(Started(p, true)) == Request(p.box.hidden, false, None);
    SupersededIsSilent(Started(p, true), between);
  }

  // ---- the page's own fields

  class MapPage {
    var requests: seq<Request>
    var layerAbort: Option<nat>
    var features: nat
    var loading: Box
    var refetching: bool

    ghost function State(): Page
      reads this
    {
      Page(requests, layerAbort, features, loading, refetching)
    }

    constructor ()
      ensures State() == OPENED
    {
      requests, layerAbort, features, loading, refetching := [], None, 0, NO_BOX, false;
    }

    /** `loadLayer` up to its first await. */
    method LoadLayer(quiet: bool) returns (layerSeq: nat, quietly: bool)
      modifies this
      ensures State() == Started(old(State()), quiet)
      ensures layerSeq == |requests| && quietly == requests[layerSeq - 1].quiet
    {
      quietly := quiet && loading.hidden;
      layerSeq := |requests| + 1;
      match layerAbort {
        case None =>
        case Some(n) =>
          if 1 <= n <= |requests| {
            requests := requests[n - 1 := requests[n - 1].(aborted := true)];
          }
      }
      requests := requests + [Request(quietly, false, None)];
      layerAbort := Some(layerSeq);
      if !quietly {
        refetching := true;
        loading := Box(false, Loading, false);
      }
    }

    /** `loadLayer` from the answer on: the try, its catch and its finally. */
    method Settle(layerSeq: nat, result: Result)
      requires Outstanding(State(), layerSeq)
      modifies this
      ensures State() == Settled(old(State()), layerSeq, result)
    {
      var quiet := requests[layerSeq - 1].quiet;
      requests := requests[layerSeq - 1 := requests[layerSeq - 1].(result := Some(result))];
      if (result.Drawn? || result.Broke?) && layerSeq == |requests| {
        features := layerSeq;
        if result.Drawn? {
          loading := NO_BOX;
        }
      }
      if !result.Drawn? && !result.Aborted? && layerSeq == |requests| && !quiet {
        loading := Reported(result);
      }
      if layerSeq == |requests| {
        refetching := false;
      }
    }
  }
}
