/** Turn-by-turn progress along a route (`navProgress` in web/directions.js). */
module Navigation {
  import opened Wrappers
  import opened Polyline

  const NAV_STEP_DONE_M := 15.0
  const NAV_LOOKAHEAD := 3
  const GRACE_MS := 60000.0

  /** A step of the route; `endsAt` is when a transit leg ends, in milliseconds. */
  datatype NavStep = NavStep(points: seq<LngLat>, endsAt: Option<real>)

  datatype Fix = Fix(p: LngLat, cosLat: real, now: real)

  datatype Progress = Progress(index: nat, offRoute: Option<real>, remaining: Option<real>)

  /** Where the visitor falls on each step's own line; None for a step without one. */
  type Views = seq<Option<OnLine>>

  function OnSteps(h: (real, real) -> real, steps: seq<NavStep>, fix: Fix): (v: Views)
    ensures |v| == |steps|
    ensures forall i :: 0 <= i < |v| ==> v[i] == OnLineAt(h, Projected(steps[i].points, fix.p, fix.cosLat))
  {
    seq(|steps|, i requires 0 <= i < |steps| => OnLineAt(h, Projected(steps[i].points, fix.p, fix.cosLat)))
  }

  function Left(at: OnLine): real {
    if at.total - at.along > 0.0 then at.total - at.along else 0.0
  }

  /** More than a minute past the time the step ends; a time of zero is no time. */
  predicate Ended(step: NavStep, now: real) {
    step.endsAt.Some? && step.endsAt.value != 0.0 && step.endsAt.value + GRACE_MS < now
  }

  function SkipEnded(steps: seq<NavStep>, index: nat, now: real): (r: nat)
    ensures index <= r && (index < |steps| ==> r < |steps|)
    decreases |steps| - index
  {
    if index + 1 < |steps| && Ended(steps[index], now) then SkipEnded(steps, index + 1, now) else index
  }

  datatype Choice = Choice(i: nat, at: OnLine)

  /** The step chosen among `lo` up to `hi`: a later one only if more than a metre
      nearer than the choice so far. */
  function Chosen(v: Views, lo: nat, hi: nat): (r: Option<Choice>)
    requires hi <= |v|
    ensures r.Some? ==> lo <= r.value.i < hi && v[r.value.i] == Some(r.value.at)
    decreases hi
  {
    if hi <= lo then None
    else
      var before := Chosen(v, lo, hi - 1);
      if v[hi - 1].Some? && (before.None? || v[hi - 1].value.dist < before.value.at.dist - 1.0)
      then Some(Choice(hi - 1, v[hi - 1].value)) else before
  }

  /** The steps looked at end here. */
  function WindowEnd(n: nat, index: nat): nat {
    if index + NAV_LOOKAHEAD + 1 <= n then index + NAV_LOOKAHEAD + 1 else n
  }

  /** From a step with `left` metres left: past every end that is near. Off the last
      step is arrival. */
  function PassEnds(v: Views, index: nat, left: real): (r: (nat, real))
    requires index < |v|
    ensures index <= r.0 <= |v|
    decreases |v| - index
  {
    if left >= NAV_STEP_DONE_M then (index, left)
    else if index + 1 == |v| then (|v|, 0.0)
    else if v[index + 1].None? then (index + 1, left)
    else PassEnds(v, index + 1, Left(v[index + 1].value))
  }

  /** Progress from the step the timetable leaves current. */
  function Advance(v: Views, index: nat): Progress {
    var best := Chosen(v, index, WindowEnd(|v|, index));
    if best.None? then Progress(index, None, None)
    else
      var end := PassEnds(v, best.value.i, Left(best.value.at));
      Progress(end.0, Some(best.value.at.dist), Some(end.1))
  }

  function Next(v: Views, steps: seq<NavStep>, now: real, from: nat): Progress {
    Advance(v, SkipEnded(steps, from, now))
  }

  /** `navProgress`, loop by loop: past the legs the timetable has ended, */
  method SkipByTimetable(steps: seq<NavStep>, now: real, from: nat) returns (index: nat)
    ensures index == SkipEnded(steps, from, now)
  {
    index := from;
    while index + 1 < |steps| && Ended(steps[index], now)
      invariant from <= index && SkipEnded(steps, index, now) == SkipEnded(steps, from, now)
      decreases |steps| - index
    {
      index := index + 1;
    }
  }

  /** the step the fix is on, among the few from `index`, */
  method Choose(h: (real, real) -> real, steps: seq<NavStep>, fix: Fix, index: nat) returns (best: Option<Choice>)
    ensures best == Chosen(OnSteps(h, steps, fix), index, WindowEnd(|steps|, index))
  {
    hide OnLineAt, Projected;
    ghost var v := OnSteps(h, steps, fix);
    best := None;
    var last := WindowEnd(|steps|, index);
    var i := index;
    while i < last
      invariant index <= i && (i <= last || i == index) && last <= |steps|
      invariant best == if i <= last then Chosen(v, index, i) else None
    {
      var at := ProjectOnLine(steps[i].points, fix.p, fix.cosLat, h);
      if at.Some? && (best == None || at.value.dist < best.value.at.dist - 1.0) {
        best := Some(Choice(i, at.value));
      }
      i := i + 1;
    }
  }

  /** and past the ends the visitor is at. */
  method PassNearEnds(h: (real, real) -> real, steps: seq<NavStep>, fix: Fix, from: nat, left: real)
    returns (index: nat, remaining: real)
    requires from < |steps|
    ensures (index, remaining) == PassEnds(OnSteps(h, steps, fix), from, left)
  {
    hide OnLineAt, Projected;
    ghost var v := OnSteps(h, steps, fix);
    index, remaining := from, left;
    while remaining < NAV_STEP_DONE_M
      invariant index < |steps| && PassEnds(v, index, remaining) == PassEnds(v, from, left)
      decreases |steps| - index
    {
      index := index + 1;
      if index >= |steps| {
        return |steps|, 0.0;
      }
      var next := ProjectOnLine(steps[index].points, fix.p, fix.cosLat, h);
      if next == None {
        return;
      }
      remaining := Left(next.value);
    }
  }

  method NavProgress(h: (real, real) -> real, steps: seq<NavStep>, fix: Fix, from: nat) returns (r: Progress)
    ensures r == Next(OnSteps(h, steps, fix), steps, fix.now, from)
  {
    hide OnLineAt, Left, SkipEnded, Chosen, PassEnds;
    var index := SkipByTimetable(steps, fix.now, from);
    var best := Choose(h, steps, fix, index);
    if best == None {
      return Progress(index, None, None);
    }
    var end, remaining := PassNearEnds(h, steps, fix, best.value.i, Left(best.value.at));
    return Progress(end, Some(best.value.at.dist), Some(remaining));
  }

  /** A step once passed stays passed, and there is nothing past arrival. */
  lemma NextForward(v: Views, steps: seq<NavStep>, now: real, from: nat)
    requires |v| == |steps|
    ensures Next(v, steps, now, from).index >= from
    ensures from <= |steps| ==> Next(v, steps, now, from).index <= |steps|
    ensures from == |steps| ==> Next(v, steps, now, from) == Progress(|steps|, None, None)
  {
  }

  /** The chosen step is within a metre of the nearest in the window, and strictly
      nearer than every step before it. */
  lemma {:induction false} ChosenNearest(v: Views, lo: nat, hi: nat, j: nat)
    requires hi <= |v| && lo <= j < hi && v[j].Some?
    ensures var c := Chosen(v, lo, hi);
      && c.Some?
      && c.value.at.dist <= v[j].value.dist + 1.0
      && (j < c.value.i ==> c.value.at.dist < v[j].value.dist)
    decreases hi
  {
    if j < hi - 1 {
      ChosenNearest(v, lo, hi - 1, j);
    }
  }

  /** The fix chooses among the step the timetable leaves and the three after it: one within
      a metre of the nearest of those with a line, and strictly nearer than those before it;
      none only where none of them has a line. */
  lemma {:induction false} ChosenInWindow(v: Views, index: nat)
    ensures var best := Chosen(v, index, WindowEnd(|v|, index));
      && (best.Some? ==> index <= best.value.i <= index + 3 && best.value.i < |v|
                         && v[best.value.i] == Some(best.value.at))
      && (forall j :: index <= j <= index + 3 && j < |v| && v[j].Some? ==>
            && best.Some? && best.value.at.dist <= v[j].value.dist + 1.0
            && (j < best.value.i ==> best.value.at.dist < v[j].value.dist))
  {
    hide Chosen;
    forall j | index <= j <= index + 3 && j < |v| && v[j].Some?
      ensures var best := Chosen(v, index, WindowEnd(|v|, index));
        && best.Some? && best.value.at.dist <= v[j].value.dist + 1.0
        && (j < best.value.i ==> best.value.at.dist < v[j].value.dist)
    {
      ChosenNearest(v, index, WindowEnd(|v|, index), j);
    }
  }

  /** A leg whose time, if it has one, is more than a minute past is behind the visitor
      whatever the fix says, down to the first that is not (or the last of all). */
  lemma {:induction false} EndedIsBehind(v: Views, steps: seq<NavStep>, now: real, from: nat, k: nat)
    requires |v| == |steps| && from <= k < |steps|
    requires forall j :: from <= j < k ==>
      steps[j].endsAt.Some? && steps[j].endsAt.value != 0.0 && now - steps[j].endsAt.value > 60000.0
    ensures SkipEnded(steps, from, now) >= k
    ensures k == |steps| - 1 || steps[k].endsAt in {None, Some(0.0)} || now - steps[k].endsAt.value <= 60000.0
      ==> SkipEnded(steps, from, now) == k
    ensures Next(v, steps, now, from).index >= k
    decreases k - from
  {
    if from < k {
      EndedIsBehind(v, steps, now, from + 1, k);
    }
  }

  /** Whether fewer than 15 metres of step `j`'s line lie ahead of the visitor. */
  predicate AtEnd(v: Views, j: nat)
    requires j < |v|
  {
    v[j].Some? && v[j].value.total - v[j].value.along < 15.0
  }

  /** What is left of a step, where the visitor falls on its line. */
  predicate Ahead(v: Views, j: nat, left: real)
    requires j < |v|
  {
    v[j].Some? && left == v[j].value.total - v[j].value.along
  }

  ghost predicate WithinLines(v: Views) {
    forall j :: 0 <= j < |v| && v[j].Some? ==> v[j].value.along <= v[j].value.total
  }

  /** The step shown is the first, from the chosen one on, whose end the visitor is
      not at; having arrived is being at the end of them all. */
  lemma {:induction false} PassEndsFirst(v: Views, i: nat)
    requires i < |v| && v[i].Some?
    ensures var k := PassEnds(v, i, Left(v[i].value)).0;
      && (forall j :: i <= j < k ==> AtEnd(v, j))
      && (k < |v| ==> !AtEnd(v, k))
    decreases |v| - i
  {
    if AtEnd(v, i) && i + 1 < |v| && v[i + 1].Some? {
      PassEndsFirst(v, i + 1);
    }
  }

  /** Shown from step `i` on, in the visitor's own figures: every step before `k` has less
      than 15 metres ahead. A step with a line of its own has at least 15, and `left` says
      how many; for one without it says what is left of the step before; at arrival
      nothing is. */
  ghost predicate Shows(v: Views, i: nat, k: nat, left: real) {
    && i <= k <= |v|
    && (forall j :: i <= j < k ==> AtEnd(v, j))
    && (k < |v| && v[k].Some? ==> Ahead(v, k, left) && left >= 15.0)
    && (k < |v| && v[k].None? ==> k > i && Ahead(v, k - 1, left))
    && (k == |v| ==> left == 0.0)
  }

  lemma {:induction false} PassEndsShows(v: Views, i: nat)
    requires i < |v| && v[i].Some? && WithinLines(v)
    ensures var end := PassEnds(v, i, Left(v[i].value));
      Shows(v, i, end.0, end.1)
    decreases |v| - i
  {
    if AtEnd(v, i) && i + 1 < |v| && v[i + 1].Some? {
      PassEndsShows(v, i + 1);
    }
  }

  /** A visitor is never past the end of a line they are projected on. */
  lemma OnStepsWithin(h: (real, real) -> real, steps: seq<NavStep>, fix: Fix)
    requires IsHypot(h)
    ensures WithinLines(OnSteps(h, steps, fix))
  {
    hide OnLineAt, Projected;
    var v := OnSteps(h, steps, fix);
    forall j | 0 <= j < |v| && v[j].Some? ensures v[j].value.along <= v[j].value.total {
      OnLineWithin(h, Projected(steps[j].points, fix.p, fix.cosLat));
    }
  }

  lemma OnLineWithin(h: (real, real) -> real, line: seq<Point>)
    requires IsHypot(h)
    ensures OnLineAt(h, line).Some? ==> 0.0 <= OnLineAt(h, line).value.along <= OnLineAt(h, line).value.total
  {
    if |line| >= 2 {
      var i, t := NearestPointAttained(h, line);
    }
  }

  /** The step a fix shows. Without a line in the window it is the one the timetable
      leaves; otherwise it follows from the chosen one in the figures of the visitor's own
      projections, and the distance off the route is the chosen step's. */
  lemma {:induction false} StepShown(h: (real, real) -> real, steps: seq<NavStep>, fix: Fix, from: nat)
    requires IsHypot(h) && from < |steps|
    ensures var v := OnSteps(h, steps, fix);
      var index := SkipEnded(steps, from, fix.now);
      var best, r := Chosen(v, index, WindowEnd(|v|, index)), Next(v, steps, fix.now, from);
      && (best.None? ==> r == Progress(index, None, None))
      && (best.Some? ==>
            && r.offRoute == Some(best.value.at.dist) && r.remaining.Some?
            && Shows(v, best.value.i, r.index, r.remaining.value))
  {
    hide OnSteps, Left, SkipEnded, Chosen, PassEnds, Shows, WithinLines, IsHypot;
    var v := OnSteps(h, steps, fix);
    OnStepsWithin(h, steps, fix);
    var index := SkipEnded(steps, from, fix.now);
    var best := Chosen(v, index, WindowEnd(|v|, index));
    if best.Some? {
      PassEndsShows(v, best.value.i);
    }
  }

  /** The visitor arrives exactly when some step of the window is chosen and fewer than
      15 metres of it, and of every step after it, lie ahead. */
  lemma {:induction false} ArrivesIff(v: Views, steps: seq<NavStep>, now: real, from: nat)
    requires |v| == |steps| && from < |steps|
    ensures var index := SkipEnded(steps, from, now);
      var best := Chosen(v, index, WindowEnd(|v|, index));
      (Next(v, steps, now, from).index == |steps|)
        <==> (best.Some? && forall j :: best.value.i <= j < |steps| ==> AtEnd(v, j))
  {
    var index := SkipEnded(steps, from, now);
    var best := Chosen(v, index, WindowEnd(|v|, index));
    if best.Some? {
      PassEndsFirst(v, best.value.i);
    }
  }

  // ---- a whole trip

  /** A fix as the tracker sees it: its time, and where it falls on each step. */
  datatype Sight = Sight(v: Views, now: real)

  /** The step after each of a run of fixes. */
  function Trip(steps: seq<NavStep>, seen: seq<Sight>): nat {
    if seen == [] then 0
    else
      var n := |seen| - 1;
      Next(seen[n].v, steps, seen[n].now, Trip(steps, seen[..n])).index
  }

  ghost predicate Sees(steps: seq<NavStep>, seen: seq<Sight>) {
    forall i :: 0 <= i < |seen| ==> |seen[i].v| == |steps|
  }

  /** Over a whole trip the step never goes back, never leaves the route, and once
      the visitor has arrived they have arrived. */
  lemma {:induction false} TripForward(steps: seq<NavStep>, seen: seq<Sight>, k: nat)
    requires Sees(steps, seen) && k <= |seen|
    ensures Trip(steps, seen[..k]) <= Trip(steps, seen) <= |steps|
    ensures Trip(steps, seen[..k]) == |steps| ==> Trip(steps, seen) == |steps|
    decreases |seen|
  {
    hide Next, Trip;
    TripStep(steps, [], Sight([], 0.0));
    if k == |seen| {
      assert seen[..k] == seen;
    }
    if seen != [] {
      var n := |seen| - 1;
      var k' := if k < n then k else n;
      TripForward(steps, seen[..n], k');
      assert seen[..n][..k'] == seen[..k'];
      NextForward(seen[n].v, steps, seen[n].now, Trip(steps, seen[..n]));
      TripStep(steps, seen[..n], seen[n]);
      assert seen[..n] + [seen[n]] == seen;
    }
  }

  /** Each fix of a trip moves the step on from where the ones before it left it. */
  lemma {:induction false} TripStep(steps: seq<NavStep>, seen: seq<Sight>, fix: Sight)
    ensures Trip(steps, []) == 0
    ensures Trip(steps, seen + [fix]) == Next(fix.v, steps, fix.now, Trip(steps, seen)).index
  {
    hide Next;
    assert (seen + [fix])[..|seen|] == seen;
  }

  /** A leg the timetable put behind the visitor at one fix stays behind at every
      later one. */
  lemma {:induction false} TimetableHolds(steps: seq<NavStep>, seen: seq<Sight>, k: nat, step: nat)
    requires Sees(steps, seen) && k < |seen| && step < |steps|
    requires forall j :: 0 <= j < step ==>
      steps[j].endsAt.Some? && steps[j].endsAt.value != 0.0 && seen[k].now - steps[j].endsAt.value > 60000.0
    ensures Trip(steps, seen) >= step
  {
    var before := Trip(steps, seen[..k]);
    assert seen[..k + 1][..k] == seen[..k];
    if before < step {
      EndedIsBehind(seen[k].v, steps, seen[k].now, before, step);
    } else {
      NextForward(seen[k].v, steps, seen[k].now, before);
    }
    assert Trip(steps, seen[..k + 1]) >= step;
    TripForward(steps, seen, k + 1);
  }
}
