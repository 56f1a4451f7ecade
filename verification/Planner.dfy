/** Convergence (safety/ops.py): what a city's state makes the next run do, and what
    doing it leaves to be done. */
module Planner {
  import opened Wrappers

  type Time = int
  type Day = int

  /** What a city's incidents are: none, none with a clock hour, or some with one. */
  datatype Silver = NoIncidents | NoHours | Hours

  /** One row of _STATE_SQL. The plan reads of `silver` only has_clock_hours, which is
      Hours. */
  datatype CityState = CityState(
    lastPull: Option<Time>,
    hasCensus: bool,
    hasHourly: bool,
    hasDow: bool,
    silver: Silver,
    goldAt: Option<Time>,
    goldVersion: Option<string>,
    historyEnabled: bool,
    historyStart: Option<Day>,
    coveredFrom: Option<Day>)

  datatype Task = Backfill | Census | Gold | Hourly | History {
    /** Where the documented onboarding order puts it. */
    function Position(): nat {
      match this
      case Backfill => 0
      case Census => 1
      case Gold => 2
      case Hourly => 3
      case History => 4
    }
  }

  /** `skipHourly` is whether the command line carries --skip-hourly. */
  datatype Step = Step(task: Task, skipHourly: bool)

  function NeedsBackfill(s: CityState): bool { s.lastPull.None? }

  function NeedsCensus(s: CityState): bool { !s.hasCensus }

  function NeedsHourly(s: CityState): bool {
    (!s.hasHourly && (s.silver.Hours? || NeedsBackfill(s))) || (s.hasHourly && !s.hasDow)
  }

  /** _gold_reason is not None. */
  function GoldStale(s: CityState, version: string, censusPending: bool): bool {
    || censusPending
    || s.goldAt.None?
    || s.goldVersion != Some(version)
    || (s.lastPull.Some? && s.goldAt.value < s.lastPull.value)
  }

  function NeedsGold(s: CityState, version: string): bool {
    if NeedsBackfill(s) then NeedsCensus(s) else GoldStale(s, version, NeedsCensus(s))
  }

  /** _history_reason is not None. */
  function HistoryShort(s: CityState): bool {
    s.historyEnabled && s.historyStart.Some? && s.coveredFrom.Some? && s.coveredFrom.value > s.historyStart.value
  }

  function FoldIntoGold(s: CityState, version: string): bool { NeedsHourly(s) && NeedsGold(s, version) }

  function FoldIntoBackfill(s: CityState, version: string): bool {
    NeedsHourly(s) && !NeedsGold(s, version) && NeedsBackfill(s) && !NeedsCensus(s)
  }

  function If(c: bool, step: Step): seq<Step> { if c then [step] else [] }

  function Plan(s: CityState, version: string): seq<Step> {
    If(NeedsBackfill(s), Step(Backfill, !FoldIntoBackfill(s, version)))
    + If(NeedsCensus(s), Step(Census, false))
    + If(NeedsGold(s, version), Step(Gold, !FoldIntoGold(s, version)))
    + If(NeedsHourly(s) && !FoldIntoGold(s, version) && !FoldIntoBackfill(s, version), Step(Hourly, false))
    + If(HistoryShort(s) && !NeedsBackfill(s), Step(History, false))
  }

  /** `plan_from_state`. */
  method PlanFromState(s: CityState, version: string) returns (steps: seq<Step>)
    ensures steps == Plan(s, version)
  {
    steps := [];
    var needsBackfill := s.lastPull.None?;
    var needsCensus := !s.hasCensus;
    var needsHourly := !s.hasHourly && (s.silver.Hours? || needsBackfill);
    needsHourly := needsHourly || (s.hasHourly && !s.hasDow);
    var needsGold;
    if needsBackfill {
      needsGold := needsCensus;
    } else {
      needsGold := GoldStale(s, version, needsCensus);
    }
    var foldInto := None;
    if needsHourly {
      if needsGold {
        foldInto := Some(Gold);
      } else if needsBackfill && !needsCensus {
        foldInto := Some(Backfill);
      }
    }
    if needsBackfill {
      steps := steps + [Step(Backfill, foldInto != Some(Backfill))];
    }
    if needsCensus {
      steps := steps + [Step(Census, false)];
    }
    if needsGold {
      steps := steps + [Step(Gold, foldInto != Some(Gold))];
    }
    if needsHourly && foldInto == None {
      steps := steps + [Step(Hourly, false)];
    }
    if HistoryShort(s) && !needsBackfill {
      steps := steps + [Step(History, false)];
    }
  }

  // ---- the shape of every plan

  /** Whether a step builds the time-of-day layer. */
  predicate BuildsHourly(step: Step) {
    step.task == Hourly || ((step.task == Gold || step.task == Backfill) && !step.skipHourly)
  }

  /** `steps` follow the documented order, no step twice. */
  predicate InOrder(steps: seq<Step>) {
    forall i, j :: 0 <= i < j < |steps| ==> steps[i].task.Position() < steps[j].task.Position()
  }

  lemma AppendInOrder(steps: seq<Step>, c: bool, step: Step, bound: nat)
    requires InOrder(steps) && forall i :: 0 <= i < |steps| ==> steps[i].task.Position() < bound
    requires step.task.Position() == bound
    ensures InOrder(steps + If(c, step))
    ensures forall i :: 0 <= i < |steps + If(c, step)| ==> (steps + If(c, step))[i].task.Position() < bound + 1
  {
  }

  lemma PlanInOrder(s: CityState, version: string)
    ensures InOrder(Plan(s, version))
  {
    var a := If(NeedsBackfill(s), Step(Backfill, !FoldIntoBackfill(s, version)));
    var b := a + If(NeedsCensus(s), Step(Census, false));
    var c := b + If(NeedsGold(s, version), Step(Gold, !FoldIntoGold(s, version)));
    var d := c + If(NeedsHourly(s) && !FoldIntoGold(s, version) && !FoldIntoBackfill(s, version), Step(Hourly, false));
    AppendInOrder(a, NeedsCensus(s), Step(Census, false), 1);
    AppendInOrder(b, NeedsGold(s, version), Step(Gold, !FoldIntoGold(s, version)), 2);
    var alone := NeedsHourly(s) && !FoldIntoGold(s, version) && !FoldIntoBackfill(s, version);
    AppendInOrder(c, alone, Step(Hourly, false), 3);
    AppendInOrder(d, HistoryShort(s) && !NeedsBackfill(s), Step(History, false), 4);
  }

  lemma PlanHas(s: CityState, version: string)
    ensures var p := Plan(s, version);
      forall step :: step in p <==>
        || (NeedsBackfill(s) && step == Step(Backfill, !FoldIntoBackfill(s, version)))
        || (NeedsCensus(s) && step == Step(Census, false))
        || (NeedsGold(s, version) && step == Step(Gold, !FoldIntoGold(s, version)))
        || (NeedsHourly(s) && !FoldIntoGold(s, version) && !FoldIntoBackfill(s, version) && step == Step(Hourly, false))
        || (HistoryShort(s) && !NeedsBackfill(s) && step == Step(History, false))
  {
  }

  lemma CensusBringsGold(s: CityState, version: string)
    ensures NeedsCensus(s) ==> NeedsGold(s, version)
  {
  }

  /** The step that builds the time-of-day layer, where one is needed. */
  function Builder(s: CityState, version: string): Step {
    if FoldIntoGold(s, version) then Step(Gold, false)
    else if FoldIntoBackfill(s, version) then Step(Backfill, false)
    else Step(Hourly, false)
  }

  lemma BuilderOnly(s: CityState, version: string, step: Step)
    ensures step in Plan(s, version) && BuildsHourly(step) <==> NeedsHourly(s) && step == Builder(s, version)
  {
    hide GoldStale, HistoryShort, NeedsGold, NeedsHourly, Plan, NeedsCensus, NeedsBackfill;
    PlanHas(s, version);
  }

  /** Every plan is in dependency order, so no task appears twice; a census load
      comes with a gold refresh, which the order puts after it; and one step builds
      the time-of-day layer exactly when it is needed, not before the plan's gold
      refresh. */
  lemma PlanShape(s: CityState, version: string)
    ensures var p := Plan(s, version);
      && InOrder(p)
      && ((exists step :: step in p && step.task == Census) ==> exists step :: step in p && step.task == Gold)
      && (forall a, b :: a in p && b in p && BuildsHourly(a) && BuildsHourly(b) ==> a == b)
      && ((exists a :: a in p && BuildsHourly(a)) <==> NeedsHourly(s))
      && (forall a, b :: a in p && b in p && BuildsHourly(a) && b.task == Gold ==>
          a.task.Position() >= b.task.Position())
  {
    hide GoldStale, HistoryShort, NeedsGold, NeedsHourly, Plan, NeedsCensus, NeedsBackfill, BuildsHourly;
    var p := Plan(s, version);
    PlanInOrder(s, version);
    PlanHas(s, version);
    CensusBringsGold(s, version);
    if NeedsCensus(s) {
      assert Step(Gold, !FoldIntoGold(s, version)) in p;
    }
    BuilderOnly(s, version, Builder(s, version));
    forall a | a in p && BuildsHourly(a) ensures NeedsHourly(s) && a == Builder(s, version) {
      BuilderOnly(s, version, a);
    }
  }

  // ---- what the steps do

  /** How a pull ends, if not in an exception: rows promoted, leaving incidents with
      or without a clock hour; a completed look that found nothing; or refused by the
      validator, which completes nothing though the command exits 0. */
  datatype Pull = New(clockHours: bool) | Nothing | Blocked

  /** What one run meets. `pull` and `since` are the backfill's; `loaded`, `reached` and
      `finished` the history load's: what its slices brought, the date they reach, and
      whether that was the last of them. `dow` and `hours` say whether the enabled
      schemes can write the weekday factors and an hourly ranking. */
  datatype Round = Round(
    now: Time, pull: Pull, since: Day, dow: bool, hours: bool,
    loaded: Pull, reached: Day, finished: bool)

  function Earliest(a: Option<Day>, b: Day): Option<Day> {
    if a.Some? && a.value <= b then a else Some(b)
  }

  function Promoted(silver: Silver, p: Pull): Silver {
    match p
    case New(clockHours) => if clockHours then Hours else NoHours
    case _ => silver
  }

  /** Building the time-of-day layers: the weekday factors, and an hourly ranking if
      any incident carries a clock hour. */
  function WithHourly(s: CityState, r: Round): CityState {
    s.(hasDow := s.hasDow || r.dow, hasHourly := s.hasHourly || (s.silver.Hours? && r.hours))
  }

  function Refreshed(s: CityState, version: string, now: Time): CityState {
    s.(goldAt := Some(now), goldVersion := Some(version))
  }

  /** Whether a step can succeed: building gold raises for a city with no incidents,
      and a history load exits 1 on a refused slice. */
  predicate Succeeds(s: CityState, step: Step, r: Round) {
    match step.task
    case Backfill => true
    case Census => true
    case Gold => !s.silver.NoIncidents?
    case Hourly => !s.silver.NoIncidents?
    case History => !r.loaded.Blocked? && (r.finished ==> !Promoted(s.silver, r.loaded).NoIncidents?)
  }

  /** The state after a step that succeeded. */
  function Effect(s: CityState, step: Step, version: string, r: Round): CityState {
    match step.task
    case Backfill =>
      if r.pull.Blocked? then s
      else
        var pulled := s.(lastPull := Some(r.now), coveredFrom := Earliest(s.coveredFrom, r.since),
          silver := Promoted(s.silver, r.pull));
        // A pull that found nothing new is complete, but refreshes nothing.
        if r.pull.Nothing? then pulled
        else Refreshed(if step.skipHourly then pulled else WithHourly(pulled, r), version, r.now)
    case Census => s.(hasCensus := true)
    case Gold => Refreshed(if step.skipHourly then s else WithHourly(s, r), version, r.now)
    case Hourly => Refreshed(WithHourly(s, r), version, r.now)
    case History =>
      var loaded := s.(coveredFrom := Earliest(s.coveredFrom, r.reached), silver := Promoted(s.silver, r.loaded));
      if r.finished then Refreshed(loaded, version, r.now) else loaded
  }

  /** Every step succeeds, each in the state the ones before it leave. */
  predicate AllSucceed(s: CityState, steps: seq<Step>, version: string, r: Round)
    decreases |steps|
  {
    steps == [] || (Succeeds(s, steps[0], r) && AllSucceed(Effect(s, steps[0], version, r), steps[1..], version, r))
  }

  function Effects(s: CityState, steps: seq<Step>, version: string, r: Round): CityState
    decreases |steps|
  {
    if steps == [] then s else Effects(Effect(s, steps[0], version, r), steps[1..], version, r)
  }

  /** One run in which every planned step succeeds. */
  function Converged(s: CityState, version: string, r: Round): CityState {
    Effects(s, Plan(s, version), version, r)
  }

  lemma {:induction false} EffectsConcat(s: CityState, a: seq<Step>, b: seq<Step>, version: string, r: Round)
    ensures Effects(s, a + b, version, r) == Effects(Effects(s, a, version, r), b, version, r)
    ensures AllSucceed(s, a + b, version, r)
        <==> AllSucceed(s, a, version, r) && AllSucceed(Effects(s, a, version, r), b, version, r)
    decreases |a|
  {
    if a == [] {
      assert a + b == b;
    } else {
      assert (a + b)[1..] == a[1..] + b;
      EffectsConcat(Effect(s, a[0], version, r), a[1..], b, version, r);
    }
  }

  function EffectIf(s: CityState, c: bool, step: Step, version: string, r: Round): CityState {
    if c then Effect(s, step, version, r) else s
  }

  lemma {:induction false} EffectsIf(s: CityState, c: bool, step: Step, version: string, r: Round)
    ensures Effects(s, If(c, step), version, r) == EffectIf(s, c, step, version, r)
    ensures AllSucceed(s, If(c, step), version, r) <==> (c ==> Succeeds(s, step, r))
  {
    assert [step][1..] == [];
  }

  /** Whether the plan ends with a history load. */
  predicate LoadsHistory(s: CityState) { HistoryShort(s) && !NeedsBackfill(s) }

  /** Whether it has an `hourly` step of its own. */
  predicate HourlyAlone(s: CityState, version: string) {
    NeedsHourly(s) && !FoldIntoGold(s, version) && !FoldIntoBackfill(s, version)
  }

  /** A run, step by step: the states after its backfill, census, gold, hourly and
      history steps, and what each needs to succeed. */
  lemma {:induction false} ConvergedSteps(s: CityState, version: string, r: Round)
    ensures var s1 := EffectIf(s, NeedsBackfill(s), Step(Backfill, !FoldIntoBackfill(s, version)), version, r);
      var s2 := EffectIf(s1, NeedsCensus(s), Step(Census, false), version, r);
      var s3 := EffectIf(s2, NeedsGold(s, version), Step(Gold, !FoldIntoGold(s, version)), version, r);
      var s4 := EffectIf(s3, HourlyAlone(s, version), Step(Hourly, false), version, r);
      && Converged(s, version, r) == EffectIf(s4, LoadsHistory(s), Step(History, false), version, r)
      && (AllSucceed(s, Plan(s, version), version, r) <==>
            && (NeedsGold(s, version) ==> !s2.silver.NoIncidents?)
            && (HourlyAlone(s, version) ==> !s3.silver.NoIncidents?)
            && (LoadsHistory(s) ==> Succeeds(s4, Step(History, false), r)))
  {
    hide Effect, NeedsGold, NeedsHourly, HistoryShort, FoldIntoGold, FoldIntoBackfill;
    var a := If(NeedsBackfill(s), Step(Backfill, !FoldIntoBackfill(s, version)));
    var b := If(NeedsCensus(s), Step(Census, false));
    var c := If(NeedsGold(s, version), Step(Gold, !FoldIntoGold(s, version)));
    var d := If(HourlyAlone(s, version), Step(Hourly, false));
    var e := If(LoadsHistory(s), Step(History, false));
    EffectsConcat(s, a + b + c + d, e, version, r);
    EffectsConcat(s, a + b + c, d, version, r);
    EffectsConcat(s, a + b, c, version, r);
    EffectsConcat(s, a, b, version, r);
    var s1 := Effects(s, a, version, r);
    var s2 := Effects(s1, b, version, r);
    var s3 := Effects(s2, c, version, r);
    var s4 := Effects(s3, d, version, r);
    EffectsIf(s, NeedsBackfill(s), Step(Backfill, !FoldIntoBackfill(s, version)), version, r);
    EffectsIf(s1, NeedsCensus(s), Step(Census, false), version, r);
    EffectsIf(s2, NeedsGold(s, version), Step(Gold, !FoldIntoGold(s, version)), version, r);
    EffectsIf(s3, HourlyAlone(s, version), Step(Hourly, false), version, r);
    EffectsIf(s4, LoadsHistory(s), Step(History, false), version, r);
  }

  // ---- which runs can succeed

  /** The incidents once the backfill, if there is one, has run. */
  function PulledSilver(s: CityState, r: Round): Silver {
    if NeedsBackfill(s) then Promoted(s.silver, r.pull) else s.silver
  }

  /** And once the history load, if there is one, has. */
  function FinalSilver(s: CityState, r: Round): Silver {
    if LoadsHistory(s) then Promoted(s.silver, r.loaded) else PulledSilver(s, r)
  }

  /** Every planned step can succeed exactly when gold, if the run builds any, finds
      incidents, and no history slice is refused. */
  lemma {:induction false} RunSucceedsIff(s: CityState, version: string, r: Round)
    ensures AllSucceed(s, Plan(s, version), version, r) <==>
      && (NeedsGold(s, version) || (NeedsHourly(s) && !NeedsBackfill(s)) ==> !PulledSilver(s, r).NoIncidents?)
      && (LoadsHistory(s) ==> !r.loaded.Blocked? && (r.finished ==> !FinalSilver(s, r).NoIncidents?))
  {
    ConvergedSteps(s, version, r);
  }

  /** A first backfill that finds nothing leaves a city no run can finish: with no
      incidents to rank, its gold step raises, in the same run where census blocks are
      loaded too, in every later one otherwise. */
  lemma {:induction false} NothingFound(s: CityState, version: string, r: Round, r': Round)
    requires NeedsBackfill(s) && s.silver.NoIncidents? && r.pull.Nothing? && Later(s, r)
    ensures !s.hasCensus ==> !AllSucceed(s, Plan(s, version), version, r)
    ensures s.hasCensus ==>
      && AllSucceed(s, Plan(s, version), version, r)
      && var s' := Converged(s, version, r); !AllSucceed(s', Plan(s', version), version, r')
  {
    RunSucceedsIff(s, version, r);
    ConvergedSteps(s, version, r);
    RunSucceedsIff(Converged(s, version, r), version, r');
  }

  // ---- convergence

  /** The run happens after everything the state records. */
  predicate Later(s: CityState, r: Round) {
    (s.lastPull.Some? ==> s.lastPull.value < r.now) && (s.goldAt.Some? ==> s.goldAt.value < r.now)
  }

  /** What a converged city looks like: pulled, with a denominator, ranked by this
      pipeline since the last pull, and with every time-of-day layer it can have. */
  predicate UpToDate(s: CityState, version: string) {
    && s.lastPull.Some? && s.hasCensus
    && s.goldAt.Some? && s.goldVersion == Some(version) && s.goldAt.value >= s.lastPull.value
    && (s.silver.Hours? ==> s.hasHourly)
    && (s.hasHourly ==> s.hasDow)
  }

  predicate OnlyHistory(steps: seq<Step>) {
    forall i :: 0 <= i < |steps| ==> steps[i].task == History
  }

  /** The plan is empty, apart from history, exactly for such a city. */
  lemma PlanEmptyIffUpToDate(s: CityState, version: string)
    ensures OnlyHistory(Plan(s, version)) <==> UpToDate(s, version)
    ensures Plan(s, version) == [] <==> UpToDate(s, version) && !HistoryShort(s)
  {
    var p := Plan(s, version);
    if !UpToDate(s, version) {
      assert NeedsBackfill(s) || NeedsCensus(s) || NeedsGold(s, version) || NeedsHourly(s);
      if NeedsBackfill(s) {
        assert p[0].task == Backfill;
      } else if NeedsCensus(s) {
        assert p[0].task == Census;
      } else if NeedsGold(s, version) {
        assert p[0].task == Gold;
      } else {
        assert p[0].task == Hourly;
      }
    }
  }

  /** Whether the city has an hourly ranking after the run. */
  predicate HourlyAfter(s: CityState, r: Round) {
    s.hasHourly || (NeedsHourly(s) && PulledSilver(s, r).Hours? && r.hours)
  }

  /** One successful run converges a city exactly when
      - a backfill it needed brought rows, or found nothing in a run that goes on to
        build gold because census blocks were missing too;
      - the weekday factors, where they were missing, could be written; and
      - no incident ends up with a clock hour in a city without an hourly ranking, be
        it that none could be written or that the history load brought the first. */
  lemma OneRunConverges(s: CityState, version: string, r: Round)
    requires Later(s, r)
    ensures UpToDate(Converged(s, version, r), version) <==>
      && (NeedsBackfill(s) ==> r.pull.New? || (r.pull.Nothing? && !s.hasCensus))
      && (NeedsHourly(s) && HourlyAfter(s, r) ==> s.hasDow || r.dow)
      && (FinalSilver(s, r).Hours? ==> HourlyAfter(s, r))
  {
    ConvergedSteps(s, version, r);
  }

  /** A city that was never pulled has its time-of-day layer after its first run, if the
      pull brings clock hours and the scheme can rank them, though no hour was known of
      when the run was planned. */
  lemma {:induction false} NewCityHasItsHours(s: CityState, version: string, r: Round)
    requires s.lastPull.None? && !s.hasHourly && r.pull == New(true) && r.hours
    ensures AllSucceed(s, Plan(s, version), version, r)
    ensures Converged(s, version, r).hasHourly
  {
    RunSucceedsIff(s, version, r);
    ConvergedSteps(s, version, r);
  }

  /** A converged city stays so, except exactly when its history load brings the first
      clock hours: the next run then has an hourly ranking to build. */
  lemma ConvergedStays(s: CityState, version: string, r: Round)
    requires Later(s, r) && UpToDate(s, version)
    ensures UpToDate(Converged(s, version, r), version) <==> !(LoadsHistory(s) && r.loaded == New(true) && !s.hasHourly)
  {
    OneRunConverges(s, version, r);
  }

  /** An input at which it does not. */
  lemma HistoryBringsHours()
    ensures var s := CityState(Some(5), true, false, false, NoHours, Some(5), Some("v1"), true, Some(0), Some(9));
      var r := Round(6, Nothing, 0, true, true, New(true), 3, false);
      && Later(s, r) && UpToDate(s, "v1") && AllSucceed(s, Plan(s, "v1"), "v1", r)
      && !UpToDate(Converged(s, "v1", r), "v1")
  {
    var s := CityState(Some(5), true, false, false, NoHours, Some(5), Some("v1"), true, Some(0), Some(9));
    var r := Round(6, Nothing, 0, true, true, New(true), 3, false);
    ConvergedStays(s, "v1", r);
    RunSucceedsIff(s, "v1", r);
  }

  /** How many days of history are still to load. */
  function HistoryLeft(s: CityState): nat {
    if HistoryShort(s) then s.coveredFrom.value - s.historyStart.value else 0
  }

  /** Once a pull has completed, a run brings history nearer its end exactly when it
      loads any and the load reaches further back; it never takes it further away. */
  lemma HistoryProgress(s: CityState, version: string, r: Round)
    requires s.lastPull.Some?
    ensures Converged(s, version, r).lastPull == s.lastPull
    ensures HistoryLeft(Converged(s, version, r)) <= HistoryLeft(s)
    ensures HistoryLeft(Converged(s, version, r)) < HistoryLeft(s)
        <==> LoadsHistory(s) && r.reached < s.coveredFrom.value
  {
    ConvergedSteps(s, version, r);
  }

  lemma {:induction false} NoBuilderPlanned(s: CityState, version: string)
    ensures NeedsHourly(s) ==> Builder(s, version) in Plan(s, version) && BuildsHourly(Builder(s, version))
  {
    BuilderOnly(s, version, Builder(s, version));
  }

  /** A run none of whose steps is to build the time-of-day layers builds none: the
      --skip-hourly it passes is kept to. */
  lemma {:induction false} LayersOnlyAsPlanned(s: CityState, version: string, r: Round)
    requires forall step :: step in Plan(s, version) ==> !BuildsHourly(step)
    ensures var s' := Converged(s, version, r); s'.hasHourly == s.hasHourly && s'.hasDow == s.hasDow
  {
    NoBuilderPlanned(s, version);
    ConvergedSteps(s, version, r);
  }

  /** A run leaves gold refreshed by this pipeline exactly if its backfill brought rows, it
      built gold or the hourly layer on their own, or its history load finished. */
  lemma {:induction false} GoldRefreshedIff(s: CityState, version: string, r: Round)
    requires Later(s, r)
    ensures var p, s' := Plan(s, version), Converged(s, version, r);
      (s'.goldAt == Some(r.now) && s'.goldVersion == Some(version)) <==>
        || (s.lastPull.None? && r.pull.New?)
        || (exists step :: step in p && (step.task == Gold || step.task == Hourly))
        || ((exists step :: step in p && step.task == History) && r.finished)
  {
    PlanHas(s, version);
    ConvergedSteps(s, version, r);
    assert NeedsGold(s, version) ==> Step(Gold, !FoldIntoGold(s, version)) in Plan(s, version);
    assert HourlyAlone(s, version) ==> Step(Hourly, false) in Plan(s, version);
    assert LoadsHistory(s) ==> Step(History, false) in Plan(s, version);
  }

  /** What one run does to the coverage date: a backfill that completes takes it back to
      where its pull starts, a history load to what it reached, and neither ever moves it
      forward; nothing else moves it. */
  lemma CoverageAfter(s: CityState, version: string, r: Round)
    ensures var from, to := s.coveredFrom, Converged(s, version, r).coveredFrom;
      if s.lastPull.None? && !r.pull.Blocked? then
        && to.Some? && to.value <= r.since && (to == from || to == Some(r.since))
        && (from.Some? ==> to.value <= from.value)
      else if LoadsHistory(s) then
        to.Some? && to.value <= r.reached && (to == from || to == Some(r.reached)) && to.value <= from.value
      else to == from
  {
    ConvergedSteps(s, version, r);
  }

  /** Runs in which every step succeeded, one after another. The schemes can write
      their layers, and a history load moves the coverage date. */
  ghost predicate Runs(s: CityState, version: string, rounds: seq<Round>)
    decreases |rounds|
  {
    rounds == [] ||
      (&& Later(s, rounds[0])
       && AllSucceed(s, Plan(s, version), version, rounds[0])
       && rounds[0].dow && rounds[0].hours
       && (LoadsHistory(s) ==> rounds[0].reached < s.coveredFrom.value)
       && Runs(Converged(s, version, rounds[0]), version, rounds[1..]))
  }

  ghost function AfterRuns(s: CityState, version: string, rounds: seq<Round>): CityState
    decreases |rounds|
  {
    if rounds == [] then s else AfterRuns(Converged(s, version, rounds[0]), version, rounds[1..])
  }

  lemma PulledStep(s: CityState, version: string, r: Round)
    ensures Converged(s, version, r).lastPull.None? <==> s.lastPull.None? && r.pull.Blocked?
  {
    ConvergedSteps(s, version, r);
  }

  /** A city is without a completed pull after any number of successful runs exactly
      when it was without one and the validator refused every backfill. */
  lemma {:induction false} PulledIff(s: CityState, version: string, rounds: seq<Round>)
    ensures AfterRuns(s, version, rounds).lastPull.None?
      <==> s.lastPull.None? && forall i :: 0 <= i < |rounds| ==> rounds[i].pull.Blocked?
    decreases |rounds|
  {
    hide Converged, Later, Plan;
    if rounds != [] {
      var r, rest := rounds[0], rounds[1..];
      PulledStep(s, version, r);
      PulledIff(Converged(s, version, r), version, rest);
      assert forall i :: 0 <= i < |rest| ==> rest[i] == rounds[i + 1];
      assert forall i :: 0 < i < |rounds| ==> rounds[i] == rest[i - 1];
    }
  }

  /** Such a city never converges: the next plan still starts with a backfill, though
      with its census blocks loaded every one of its runs succeeds. */
  lemma {:induction false} RefusedForever(s: CityState, version: string, rounds: seq<Round>, r: Round)
    requires s.lastPull.None? && forall i :: 0 <= i < |rounds| ==> rounds[i].pull.Blocked?
    ensures var s' := AfterRuns(s, version, rounds);
      && !UpToDate(s', version) && Plan(s', version) != [] && Plan(s', version)[0].task == Backfill
      && (s'.hasCensus ==> AllSucceed(s', Plan(s', version), version, r))
  {
    PulledIff(s, version, rounds);
    RunSucceedsIff(AfterRuns(s, version, rounds), version, r);
  }

  /** With its history loaded, a city is converged after one run, for good. */
  lemma {:induction false} Settles(s: CityState, version: string, rounds: seq<Round>)
    requires s.lastPull.Some? && !HistoryShort(s) && Runs(s, version, rounds)
    requires rounds != [] || UpToDate(s, version)
    ensures Plan(AfterRuns(s, version, rounds), version) == []
    decreases |rounds|
  {
    if rounds == [] {
      PlanEmptyIffUpToDate(s, version);
    } else {
      var s' := Converged(s, version, rounds[0]);
      OneRunConverges(s, version, rounds[0]);
      HistoryProgress(s, version, rounds[0]);
      HistoryStaysLoaded(s, version, rounds[0]);
      Settles(s', version, rounds[1..]);
    }
  }

  lemma HistoryStaysLoaded(s: CityState, version: string, r: Round)
    requires s.lastPull.Some? && !HistoryShort(s)
    ensures !HistoryShort(Converged(s, version, r))
  {
    ConvergedSteps(s, version, r);
  }

  lemma {:induction false} PulledCityConverges(s: CityState, version: string, rounds: seq<Round>)
    requires s.lastPull.Some? && Runs(s, version, rounds) && |rounds| > HistoryLeft(s)
    ensures Plan(AfterRuns(s, version, rounds), version) == []
    decreases |rounds|
  {
    if HistoryShort(s) {
      var s' := Converged(s, version, rounds[0]);
      HistoryProgress(s, version, rounds[0]);
      PulledCityConverges(s', version, rounds[1..]);
    } else {
      Settles(s, version, rounds);
    }
  }

  lemma {:induction false} RunsSplit(s: CityState, version: string, rounds: seq<Round>, k: nat)
    requires k <= |rounds| && Runs(s, version, rounds)
    ensures Runs(AfterRuns(s, version, rounds[..k]), version, rounds[k..])
    ensures AfterRuns(AfterRuns(s, version, rounds[..k]), version, rounds[k..]) == AfterRuns(s, version, rounds)
    decreases k
  {
    if k > 0 {
      RunsSplit(Converged(s, version, rounds[0]), version, rounds[1..], k - 1);
      assert rounds[..k][1..] == rounds[1..][..k - 1] && rounds[1..][k - 1..] == rounds[k..];
    } else {
      assert rounds[..0] == [] && rounds[0..] == rounds;
    }
  }

  /** From any state, however successful runs go: once some pull has completed, say
      after `k` of them, the plan is empty after one more than there are days of
      history to load, and stays empty. */
  lemma {:induction false} EveryCityConverges(s: CityState, version: string, rounds: seq<Round>, k: nat)
    requires Runs(s, version, rounds) && k <= |rounds|
    requires s.lastPull.Some? || exists i :: 0 <= i < k && !rounds[i].pull.Blocked?
    requires |rounds| - k > HistoryLeft(AfterRuns(s, version, rounds[..k]))
    ensures Plan(AfterRuns(s, version, rounds), version) == []
  {
    RunsSplit(s, version, rounds, k);
    PulledIff(s, version, rounds[..k]);
    assert forall i :: 0 <= i < k ==> rounds[..k][i] == rounds[i];
    PulledCityConverges(AfterRuns(s, version, rounds[..k]), version, rounds[k..]);
  }
}
