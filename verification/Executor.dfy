/** Carrying plans out (safety/ops.py): the ledger of attempts, the retry cooldown,
    and one run over several cities. */
module Executor {
  import opened Wrappers
  import opened Planner
  import opened Recency

  type City = string
  // Hours, on the database's clock.
  type Hours = real

  datatype Status = Running | Succeeded | Failed

  /** One etl.ops_run row. `gate` records the cooldown the attempt had to respect,
      None when it was forced; no operation reads it. */
  datatype Attempt = Attempt(task: Task, city: City, status: Status, startedAt: Hours, version: string,
                             gate: Option<Hours>)

  /** How a step's command ends: exit code 0, another code, an exception or
      SystemExit, or the whole process killed under it. */
  datatype Ending = Ok | NonZero | Raises | Killed

  /** One city's share of one converge run. */
  datatype Job = Job(
    city: City, plan: seq<Task>, force: bool, cooldown: Hours, version: string,
    check: Hours, starts: Task -> Hours, ends: Task -> Ending)

  datatype CityResult = CityResult(done: seq<Task>, skipped: Option<Task>, failed: Option<Task>, blocked: seq<Task>)

  function Last(rows: seq<Attempt>, task: Task, city: City): Option<Attempt> {
    if rows == [] then None
    else if rows[|rows| - 1].task == task && rows[|rows| - 1].city == city then Some(rows[|rows| - 1])
    else Last(rows[..|rows| - 1], task, city)
  }

  /** `_cooldown_block` is not None. */
  function CooldownBlocks(last: Option<Attempt>, task: Task, now: Hours, cooldown: Hours, version: string): bool {
    if last.None? || now - last.value.startedAt >= cooldown then false
    else if last.value.status == Running || last.value.status == Failed then true
    else task != History && last.value.version == version
  }

  function IsBlocked(rows: seq<Attempt>, j: Job, task: Task): bool {
    !j.force && CooldownBlocks(Last(rows, task, j.city), task, j.check, j.cooldown, j.version)
  }

  function Opened(j: Job, task: Task, status: Status): Attempt {
    Attempt(task, j.city, status, j.starts(task), j.version, if j.force then None else Some(j.cooldown))
  }

  function Closed(e: Ending): Status {
    match e
    case Ok => Succeeded
    case NonZero => Failed
    case Raises => Failed
    case Killed => Running
  }

  /** The steps that are attempted: those up to the first that is blocked or does
      not succeed, and that one if it was attempted. */
  function Attempted(j: Job, blocks: set<Task>, plan: seq<Task>): seq<Task> {
    if plan == [] || plan[0] in blocks then []
    else [plan[0]] + if j.ends(plan[0]) == Ok then Attempted(j, blocks, plan[1..]) else []
  }

  /** The rows those attempts leave. */
  function RowsFor(j: Job, tasks: seq<Task>): (r: seq<Attempt>)
    ensures |r| == |tasks| && forall i :: 0 <= i < |r| ==> r[i] == Opened(j, tasks[i], Closed(j.ends(tasks[i])))
  {
    if tasks == [] then [] else [Opened(j, tasks[0], Closed(j.ends(tasks[0])))] + RowsFor(j, tasks[1..])
  }

  function Blocks(rows: seq<Attempt>, j: Job): set<Task> {
    set task | task in j.plan && IsBlocked(rows, j, task)
  }

  /** The ledger after one city's share of a run. */
  function After(rows: seq<Attempt>, j: Job): seq<Attempt> {
    rows + RowsFor(j, Attempted(j, Blocks(rows, j), j.plan))
  }

  predicate NoneTwice(plan: seq<Task>) {
    forall a, b :: 0 <= a < b < |plan| ==> plan[a] != plan[b]
  }

  /** None of these attempts was killed mid-step. */
  predicate Survives(j: Job, tasks: seq<Task>) {
    forall t :: t in tasks ==> j.ends(t) != Killed
  }

  function Single(o: Option<Task>): seq<Task> { if o.Some? then [o.value] else [] }

  /** The summary of a city whose remaining steps are `rest`. */
  function Proceed(r: CityResult, j: Job, blocks: set<Task>, rest: seq<Task>): CityResult
    decreases |rest|
  {
    if rest == [] then r
    else if r.failed.Some? then Proceed(r.(blocked := r.blocked + [rest[0]]), j, blocks, rest[1..])
    else if rest[0] in blocks then r.(skipped := Some(rest[0]), blocked := r.blocked + rest[1..])
    else if j.ends(rest[0]) == Ok then Proceed(r.(done := r.done + [rest[0]]), j, blocks, rest[1..])
    else Proceed(r.(failed := Some(rest[0])), j, blocks, rest[1..])
  }

  function Summary(rows: seq<Attempt>, j: Job): CityResult {
    Proceed(CityResult([], None, None, []), j, Blocks(rows, j), j.plan)
  }

  lemma {:induction false} ProceedFailed(r: CityResult, j: Job, blocks: set<Task>, rest: seq<Task>)
    requires r.failed.Some?
    ensures Proceed(r, j, blocks, rest) == r.(blocked := r.blocked + rest)
    decreases |rest|
  {
    if rest == [] {
      assert r.blocked + rest == r.blocked;
    } else {
      ProceedFailed(r.(blocked := r.blocked + [rest[0]]), j, blocks, rest[1..]);
      assert r.blocked + [rest[0]] + rest[1..] == r.blocked + rest;
    }
  }

  /** The step, if any, that stopped a city, and everything behind it. */
  function Rest(r: CityResult): seq<Task> { Single(r.failed) + Single(r.skipped) + r.blocked }

  predicate StoppedOnce(r: CityResult, j: Job, blocks: set<Task>) {
    && !(r.failed.Some? && r.skipped.Some?)
    && (r.blocked != [] ==> r.failed.Some? || r.skipped.Some?)
    && (r.failed.Some? ==> j.ends(r.failed.value) != Ok && r.failed.value !in blocks)
    && (r.skipped.Some? ==> r.skipped.value in blocks)
  }

  /** What the summary of steps `rest` adds after `done`. */
  lemma {:induction false} ProceedAccounts(done: seq<Task>, j: Job, blocks: set<Task>, rest: seq<Task>)
    returns (more: seq<Task>)
    ensures var r := Proceed(CityResult(done, None, None, []), j, blocks, rest);
      && r.done == done + more && rest == more + Rest(r) && StoppedOnce(r, j, blocks)
      && Attempted(j, blocks, rest) == more + Single(r.failed)
      && forall t :: t in more ==> j.ends(t) == Ok
    decreases |rest|
  {
    var r := Proceed(CityResult(done, None, None, []), j, blocks, rest);
    more := [];
    if rest == [] {
      assert done + [] == done;
    } else {
      var x, tail := [rest[0]], rest[1..];
      assert rest == x + tail;
      if rest[0] in blocks {
        assert Rest(r) == x + ([] + tail);
      } else if j.ends(rest[0]) == Ok {
        var m := ProceedAccounts(done + x, j, blocks, tail);
        more := x + m;
        ConcatAssoc(done, x, m);
        ConcatAssoc(x, m, Rest(r));
        ConcatAssoc(x, m, Single(r.failed));
      } else {
        ProceedFailed(CityResult(done, None, Some(rest[0]), []), j, blocks, tail);
        assert Rest(r) == x + [] + ([] + tail);
      }
    }
  }

  /** What a city's summary says about its plan: the steps that succeeded, in order;
      then at most one that failed or was left alone; then everything behind it,
      blocked. A step ran exactly if it is among the first two, so none ran unless
      all before it had succeeded. */
  lemma {:induction false} SummaryAccounts(rows: seq<Attempt>, j: Job)
    ensures var r := Summary(rows, j);
      && j.plan == r.done + Rest(r) && StoppedOnce(r, j, Blocks(rows, j))
      && Attempted(j, Blocks(rows, j), j.plan) == r.done + Single(r.failed)
      && forall t :: t in r.done ==> j.ends(t) == Ok
  {
    var more := ProceedAccounts([], j, Blocks(rows, j), j.plan);
    assert [] + more == more;
  }

  class Ops {
    var ledger: seq<Attempt>

    constructor ()
      ensures ledger == []
    {
      ledger := [];
    }

    /** `run_step`: the row is on record before the work starts, and closed unless
        the process is killed under it. */
    method RunStep(j: Job, task: Task) returns (ok: bool, alive: bool)
      modifies this
      ensures ledger == old(ledger) + [Opened(j, task, Closed(j.ends(task)))]
      ensures alive == (j.ends(task) != Killed) && ok == (j.ends(task) == Ok)
    {
      ledger := ledger + [Opened(j, task, Running)];
      var id := |ledger| - 1;
      if j.ends(task) == Killed {
        return false, false;
      }
      if j.ends(task) == Raises || j.ends(task) == NonZero {
        ledger := ledger[id := ledger[id].(status := Failed)];
        return false, true;
      }
      ledger := ledger[id := ledger[id].(status := Succeeded)];
      return true, true;
    }

    /** The turn of `converge`'s inner loop that runs a step. */
    method TakeStep(j: Job, task: Task, before: CityResult, ghost blocks: set<Task>, ghost ran: seq<Task>,
                    ghost left: seq<Task>)
      returns (r: CityResult, alive: bool)
      requires left != [] && left[0] == task
      requires SoFar(j, blocks, before, ran, left) && before.failed.None? && task !in blocks
      modifies this
      ensures ledger == old(ledger) + [Opened(j, task, Closed(j.ends(task)))]
      ensures alive ==> SoFar(j, blocks, r, ran + [task], left[1..])
      ensures !alive ==> Attempted(j, blocks, j.plan) == ran + [task] && !Survives(j, ran + [task])
    {
      hide Attempted, Proceed, Closed, SoFar, Survives;
      r := before;
      var ok;
      ok, alive := RunStep(j, task);
      SoFarRuns(j, blocks, before, ran, left);
      if ok {
        r := r.(done := r.done + [task]);
      } else {
        r := r.(failed := Some(task));
      }
    }

    /** The loop of `converge` over one city's steps, given which of them the
        cooldown blocks. Killed mid-step, it returns with nothing more written. */
    method RunSteps(j: Job, blocks: set<Task>) returns (r: CityResult, alive: bool)
      modifies this
      ensures ledger == old(ledger) + RowsFor(j, Attempted(j, blocks, j.plan))
      ensures alive == Survives(j, Attempted(j, blocks, j.plan))
      ensures alive ==> r == Proceed(START, j, blocks, j.plan)
    {
      hide Attempted, Proceed, RowsFor, Closed, SoFar, Survives;
      ghost var was := ledger;
      r := START;
      alive := true;
      ghost var ran, left := [], j.plan;
      var index := 0;
      SoFarStarts(j, blocks);
      while index < |j.plan|
        invariant 0 <= index <= |j.plan| && left == j.plan[index..]
        invariant SoFar(j, blocks, r, ran, left)
        invariant ledger == was + RowsFor(j, ran)
        invariant alive
      {
        var task := j.plan[index];
        if r.failed.Some? {
          SoFarBlocks(j, blocks, r, ran, left);
          r := r.(blocked := r.blocked + [task]);
        } else if task in blocks {
          SoFarSkips(j, blocks, r, ran, left);
          r := r.(skipped := Some(task), blocked := j.plan[index + 1..]);
          return;
        } else {
          RowsForAppend(j, ran, task);
          ConcatAssoc(was, RowsFor(j, ran), [Opened(j, task, Closed(j.ends(task)))]);
          r, alive := TakeStep(j, task, r, blocks, ran, left);
          ran := ran + [task];
          if !alive {
            return;
          }
        }
        left := left[1..];
        index := index + 1;
      }
      SoFarEnds(j, blocks, r, ran);
    }

    /** One city's share of a run: the cooldown is asked about every planned step
        first, then the steps are taken. */
    method ConvergeCity(j: Job) returns (r: CityResult, alive: bool)
      requires NoneTwice(j.plan)
      modifies this
      ensures ledger == After(old(ledger), j)
      ensures alive == Survives(j, Attempted(j, Blocks(old(ledger), j), j.plan))
      ensures alive ==> r == Summary(old(ledger), j)
    {
      var blocks := Blocks(ledger, j);
      r, alive := RunSteps(j, blocks);
    }

    /** The loop of `converge` over the cities. A step that kills the process ends the
        whole run: `begun` cities were started and no later one is. */
    method Converge(jobs: seq<Job>) returns (results: seq<CityResult>, alive: bool, begun: nat)
      requires forall k :: 0 <= k < |jobs| ==> NoneTwice(jobs[k].plan)
      modifies this
      ensures begun <= |jobs| && ledger == AfterAll(old(ledger), jobs[..begun])
      ensures Began(old(ledger), jobs, begun)
      ensures alive <==> Reaches(old(ledger), jobs, |jobs|)
      ensures alive ==> |results| == |jobs| && Summarized(old(ledger), jobs, results)
    {
      hide After, AfterAll, Summary, Dies, Reaches, Began, Summarized;
      results, alive, begun := [], true, 0;
      ghost var was := ledger;
      ConvergeStarts(was, jobs);
      while begun < |jobs|
        invariant begun <= |jobs| && alive
        invariant ledger == AfterAll(was, jobs[..begun]) && Reaches(was, jobs, begun)
        invariant |results| == begun && Summarized(was, jobs, results)
      {
        var result;
        result, alive := ConvergeCity(jobs[begun]);
        ConvergeTurn(was, jobs, begun, results);
        results := results + [result];
        begun := begun + 1;
        if !alive {
          return;
        }
      }
      ConvergeEnds(was, jobs);
    }
  }

  // ---- the loop of `converge`, turn by turn

  const START := CityResult([], None, None, [])

  /** With the steps `ran` attempted and `left` to come, `r` is on its way to the
      summary of the whole plan. */
  ghost predicate SoFar(j: Job, blocks: set<Task>, r: CityResult, ran: seq<Task>, left: seq<Task>) {
    && r.skipped == None && (r.failed.None? ==> r.blocked == [])
    && Proceed(r, j, blocks, left) == Proceed(START, j, blocks, j.plan)
    && Survives(j, ran)
    && Attempted(j, blocks, j.plan) == if r.failed.Some? then ran else ran + Attempted(j, blocks, left)
  }

  lemma {:induction false} SoFarStarts(j: Job, blocks: set<Task>)
    ensures SoFar(j, blocks, START, [], j.plan) && RowsFor(j, []) == [] && j.plan == j.plan[0..]
  {
    assert [] + Attempted(j, blocks, j.plan) == Attempted(j, blocks, j.plan);
  }

  lemma SoFarBlocks(j: Job, blocks: set<Task>, r: CityResult, ran: seq<Task>, left: seq<Task>)
    requires SoFar(j, blocks, r, ran, left) && left != [] && r.failed.Some?
    ensures SoFar(j, blocks, r.(blocked := r.blocked + [left[0]]), ran, left[1..])
  {
  }

  lemma {:induction false} SkipsHere(j: Job, blocks: set<Task>, r: CityResult, left: seq<Task>)
    requires left != [] && r.failed.None? && left[0] in blocks
    ensures Proceed(r, j, blocks, left) == r.(skipped := Some(left[0]), blocked := r.blocked + left[1..])
    ensures Attempted(j, blocks, left) == []
  {
  }

  lemma {:induction false} SoFarSkips(j: Job, blocks: set<Task>, r: CityResult, ran: seq<Task>, left: seq<Task>)
    requires SoFar(j, blocks, r, ran, left) && left != [] && r.failed.None? && left[0] in blocks
    ensures r.(skipped := Some(left[0]), blocked := left[1..]) == Proceed(START, j, blocks, j.plan)
    ensures Attempted(j, blocks, j.plan) == ran && Survives(j, ran)
  {
    hide Proceed, Attempted, Survives;
    SkipsHere(j, blocks, r, left);
    assert ran + [] == ran;
    assert [] + left[1..] == left[1..];
  }

  lemma {:induction false} SoFarRuns(j: Job, blocks: set<Task>, r: CityResult, ran: seq<Task>, left: seq<Task>)
    requires SoFar(j, blocks, r, ran, left) && left != [] && r.failed.None? && left[0] !in blocks
    ensures j.ends(left[0]) == Ok ==> SoFar(j, blocks, r.(done := r.done + [left[0]]), ran + [left[0]], left[1..])
    ensures j.ends(left[0]) != Ok ==> Attempted(j, blocks, j.plan) == ran + [left[0]]
    ensures Survives(j, ran + [left[0]]) <==> j.ends(left[0]) != Killed
    ensures j.ends(left[0]) !in {Ok, Killed} ==>
        SoFar(j, blocks, r.(failed := Some(left[0])), ran + [left[0]], left[1..])
  {
    ConcatAssoc(ran, [left[0]], Attempted(j, blocks, left[1..]));
    assert (ran + [left[0]])[|ran|] == left[0];
  }

  lemma {:induction false} SoFarEnds(j: Job, blocks: set<Task>, r: CityResult, ran: seq<Task>)
    requires SoFar(j, blocks, r, ran, [])
    ensures r == Proceed(START, j, blocks, j.plan)
    ensures Attempted(j, blocks, j.plan) == ran && Survives(j, ran)
  {
    assert ran + [] == ran;
  }

  lemma {:induction false} RowsForAppend(j: Job, tasks: seq<Task>, task: Task)
    ensures RowsFor(j, tasks + [task]) == RowsFor(j, tasks) + [Opened(j, task, Closed(j.ends(task)))]
  {
  }

  function Tasks(steps: seq<Step>): (r: seq<Task>)
    ensures |r| == |steps| && forall i :: 0 <= i < |r| ==> r[i] == steps[i].task
  {
    if steps == [] then [] else [steps[0].task] + Tasks(steps[1..])
  }

  /** What a job requires of its plan, every plan has. */
  lemma PlansNameNoTaskTwice(s: CityState, version: string)
    ensures NoneTwice(Tasks(Plan(s, version)))
  {
    PlanInOrder(s, version);
    var p := Plan(s, version);
    forall a, b | 0 <= a < b < |p| ensures Tasks(p)[a] != Tasks(p)[b] {
      assert p[a].task.Position() < p[b].task.Position();
    }
  }

  // ---- cities do not affect each other

  lemma {:induction false} LastUnmoved(rows: seq<Attempt>, more: seq<Attempt>, task: Task, city: City)
    requires forall i :: 0 <= i < |more| ==> more[i].task != task || more[i].city != city
    ensures Last(rows + more, task, city) == Last(rows, task, city)
  {
    if more == [] {
      assert rows + more == rows;
    } else {
      assert (rows + more)[..|rows + more| - 1] == rows + more[..|more| - 1];
      LastUnmoved(rows, more[..|more| - 1], task, city);
    }
  }

  /** The ledger after the shares `jobs`, one after another. */
  function AfterAll(rows: seq<Attempt>, jobs: seq<Job>): seq<Attempt> {
    if jobs == [] then rows else After(AfterAll(rows, jobs[..|jobs| - 1]), jobs[|jobs| - 1])
  }

  lemma {:induction false} AfterAllExtends(rows: seq<Attempt>, jobs: seq<Job>)
    ensures |AfterAll(rows, jobs)| >= |rows| && AfterAll(rows, jobs)[..|rows|] == rows
    ensures forall i :: |rows| <= i < |AfterAll(rows, jobs)| ==>
        exists k :: 0 <= k < |jobs| && AfterAll(rows, jobs)[i].city == jobs[k].city
  {
    if jobs != [] {
      var n := |jobs| - 1;
      AfterAllExtends(rows, jobs[..n]);
      var mid := AfterAll(rows, jobs[..n]);
      forall i | |rows| <= i < |AfterAll(rows, jobs)|
        ensures exists k :: 0 <= k < |jobs| && AfterAll(rows, jobs)[i].city == jobs[k].city
      {
        if i < |mid| {
          var k :| 0 <= k < n && mid[i].city == jobs[..n][k].city;
          assert jobs[k].city == AfterAll(rows, jobs)[i].city;
        } else {
          assert AfterAll(rows, jobs)[i].city == jobs[n].city;
        }
      }
    }
  }

  /** A city's share kills the process. */
  predicate Dies(rows: seq<Attempt>, j: Job) {
    !Survives(j, Attempted(j, Blocks(rows, j), j.plan))
  }

  /** A run over `jobs` gets to the `k`th: no city before it killed the process. */
  ghost predicate Reaches(rows: seq<Attempt>, jobs: seq<Job>, k: nat)
    requires k <= |jobs|
  {
    forall i :: 0 <= i < k ==> !Dies(AfterAll(rows, jobs[..i]), jobs[i])
  }

  /** The cities begun are exactly those reached. */
  ghost predicate Began(rows: seq<Attempt>, jobs: seq<Job>, begun: nat) {
    forall k :: 0 <= k < |jobs| ==> (k < begun <==> Reaches(rows, jobs, k))
  }

  /** Each result is its city's summary at its turn. */
  ghost predicate Summarized(rows: seq<Attempt>, jobs: seq<Job>, results: seq<CityResult>) {
    && |results| <= |jobs|
    && forall k :: 0 <= k < |results| ==> results[k] == Summary(AfterAll(rows, jobs[..k]), jobs[k])
  }

  lemma {:induction false} ConvergeStarts(rows: seq<Attempt>, jobs: seq<Job>)
    ensures AfterAll(rows, jobs[..0]) == rows && Reaches(rows, jobs, 0) && Summarized(rows, jobs, [])
  {
  }

  lemma {:induction false} ConvergeTurn(rows: seq<Attempt>, jobs: seq<Job>, k: nat, results: seq<CityResult>)
    requires k < |jobs| && Reaches(rows, jobs, k) && Summarized(rows, jobs, results) && |results| == k
    ensures var mid, j := AfterAll(rows, jobs[..k]), jobs[k];
      && AfterAll(rows, jobs[..k + 1]) == After(mid, j)
      && (Reaches(rows, jobs, k + 1) <==> Survives(j, Attempted(j, Blocks(mid, j), j.plan)))
      && Summarized(rows, jobs, results + [Summary(mid, j)])
    ensures !Reaches(rows, jobs, k + 1) ==> Began(rows, jobs, k + 1) && !Reaches(rows, jobs, |jobs|)
  {
    hide After, Summary, Attempted, Survives, Blocks;
    assert jobs[..k + 1][..k] == jobs[..k];
  }

  lemma ConvergeEnds(rows: seq<Attempt>, jobs: seq<Job>)
    requires Reaches(rows, jobs, |jobs|)
    ensures Began(rows, jobs, |jobs|) && jobs[..|jobs|] == jobs
  {
    hide Dies, AfterAll;
  }

  /** Before its turn, nothing in the run has touched a city. */
  lemma {:induction false} AsIfAlone(rows: seq<Attempt>, jobs: seq<Job>, k: nat)
    requires k < |jobs|
    requires forall a, b :: 0 <= a < b < |jobs| ==> jobs[a].city != jobs[b].city
    ensures Blocks(AfterAll(rows, jobs[..k]), jobs[k]) == Blocks(rows, jobs[k])
  {
    var mid, j := AfterAll(rows, jobs[..k]), jobs[k];
    AfterAllExtends(rows, jobs[..k]);
    var more := mid[|rows|..];
    assert mid == rows + more;
    forall i | 0 <= i < |more| ensures more[i].city != j.city {
      var a :| 0 <= a < k && mid[|rows| + i].city == jobs[..k][a].city;
      assert jobs[a].city != jobs[k].city;
    }
    forall task | task in j.plan ensures IsBlocked(mid, j, task) == IsBlocked(rows, j, task) {
      LastUnmoved(rows, more, task, j.city);
    }
  }

  /** In a run over several cities a city is reached exactly when none before it would
      have killed the process on its own, and then its steps, its rows and its summary
      are those it would have alone, however the cities before it ended. */
  lemma {:induction false} CitiesIndependent(rows: seq<Attempt>, jobs: seq<Job>, k: nat)
    requires k < |jobs|
    requires forall a, b :: 0 <= a < b < |jobs| ==> jobs[a].city != jobs[b].city
    ensures Reaches(rows, jobs, k) <==> forall i :: 0 <= i < k ==> !Dies(rows, jobs[i])
    ensures var mid := AfterAll(rows, jobs[..k]);
      && Blocks(mid, jobs[k]) == Blocks(rows, jobs[k])
      && After(mid, jobs[k])[|mid|..] == After(rows, jobs[k])[|rows|..]
      && Summary(mid, jobs[k]) == Summary(rows, jobs[k])
  {
    forall i | 0 <= i < k ensures Dies(AfterAll(rows, jobs[..i]), jobs[i]) == Dies(rows, jobs[i]) {
      AsIfAlone(rows, jobs, i);
    }
    AsIfAlone(rows, jobs, k);
  }

  // ---- the cooldown, over whole histories

  /** Runs happen one after another, and a run's steps after its check. */
  ghost predicate Timely(rows: seq<Attempt>, j: Job) {
    && NoneTwice(j.plan)
    && (forall i :: 0 <= i < |rows| ==> rows[i].startedAt <= j.check)
    && (forall t :: j.check <= j.starts(t))
  }

  ghost predicate TimelyAll(rows: seq<Attempt>, jobs: seq<Job>) {
    jobs == [] || (TimelyAll(rows, jobs[..|jobs| - 1]) && Timely(AfterAll(rows, jobs[..|jobs| - 1]), jobs[|jobs| - 1]))
  }

  /** Why attempt `b` may follow attempt `a` of the same step as soon as it does. */
  predicate MayFollow(a: Attempt, b: Attempt) {
    || b.gate.None?
    || b.startedAt - a.startedAt >= b.gate.value
    || (a.status == Succeeded && (a.task == History || a.version != b.version))
  }

  /** Every attempt respects the previous one of the same step. */
  ghost predicate Spaced(rows: seq<Attempt>) {
    forall i :: 0 <= i < |rows| && Last(rows[..i], rows[i].task, rows[i].city).Some?
      ==> MayFollow(Last(rows[..i], rows[i].task, rows[i].city).value, rows[i])
  }

  lemma {:induction false} AttemptedUnblocked(j: Job, blocks: set<Task>, plan: seq<Task>)
    ensures Attempted(j, blocks, plan) <= plan
    ensures forall t :: t in Attempted(j, blocks, plan) ==> t !in blocks
  {
    if plan != [] {
      AttemptedUnblocked(j, blocks, plan[1..]);
    }
  }

  lemma {:induction false} LastIn(rows: seq<Attempt>, task: Task, city: City)
    requires Last(rows, task, city).Some?
    ensures Last(rows, task, city).value in rows
    ensures Last(rows, task, city).value.task == task && Last(rows, task, city).value.city == city
  {
    if !(rows[|rows| - 1].task == task && rows[|rows| - 1].city == city) {
      LastIn(rows[..|rows| - 1], task, city);
    }
  }

  lemma {:induction false} UnblockedMayFollow(rows: seq<Attempt>, j: Job, task: Task)
    requires task in j.plan && !IsBlocked(rows, j, task) && j.check <= j.starts(task)
    requires Last(rows, task, j.city).Some?
    ensures MayFollow(Last(rows, task, j.city).value, Opened(j, task, Closed(j.ends(task))))
  {
    LastIn(rows, task, j.city);
  }

  lemma NewAttemptSpaced(rows: seq<Attempt>, j: Job, i: nat)
    requires Timely(rows, j) && |rows| <= i < |After(rows, j)|
    ensures var row := After(rows, j)[i];
      var last := Last(After(rows, j)[..i], row.task, row.city);
      last.Some? ==> MayFollow(last.value, row)
  {
    var blocks := Blocks(rows, j);
    var ran := Attempted(j, blocks, j.plan);
    AttemptedUnblocked(j, blocks, j.plan);
    var k := i - |rows|;
    var task, more := ran[k], RowsFor(j, ran)[..k];
    assert After(rows, j)[..i] == rows + more;
    assert After(rows, j)[i] == Opened(j, task, Closed(j.ends(task)));
    forall m | 0 <= m < k ensures more[m].task != task {
      assert ran[m] == j.plan[m] && task == j.plan[k];
    }
    LastUnmoved(rows, more, task, j.city);
    assert task in ran && task in j.plan;
    if Last(rows, task, j.city).Some? {
      UnblockedMayFollow(rows, j, task);
    }
  }

  /** Over any history of runs, two unforced attempts of one step of one city come
      closer together than the cooldown only after a success, and then only of a
      history step or of another pipeline version. */
  lemma {:induction false} AttemptsSpaced(jobs: seq<Job>)
    requires TimelyAll([], jobs)
    ensures Spaced(AfterAll([], jobs))
  {
    if jobs != [] {
      var before, j := jobs[..|jobs| - 1], jobs[|jobs| - 1];
      AttemptsSpaced(before);
      var rows := AfterAll([], before);
      var after := After(rows, j);
      forall i | 0 <= i < |after| && Last(after[..i], after[i].task, after[i].city).Some?
        ensures MayFollow(Last(after[..i], after[i].task, after[i].city).value, after[i])
      {
        if i < |rows| {
          assert after[..i] == rows[..i] && after[i] == rows[i];
        } else {
          NewAttemptSpaced(rows, j, i);
        }
      }
    }
  }

  lemma {:induction false} LastIs(rows: seq<Attempt>, row: Attempt, more: seq<Attempt>)
    requires forall i :: 0 <= i < |more| ==> more[i].task != row.task || more[i].city != row.city
    ensures Last((rows + [row]) + more, row.task, row.city) == Some(row)
  {
    LastUnmoved(rows + [row], more, row.task, row.city);
  }

  lemma SplitAt<T>(a: seq<T>, b: seq<T>, k: nat)
    requires k < |b|
    ensures a + b == ((a + b[..k]) + [b[k]]) + b[k + 1..]
  {
  }

  lemma {:induction false} RunsOnce(j: Job, blocks: set<Task>, k: nat, m: nat)
    requires NoneTwice(j.plan) && k < m < |Attempted(j, blocks, j.plan)|
    ensures Attempted(j, blocks, j.plan)[m] != Attempted(j, blocks, j.plan)[k]
  {
    AttemptedUnblocked(j, blocks, j.plan);
  }

  /** The ledger's last word on a step a share attempted. */
  lemma {:induction false} LastAttempt(rows: seq<Attempt>, j: Job, k: nat)
    requires NoneTwice(j.plan) && k < |Attempted(j, Blocks(rows, j), j.plan)|
    ensures var task := Attempted(j, Blocks(rows, j), j.plan)[k];
      Last(After(rows, j), task, j.city) == Some(Opened(j, task, Closed(j.ends(task))))
  {
    hide Attempted, Blocks, Last, Closed, NoneTwice;
    var ran := Attempted(j, Blocks(rows, j), j.plan);
    var more := RowsFor(j, ran)[k + 1..];
    SplitAt(rows, RowsFor(j, ran), k);
    forall m | 0 <= m < |more| ensures more[m].task != ran[k] {
      RunsOnce(j, Blocks(rows, j), k, k + 1 + m);
    }
    LastIs(rows + RowsFor(j, ran)[..k], RowsFor(j, ran)[k], more);
  }

  /** After a share attempted a step, and whatever happened to other steps since, the
      next unforced share leaves it alone exactly if the cooldown has not passed and
      the attempt did not succeed, or did, but was not a history load and ran under the
      same version. How it failed makes no difference: an attempt killed with its row
      still marked running stops blocking when the cooldown has passed. */
  lemma {:induction false} LeftAloneIff(rows: seq<Attempt>, j: Job, k: nat, between: seq<Attempt>, next: Job)
    requires NoneTwice(j.plan) && k < |Attempted(j, Blocks(rows, j), j.plan)|
    requires var task := Attempted(j, Blocks(rows, j), j.plan)[k];
      && next.city == j.city && task in next.plan && !next.force
      && forall i :: 0 <= i < |between| ==> between[i].task != task || between[i].city != j.city
    ensures var task := Attempted(j, Blocks(rows, j), j.plan)[k];
      task in Blocks(After(rows, j) + between, next) <==>
        && next.check - j.starts(task) < next.cooldown
        && (j.ends(task) != Ok || (task != History && j.version == next.version))
  {
    LastAttempt(rows, j, k);
    LastUnmoved(After(rows, j), between, Attempted(j, Blocks(rows, j), j.plan)[k], j.city);
  }

  lemma {:induction false} AttemptedReaches(j: Job, blocks: set<Task>, plan: seq<Task>, i: nat)
    requires i < |plan| && plan[i] !in blocks
    requires forall k :: 0 <= k < i ==> plan[k] !in blocks && j.ends(plan[k]) == Ok
    ensures i < |Attempted(j, blocks, plan)| && Attempted(j, blocks, plan)[i] == plan[i]
  {
    if i > 0 {
      assert forall k :: 0 <= k < i - 1 ==> plan[1..][k] == plan[k + 1];
      AttemptedReaches(j, blocks, plan[1..], i - 1);
    }
  }

  /** A step that was never attempted, or last as long ago as the cooldown, is attempted
      as soon as all before it in the plan succeed: not held up by a failure, nor because
      a killed run's row still says running. */
  lemma {:induction false} AbandonedNeverBlocks(rows: seq<Attempt>, j: Job, i: nat)
    requires i < |j.plan|
    requires Last(rows, j.plan[i], j.city).Some? ==>
      j.check - Last(rows, j.plan[i], j.city).value.startedAt >= j.cooldown
    requires forall k :: 0 <= k < i ==> j.plan[k] !in Blocks(rows, j) && j.ends(j.plan[k]) == Ok
    ensures |After(rows, j)| > |rows| + i
    ensures After(rows, j)[|rows| + i] == Opened(j, j.plan[i], Closed(j.ends(j.plan[i])))
  {
    assert !IsBlocked(rows, j, j.plan[i]);
    AttemptedReaches(j, Blocks(rows, j), j.plan, i);
  }

  lemma {:induction false} NeverTried(rows: seq<Attempt>, task: Task, city: City)
    ensures Last(rows, task, city).None? <==> forall r :: r in rows ==> r.task != task || r.city != city
  {
    if rows != [] {
      var n := |rows| - 1;
      assert rows == rows[..n] + [rows[n]];
      NeverTried(rows[..n], task, city);
    }
  }

  /** On an instance that has run nothing for a city, a run attempts every step of its
      plan up to the first that does not succeed, forced or not. */
  lemma FirstRunAttempts(rows: seq<Attempt>, j: Job, i: nat)
    requires i < |j.plan| && forall r :: r in rows ==> r.city != j.city
    requires forall k :: 0 <= k < i ==> j.ends(j.plan[k]) == Ok
    ensures |After(rows, j)| > |rows| + i
    ensures After(rows, j)[|rows| + i] == Opened(j, j.plan[i], Closed(j.ends(j.plan[i])))
  {
    forall k | 0 <= k <= i ensures !IsBlocked(rows, j, j.plan[k]) {
      NeverTried(rows, j.plan[k], j.city);
    }
    NeverTried(rows, j.plan[i], j.city);
    AbandonedNeverBlocks(rows, j, i);
  }

  /** A forced run does so whatever the ledger holds. */
  lemma ForcedAttempts(rows: seq<Attempt>, j: Job, i: nat)
    requires i < |j.plan| && j.force
    requires forall k :: 0 <= k < i ==> j.ends(j.plan[k]) == Ok
    ensures |After(rows, j)| > |rows| + i
    ensures After(rows, j)[|rows| + i] == Opened(j, j.plan[i], Closed(j.ends(j.plan[i])))
  {
    forall k | 0 <= k <= i ensures !IsBlocked(rows, j, j.plan[k]) {
    }
    AttemptedReaches(j, Blocks(rows, j), j.plan, i);
  }

  /** A run only ever adds rows, and they are for its plan's first steps, each but the
      last having succeeded. A row tells how its step ended, a killed one still running;
      when it started, under which version, and which cooldown it had to respect. */
  lemma AttemptsAreThePlans(rows: seq<Attempt>, j: Job, i: nat)
    requires i < |After(rows, j)| - |rows|
    ensures After(rows, j)[..|rows|] == rows
    ensures i < |j.plan| && forall k :: 0 <= k < i ==> j.ends(j.plan[k]) == Ok
    ensures var row, task := After(rows, j)[|rows| + i], j.plan[i];
      && row.task == task && row.city == j.city && row.startedAt == j.starts(task) && row.version == j.version
      && (row.status == Succeeded <==> j.ends(task) == Ok)
      && (row.status == Running <==> j.ends(task) == Killed)
      && (j.force <==> row.gate.None?)
      && (row.gate.Some? ==> row.gate.value == j.cooldown)
  {
    AttemptedUnblocked(j, Blocks(rows, j), j.plan);
    AttemptedAfterSuccess(j, Blocks(rows, j), j.plan, i);
  }

  lemma {:induction false} AttemptedAfterSuccess(j: Job, blocks: set<Task>, plan: seq<Task>, i: nat)
    requires i < |Attempted(j, blocks, plan)|
    ensures i < |plan| && forall k :: 0 <= k < i ==> j.ends(plan[k]) == Ok
  {
    if i > 0 {
      AttemptedAfterSuccess(j, blocks, plan[1..], i - 1);
      assert forall k :: 1 <= k < i ==> plan[k] == plan[1..][k - 1];
    }
  }
}
