/** `cached` in safety/api/main.py: stamped lookups with single flight, as an
    interleaving of the steps that N request threads and the ETL take. A step is
    what one thread does between two points where another can run: one critical
    section, one statement on a Future, or one run of the producer. */
module SingleFlight {
  import opened Wrappers
  import opened Recency
  import opened ResponseCache

  type Source = string

  datatype Request = Request(key: Key, source: Source, store: bool)

  datatype Config = Config(requests: seq<Request>, lim: Limits) {
    /** Every caller puts what it asks about, the city included, into its key. */
    ghost predicate Legal() {
      && lim.entries >= 1
      && forall i, j :: 0 <= i < |requests| && 0 <= j < |requests| && requests[i].key == requests[j].key
           ==> requests[i].source == requests[j].source
    }
  }

  datatype Outcome = Value(doc: Document) | Raised(error: string)

  // What _inflight is keyed on.
  datatype Flight = Flight(key: Key, stamp: Stamp)

  /** A concurrent.futures.Future. `flight` and `leader` say who created it and
      what for; no step reads them. */
  datatype Future = Future(flight: Flight, leader: nat, result: Option<Outcome>)

  datatype How =
    | Bypassed
    | FromCache(stamp: Stamp)
    | Led(stamp: Stamp, fut: nat)
    | Followed(stamp: Stamp, fut: nat)
    | TimedOut(stamp: Stamp, fut: nat)

  /** Where a request is in `cached`. */
  datatype Thread =
    | Arrived
    | Direct                                              // outside the cache, before its producer
    | Stamped(stamp: Stamp)                               // before the first critical section
    | Building(stamp: Stamp, fut: nat)                    // leader, producer running
    | Built(stamp: Stamp, fut: nat, doc: Document)        // leader, before the storing section
    | Failing(stamp: Stamp, fut: nat, error: string)      // leader, before it drops its flight
    | Resolving(stamp: Stamp, fut: nat, outcome: Outcome) // leader, flight dropped, future not set
    | Joined(stamp: Stamp, fut: nat)                      // follower, hit not counted
    | Waiting(stamp: Stamp, fut: nat)
    | Done(how: How, outcome: Outcome)

  datatype State = State(
    entries: seq<Entry>, hits: nat, misses: nat,
    inflight: map<Flight, nat>,
    futures: seq<Future>,
    versions: map<Source, Stamp>,
    threads: seq<Thread>)

  /** The ETL refreshes a city, or thread `t` takes its next step. */
  datatype Action =
    | Refresh(source: Source, version: Stamp)
    | Take(t: nat, move: Move)

  datatype Move =
    | ReadStamp
    | DirectReturn(body: string)
    | DirectRaise(error: string)
    | LockedLookup
    | Produce(body: string)
    | Fail(error: string)
    | Publish
    | Abandon
    | Resolve
    | CountHit
    | Receive
    | TimeOut

  ghost predicate Enabled(c: Config, s: State, a: Action) {
    match a
    case Refresh(source, version) => source in s.versions ==> s.versions[source] < version
    case Take(t, move) =>
      t < |s.threads| && t < |c.requests| && CanTake(s, s.threads[t], move)
  }

  ghost predicate CanTake(s: State, pc: Thread, move: Move) {
    match move
    case ReadStamp => pc.Arrived?
    case DirectReturn(_) => pc.Direct?
    case DirectRaise(_) => pc.Direct?
    case LockedLookup => pc.Stamped?
    case Produce(_) => pc.Building?
    case Fail(_) => pc.Building?
    case Publish => pc.Built?
    case Abandon => pc.Failing?
    case Resolve => pc.Resolving? && pc.fut < |s.futures|
    case CountHit => pc.Joined?
    case Receive => pc.Waiting? && pc.fut < |s.futures| && s.futures[pc.fut].result.Some?
    case TimeOut => pc.Waiting?
  }

  function Moved(s: State, t: nat, pc: Thread): State
    requires t < |s.threads|
  {
    s.(threads := s.threads[t := pc])
  }

  /** The document a producer returns: built from the data as it is when it reads. */
  function Produced(c: Config, s: State, t: nat, body: string): Document
    requires t < |c.requests|
  {
    var r := c.requests[t];
    Document(body, r.key, if r.source in s.versions then s.versions[r.source] else 0)
  }

  function Lookup(c: Config, s: State, t: nat): State
    requires t < |s.threads| && t < |c.requests| && s.threads[t].Stamped?
  {
    var key, stamp := c.requests[t].key, s.threads[t].stamp;
    var hit := Hit(s.entries, key, stamp);
    if hit.Some? then
      Moved(s.(entries := Touched(s.entries, hit.value), hits := s.hits + 1),
            t, Done(FromCache(stamp), Value(hit.value.doc)))
    else if Flight(key, stamp) in s.inflight then
      Moved(s, t, Joined(stamp, s.inflight[Flight(key, stamp)]))
    else
      Moved(s.(inflight := s.inflight[Flight(key, stamp) := |s.futures|],
               futures := s.futures + [Future(Flight(key, stamp), t, None)]),
            t, Building(stamp, |s.futures|))
  }

  function Published(c: Config, s: State, t: nat): State
    requires t < |s.threads| && t < |c.requests| && s.threads[t].Built?
  {
    var key, pc := c.requests[t].key, s.threads[t];
    var entries := Stored(s.entries, key, pc.stamp, pc.doc, c.lim);
    Moved(s.(misses := s.misses + 1, entries := entries,
             inflight := s.inflight - {Flight(key, pc.stamp)}),
          t, Resolving(pc.stamp, pc.fut, Value(pc.doc)))
  }

  function Step(c: Config, s: State, a: Action): State
    requires Enabled(c, s, a)
  {
    match a
    case Refresh(source, version) => s.(versions := s.versions[source := version])
    case Take(t, move) =>
      var pc, r := s.threads[t], c.requests[t];
      match move {
        case ReadStamp =>
          Moved(s, t, if !r.store || r.source !in s.versions then Direct else Stamped(s.versions[r.source]))
        case DirectReturn(body) => Moved(s, t, Done(Bypassed, Value(Produced(c, s, t, body))))
        case DirectRaise(error) => Moved(s, t, Done(Bypassed, Raised(error)))
        case LockedLookup => Lookup(c, s, t)
        case Produce(body) => Moved(s, t, Built(pc.stamp, pc.fut, Produced(c, s, t, body)))
        case Fail(error) => Moved(s, t, Failing(pc.stamp, pc.fut, error))
        case Publish => Published(c, s, t)
        case Abandon =>
          Moved(s.(inflight := s.inflight - {Flight(r.key, pc.stamp)}),
                t, Resolving(pc.stamp, pc.fut, Raised(pc.error)))
        case Resolve =>
          Moved(s.(futures := s.futures[pc.fut := s.futures[pc.fut].(result := Some(pc.outcome))]),
                t, Done(Led(pc.stamp, pc.fut), pc.outcome))
        case CountHit => Moved(s.(hits := s.hits + 1), t, Waiting(pc.stamp, pc.fut))
        case Receive => Moved(s, t, Done(Followed(pc.stamp, pc.fut), s.futures[pc.fut].result.value))
        case TimeOut => Moved(s, t, Done(TimedOut(pc.stamp, pc.fut), Raised("TimeoutError")))
      }
  }

  function Initial(c: Config, versions: map<Source, Stamp>): State {
    State([], 0, 0, map[], [], versions, seq(|c.requests|, _ => Arrived))
  }

  /** Whether `actions` can be taken one after another from `s`. */
  ghost predicate Run(c: Config, s: State, actions: seq<Action>)
    decreases |actions|
  {
    actions == [] || (Enabled(c, s, actions[0]) && Run(c, Step(c, s, actions[0]), actions[1..]))
  }

  ghost function After(c: Config, s: State, actions: seq<Action>): State
    requires Run(c, s, actions)
    decreases |actions|
  {
    if actions == [] then s else After(c, Step(c, s, actions[0]), actions[1..])
  }

  // ---- the invariant

  predicate Fresh(doc: Document, key: Key, stamp: Stamp) {
    doc.key == key && doc.version >= stamp
  }

  predicate OutcomeFresh(o: Outcome, f: Flight) {
    o.Value? ==> Fresh(o.doc, f.key, f.stamp)
  }

  /** The thread's producer is running or its result is not yet published: its
      flight is registered. */
  predicate Registered(th: Thread) { th.Building? || th.Built? || th.Failing? }

  predicate Leading(th: Thread) { Registered(th) || th.Resolving? }

  ghost predicate StampOk(c: Config, s: State, t: nat, stamp: Stamp)
    requires t < |c.requests|
  {
    c.requests[t].source in s.versions && stamp <= s.versions[c.requests[t].source]
  }

  ghost predicate ThreadOk(c: Config, s: State, t: nat)
    requires t < |s.threads| && t < |c.requests|
  {
    var th, key := s.threads[t], c.requests[t].key;
    && (th.Stamped? || th.Building? ==> StampOk(c, s, t, th.stamp))
    && (Leading(th) ==> th.fut < |s.futures| && s.futures[th.fut] == Future(Flight(key, th.stamp), t, None))
    && (Registered(th) ==> Flight(key, th.stamp) in s.inflight && s.inflight[Flight(key, th.stamp)] == th.fut)
    && (th.Built? ==> Fresh(th.doc, key, th.stamp))
    && (th.Resolving? ==> OutcomeFresh(th.outcome, Flight(key, th.stamp)))
    && (th.Joined? || th.Waiting? ==> th.fut < |s.futures| && s.futures[th.fut].flight == Flight(key, th.stamp))
    && (th.Done? ==> DoneOk(s, t, key, th.how, th.outcome))
  }

  ghost predicate DoneOk(s: State, t: nat, key: Key, how: How, o: Outcome) {
    match how
    case Bypassed => o.Value? ==> o.doc.key == key
    case FromCache(stamp) => o.Value? && Fresh(o.doc, key, stamp)
    case Led(stamp, fut) =>
      fut < |s.futures| && s.futures[fut] == Future(Flight(key, stamp), t, Some(o))
        && OutcomeFresh(o, Flight(key, stamp))
    case Followed(stamp, fut) =>
      && fut < |s.futures| && s.futures[fut].flight == Flight(key, stamp)
      && s.futures[fut].result == Some(o) && OutcomeFresh(o, Flight(key, stamp))
    case TimedOut(_, _) => o.Raised?
  }

  ghost predicate FutureOk(s: State, f: nat)
    requires f < |s.futures|
  {
    var fu := s.futures[f];
    && fu.leader < |s.threads|
    && (fu.result.Some? ==> OutcomeFresh(fu.result.value, fu.flight))
    && (fu.result.None? ==> Leading(s.threads[fu.leader]) && s.threads[fu.leader].fut == f)
  }

  ghost predicate FlightOk(s: State, fl: Flight)
    requires fl in s.inflight
  {
    var f := s.inflight[fl];
    && f < |s.futures| && s.futures[f].flight == fl
    && s.futures[f].leader < |s.threads|
    && Registered(s.threads[s.futures[f].leader]) && s.threads[s.futures[f].leader].fut == f
  }

  ghost predicate CacheOk(c: Config, s: State) {
    && Distinct(Keys(s.entries)) && WithinBudget(s.entries, c.lim)
    && forall e :: e in s.entries ==> Fresh(e.doc, e.key, e.stamp)
  }

  /** Requests counted as a hit so far: answered from the cache, or following. */
  predicate CountedHit(th: Thread) {
    th.Waiting? || (th.Done? && (th.how.FromCache? || th.how.Followed? || th.how.TimedOut?))
  }

  /** Requests counted as a miss so far: leaders whose document was published. */
  predicate CountedMiss(th: Thread) {
    (th.Resolving? || (th.Done? && th.how.Led?)) && th.outcome.Value?
  }

  function Count(ths: seq<Thread>, p: Thread -> bool): nat {
    if ths == [] then 0 else (if p(ths[0]) then 1 else 0) + Count(ths[1..], p)
  }

  ghost predicate CountsOk(s: State) {
    s.hits == Count(s.threads, CountedHit) && s.misses == Count(s.threads, CountedMiss)
  }

  ghost predicate Inv(c: Config, s: State) {
    && c.Legal() && |s.threads| == |c.requests|
    && (forall t :: 0 <= t < |s.threads| ==> ThreadOk(c, s, t))
    && (forall f :: 0 <= f < |s.futures| ==> FutureOk(s, f))
    && (forall fl :: fl in s.inflight ==> FlightOk(s, fl))
    && CacheOk(c, s)
    && CountsOk(s)
  }

  lemma {:induction false} CountMoved(ths: seq<Thread>, t: nat, pc: Thread, p: Thread -> bool)
    requires t < |ths|
    ensures Count(ths[t := pc], p) + (if p(ths[t]) then 1 else 0) == Count(ths, p) + (if p(pc) then 1 else 0)
  {
    if t > 0 {
      CountMoved(ths[1..], t - 1, pc, p);
      assert ths[t := pc][1..] == ths[1..][t - 1 := pc];
    } else {
      assert ths[t := pc][1..] == ths[1..];
    }
  }

  lemma CountsMoved(s: State, s': State, t: nat, pc: Thread)
    requires t < |s.threads| && s'.threads == s.threads[t := pc] && CountsOk(s)
    requires s'.hits + (if CountedHit(s.threads[t]) then 1 else 0) == s.hits + (if CountedHit(pc) then 1 else 0)
    requires s'.misses + (if CountedMiss(s.threads[t]) then 1 else 0) == s.misses + (if CountedMiss(pc) then 1 else 0)
    ensures CountsOk(s')
  {
    CountMoved(s.threads, t, pc, CountedHit);
    CountMoved(s.threads, t, pc, CountedMiss);
  }

  lemma InitialInv(c: Config, versions: map<Source, Stamp>)
    requires c.Legal()
    ensures Inv(c, Initial(c, versions))
  {
    var ths := Initial(c, versions).threads;
    NoneCounted(ths, CountedHit);
    NoneCounted(ths, CountedMiss);
  }

  lemma {:induction false} NoneCounted(ths: seq<Thread>, p: Thread -> bool)
    requires forall t :: 0 <= t < |ths| ==> !p(ths[t])
    ensures Count(ths, p) == 0
  {
    if ths != [] {
      NoneCounted(ths[1..], p);
    }
  }

  // ---- each step keeps it

  lemma RefreshInv(c: Config, s: State, a: Action)
    requires Inv(c, s) && a.Refresh? && Enabled(c, s, a)
    ensures Inv(c, Step(c, s, a))
  {
    var s' := Step(c, s, a);
    forall t | 0 <= t < |s'.threads| ensures ThreadOk(c, s', t) {
      assert ThreadOk(c, s, t);
    }
    forall f | 0 <= f < |s'.futures| ensures FutureOk(s', f) {
      assert FutureOk(s, f);
    }
    forall fl | fl in s'.inflight ensures FlightOk(s', fl) {
      assert FlightOk(s, fl);
    }
  }

  /** A step in which only the acting thread's own place changes. */
  lemma PrivateInv(c: Config, s: State, s': State, t: nat, pc: Thread)
    requires Inv(c, s) && t < |s.threads| && s' == Moved(s.(hits := s'.hits), t, pc)
    requires ThreadOk(c, s', t) && CountsOk(s')
    requires Leading(s.threads[t]) ==> Leading(pc) && pc.fut == s.threads[t].fut
    requires Registered(s.threads[t]) ==> Registered(pc)
    ensures Inv(c, s')
  {
    forall u | 0 <= u < |s'.threads| ensures ThreadOk(c, s', u) {
      assert ThreadOk(c, s, u);
    }
    forall f | 0 <= f < |s'.futures| ensures FutureOk(s', f) {
      assert FutureOk(s, f);
    }
    forall fl | fl in s'.inflight ensures FlightOk(s', fl) {
      assert FlightOk(s, fl);
    }
  }

  predicate Private(a: Action) {
    a.Take? && (a.move.ReadStamp? || a.move.DirectReturn? || a.move.DirectRaise? || a.move.Produce? || a.move.Fail?
      || a.move.CountHit? || a.move.Receive? || a.move.TimeOut?)
  }

  lemma {:induction false} PrivateThreadOk(c: Config, s: State, a: Action)
    requires Inv(c, s) && Private(a) && Enabled(c, s, a)
    ensures var s' := Step(c, s, a);
      && s' == Moved(s.(hits := s'.hits), a.t, s'.threads[a.t]) && ThreadOk(c, s', a.t)
      && (Leading(s.threads[a.t]) ==> Leading(s'.threads[a.t]) && s'.threads[a.t].fut == s.threads[a.t].fut)
      && (Registered(s.threads[a.t]) ==> Registered(s'.threads[a.t]))
  {
    assert ThreadOk(c, s, a.t);
    if a.move.Receive? {
      assert FutureOk(s, s.threads[a.t].fut);
    }
  }

  lemma {:induction false} PrivateCounts(c: Config, s: State, a: Action)
    requires Inv(c, s) && Private(a) && Enabled(c, s, a)
    ensures CountsOk(Step(c, s, a))
  {
    hide ThreadOk, FutureOk, FlightOk, CacheOk;
    CountsMoved(s, Step(c, s, a), a.t, Step(c, s, a).threads[a.t]);
  }

  lemma {:induction false} PrivateStepInv(c: Config, s: State, a: Action)
    requires Inv(c, s) && Private(a) && Enabled(c, s, a)
    ensures Inv(c, Step(c, s, a))
  {
    hide Step, ThreadOk, FutureOk, FlightOk, CacheOk, CountsOk;
    PrivateThreadOk(c, s, a);
    PrivateCounts(c, s, a);
    PrivateInv(c, s, Step(c, s, a), a.t, Step(c, s, a).threads[a.t]);
  }

  lemma HitInv(c: Config, s: State, a: Action)
    requires Inv(c, s) && a.Take? && a.move.LockedLookup? && Enabled(c, s, a)
    requires Hit(s.entries, c.requests[a.t].key, s.threads[a.t].stamp).Some?
    ensures Inv(c, Step(c, s, a))
  {
    hide Touched, Keys, WithinBudget, Distinct;
    var s' := Step(c, s, a);
    var e := Hit(s.entries, c.requests[a.t].key, s.threads[a.t].stamp).value;
    TouchKeepsBudget(s.entries, e, c.lim);
    CountsMoved(s, s', a.t, s'.threads[a.t]);
    CacheSwapInv(c, s, s.(entries := s'.entries));
    PrivateInv(c, s.(entries := s'.entries), s', a.t, s'.threads[a.t]);
  }

  /** The cache's contents are independent of everything the threads hold. */
  lemma CacheSwapInv(c: Config, s: State, s': State)
    requires Inv(c, s) && s' == s.(entries := s'.entries) && CacheOk(c, s')
    ensures Inv(c, s')
  {
    forall u | 0 <= u < |s'.threads| ensures ThreadOk(c, s', u) {
      assert ThreadOk(c, s, u);
    }
    forall f | 0 <= f < |s'.futures| ensures FutureOk(s', f) {
      assert FutureOk(s, f);
    }
    forall fl | fl in s'.inflight ensures FlightOk(s', fl) {
      assert FlightOk(s, fl);
    }
  }

  lemma FollowInv(c: Config, s: State, a: Action)
    requires Inv(c, s) && a.Take? && a.move.LockedLookup? && Enabled(c, s, a)
    requires Hit(s.entries, c.requests[a.t].key, s.threads[a.t].stamp).None?
    requires Flight(c.requests[a.t].key, s.threads[a.t].stamp) in s.inflight
    ensures Inv(c, Step(c, s, a))
  {
    var s' := Step(c, s, a);
    assert FlightOk(s, Flight(c.requests[a.t].key, s.threads[a.t].stamp));
    CountsMoved(s, s', a.t, s'.threads[a.t]);
    PrivateInv(c, s, s', a.t, s'.threads[a.t]);
  }

  lemma LeadInv(c: Config, s: State, a: Action)
    requires Inv(c, s) && a.Take? && a.move.LockedLookup? && Enabled(c, s, a)
    requires Hit(s.entries, c.requests[a.t].key, s.threads[a.t].stamp).None?
    requires Flight(c.requests[a.t].key, s.threads[a.t].stamp) !in s.inflight
    ensures Inv(c, Step(c, s, a))
  {
    var s' := Step(c, s, a);
    assert ThreadOk(c, s, a.t);
    CountsMoved(s, s', a.t, s'.threads[a.t]);
    forall u | 0 <= u < |s'.threads| ensures ThreadOk(c, s', u) {
      assert ThreadOk(c, s, u);
    }
    forall f | 0 <= f < |s'.futures| ensures FutureOk(s', f) {
      if f < |s.futures| {
        assert FutureOk(s, f);
      }
    }
    forall fl | fl in s'.inflight ensures FlightOk(s', fl) {
      if fl in s.inflight {
        assert FlightOk(s, fl);
      }
    }
  }

  /** Dropping a flight: no other thread is registered under it. */
  lemma UnregisterInv(c: Config, s: State, s': State, t: nat, outcome: Outcome)
    requires Inv(c, s) && t < |s.threads| && Registered(s.threads[t])
    requires var th := s.threads[t];
      && s'.threads == s.threads[t := Resolving(th.stamp, th.fut, outcome)]
      && s'.inflight == s.inflight - {Flight(c.requests[t].key, th.stamp)}
      && OutcomeFresh(outcome, Flight(c.requests[t].key, th.stamp))
    requires s'.futures == s.futures && s'.versions == s.versions
    requires CacheOk(c, s') && CountsOk(s')
    ensures Inv(c, s')
  {
    assert ThreadOk(c, s, t);
    forall u | 0 <= u < |s'.threads| ensures ThreadOk(c, s', u) {
      assert ThreadOk(c, s, u);
    }
    forall f | 0 <= f < |s'.futures| ensures FutureOk(s', f) {
      assert FutureOk(s, f);
    }
    forall fl | fl in s'.inflight ensures FlightOk(s', fl) {
      assert FlightOk(s, fl);
    }
  }

  lemma PublishInv(c: Config, s: State, a: Action)
    requires Inv(c, s) && a.Take? && a.move.Publish? && Enabled(c, s, a)
    ensures Inv(c, Step(c, s, a))
  {
    var s', pc := Step(c, s, a), s.threads[a.t];
    assert ThreadOk(c, s, a.t);
    StoreKeepsBudget(s.entries, c.requests[a.t].key, pc.stamp, pc.doc, c.lim);
    CountsMoved(s, s', a.t, s'.threads[a.t]);
    UnregisterInv(c, s, s', a.t, Value(pc.doc));
  }

  lemma AbandonInv(c: Config, s: State, a: Action)
    requires Inv(c, s) && a.Take? && a.move.Abandon? && Enabled(c, s, a)
    ensures Inv(c, Step(c, s, a))
  {
    var s' := Step(c, s, a);
    CountsMoved(s, s', a.t, s'.threads[a.t]);
    UnregisterInv(c, s, s', a.t, Raised(s.threads[a.t].error));
  }

  lemma ResolveKeepsThread(c: Config, s: State, a: Action, u: nat)
    requires Inv(c, s) && a.Take? && a.move.Resolve? && Enabled(c, s, a) && u < |s.threads|
    ensures ThreadOk(c, Step(c, s, a), u)
  {
    assert ThreadOk(c, s, a.t) && ThreadOk(c, s, u);
  }

  lemma ResolveKeepsFuture(c: Config, s: State, a: Action, f: nat)
    requires Inv(c, s) && a.Take? && a.move.Resolve? && Enabled(c, s, a) && f < |s.futures|
    ensures FutureOk(Step(c, s, a), f)
  {
    assert ThreadOk(c, s, a.t) && FutureOk(s, f);
  }

  lemma ResolveKeepsFlight(c: Config, s: State, a: Action, fl: Flight)
    requires Inv(c, s) && a.Take? && a.move.Resolve? && Enabled(c, s, a) && fl in s.inflight
    ensures FlightOk(Step(c, s, a), fl)
  {
    assert ThreadOk(c, s, a.t) && FlightOk(s, fl);
  }

  lemma ResolveInv(c: Config, s: State, a: Action)
    requires Inv(c, s) && a.Take? && a.move.Resolve? && Enabled(c, s, a)
    ensures Inv(c, Step(c, s, a))
  {
    var s' := Step(c, s, a);
    CountsMoved(s, s', a.t, s'.threads[a.t]);
    forall u | 0 <= u < |s'.threads| ensures ThreadOk(c, s', u) {
      ResolveKeepsThread(c, s, a, u);
    }
    forall f | 0 <= f < |s'.futures| ensures FutureOk(s', f) {
      ResolveKeepsFuture(c, s, a, f);
    }
    forall fl | fl in s'.inflight ensures FlightOk(s', fl) {
      ResolveKeepsFlight(c, s, a, fl);
    }
  }

  lemma StepInv(c: Config, s: State, a: Action)
    requires Inv(c, s) && Enabled(c, s, a)
    ensures Inv(c, Step(c, s, a))
  {
    if a.Refresh? {
      RefreshInv(c, s, a);
    } else if a.move.LockedLookup? {
      var key, stamp := c.requests[a.t].key, s.threads[a.t].stamp;
      if Hit(s.entries, key, stamp).Some? {
        HitInv(c, s, a);
      } else if Flight(key, stamp) in s.inflight {
        FollowInv(c, s, a);
      } else {
        LeadInv(c, s, a);
      }
    } else if a.move.Publish? {
      PublishInv(c, s, a);
    } else if a.move.Abandon? {
      AbandonInv(c, s, a);
    } else if a.move.Resolve? {
      ResolveInv(c, s, a);
    } else {
      PrivateStepInv(c, s, a);
    }
  }

  /** The invariant holds after every run of every interleaving. */
  lemma {:induction false} RunInv(c: Config, s: State, actions: seq<Action>)
    requires Inv(c, s) && Run(c, s, actions)
    ensures Inv(c, After(c, s, actions))
    decreases |actions|
  {
    if actions != [] {
      StepInv(c, s, actions[0]);
      RunInv(c, Step(c, s, actions[0]), actions[1..]);
    }
  }

  // ---- what every run guarantees

  ghost predicate Reachable(c: Config, versions: map<Source, Stamp>, actions: seq<Action>) {
    c.Legal() && Run(c, Initial(c, versions), actions)
  }

  ghost function Reached(c: Config, versions: map<Source, Stamp>, actions: seq<Action>): State
    requires Reachable(c, versions, actions)
  {
    After(c, Initial(c, versions), actions)
  }

  lemma ReachedInv(c: Config, versions: map<Source, Stamp>, actions: seq<Action>)
    requires Reachable(c, versions, actions)
    ensures Inv(c, Reached(c, versions, actions))
  {
    InitialInv(c, versions);
    RunInv(c, Initial(c, versions), actions);
  }

  /** Single flight: no two threads are ever building the same key at the same stamp. */
  lemma OneBuilder(c: Config, versions: map<Source, Stamp>, actions: seq<Action>, t: nat, u: nat)
    requires Reachable(c, versions, actions)
    requires var s := Reached(c, versions, actions);
      && t < |s.threads| && u < |s.threads| && t < |c.requests| && u < |c.requests|
      && Registered(s.threads[t]) && Registered(s.threads[u])
      && c.requests[t].key == c.requests[u].key && s.threads[t].stamp == s.threads[u].stamp
    ensures t == u
  {
    var s := Reached(c, versions, actions);
    ReachedInv(c, versions, actions);
    assert ThreadOk(c, s, t) && ThreadOk(c, s, u);
  }

  /** How a producer still running ends. */
  datatype Product = Made(body: string) | Broke(error: string)

  /** The leader's own remaining steps, ending with its Future resolved. */
  function Finish(th: Thread, t: nat, end: Product): seq<Action>
    requires Leading(th)
  {
    match th
    case Building(_, _) =>
      (match end
       case Made(body) => [Take(t, Produce(body)), Take(t, Publish), Take(t, Resolve)]
       case Broke(error) => [Take(t, Fail(error)), Take(t, Abandon), Take(t, Resolve)])
    case Built(_, _, _) => [Take(t, Publish), Take(t, Resolve)]
    case Failing(_, _, _) => [Take(t, Abandon), Take(t, Resolve)]
    case Resolving(_, _, _) => [Take(t, Resolve)]
  }

  /** What it is resolved with. */
  function Ending(c: Config, s: State, t: nat, end: Product): Outcome
    requires t < |s.threads| && t < |c.requests| && Leading(s.threads[t])
  {
    match s.threads[t]
    case Building(_, _) => if end.Made? then Value(Produced(c, s, t, end.body)) else Raised(end.error)
    case Built(_, _, doc) => Value(doc)
    case Failing(_, _, error) => Raised(error)
    case Resolving(_, _, outcome) => outcome
  }

  /** An unresolved Future has a live leader, which no other thread can hold up:
      however its producer ends, its own next steps are enabled and resolve the Future
      with the document or the exception. */
  lemma {:induction false} LeaderLives(c: Config, versions: map<Source, Stamp>, actions: seq<Action>, f: nat,
                                       end: Product)
    requires Reachable(c, versions, actions)
    requires f < |Reached(c, versions, actions).futures|
    requires Reached(c, versions, actions).futures[f].result.None?
    ensures var s := Reached(c, versions, actions);
      && s.futures[f].leader < |s.threads| == |c.requests|
      && var t := s.futures[f].leader;
         && Leading(s.threads[t]) && s.threads[t].fut == f
         && Run(c, s, Finish(s.threads[t], t, end))
         && var s' := After(c, s, Finish(s.threads[t], t, end));
            f < |s'.futures| && s'.futures[f].result == Some(Ending(c, s, t, end))
  {
    var s := Reached(c, versions, actions);
    ReachedInv(c, versions, actions);
    assert FutureOk(s, f);
    LeaderFinishes(c, s, s.futures[f].leader, end);
  }

  /** A leader's next step short of resolving keeps its Future and its ending. */
  lemma LeaderAdvances(c: Config, s: State, t: nat, end: Product)
    requires Inv(c, s) && t < |s.threads| && Leading(s.threads[t]) && !s.threads[t].Resolving?
    ensures var a := Finish(s.threads[t], t, end)[0];
      && Enabled(c, s, a)
      && var s' := Step(c, s, a);
         && t < |s'.threads| == |c.requests| && Leading(s'.threads[t]) && !s'.threads[t].Building?
         && s'.threads[t].fut == s.threads[t].fut
         && Finish(s.threads[t], t, end)[1..] == Finish(s'.threads[t], t, end)
         && Ending(c, s', t, end) == Ending(c, s, t, end)
  {
    assert ThreadOk(c, s, t);
  }

  lemma {:induction false} LeaderResolves(c: Config, s: State, t: nat, end: Product)
    requires Inv(c, s) && t < |s.threads| && s.threads[t].Resolving?
    ensures Run(c, s, Finish(s.threads[t], t, end))
    ensures var f, s' := s.threads[t].fut, After(c, s, Finish(s.threads[t], t, end));
      f < |s'.futures| && s'.futures[f].result == Some(s.threads[t].outcome)
  {
    assert ThreadOk(c, s, t);
    assert Finish(s.threads[t], t, end)[1..] == [];
  }

  lemma {:induction false} LeaderFinishes(c: Config, s: State, t: nat, end: Product)
    requires Inv(c, s) && t < |s.threads| && Leading(s.threads[t])
    ensures Run(c, s, Finish(s.threads[t], t, end))
    ensures var f, s' := s.threads[t].fut, After(c, s, Finish(s.threads[t], t, end));
      f < |s'.futures| && s'.futures[f].result == Some(Ending(c, s, t, end))
    decreases match s.threads[t] { case Building(_, _) => 2 case Resolving(_, _, _) => 0 case _ => 1 }
  {
    if s.threads[t].Resolving? {
      LeaderResolves(c, s, t, end);
    } else {
      var a := Finish(s.threads[t], t, end)[0];
      LeaderAdvances(c, s, t, end);
      StepInv(c, s, a);
      LeaderFinishes(c, Step(c, s, a), t, end);
    }
  }

  /** A Future is resolved at most once: a resolution is final in every run, and
      no step resolves a Future that has one. */
  lemma {:induction false} ResolvedOnce(c: Config, s: State, actions: seq<Action>, f: nat)
    requires Inv(c, s) && Run(c, s, actions)
    requires f < |s.futures| && s.futures[f].result.Some?
    ensures f < |After(c, s, actions).futures| && After(c, s, actions).futures[f] == s.futures[f]
    ensures actions != [] && actions[0].Take? && actions[0].move.Resolve? ==> s.threads[actions[0].t].fut != f
    decreases |actions|
  {
    if actions != [] {
      var a := actions[0];
      if a.Take? {
        assert ThreadOk(c, s, a.t);
      }
      StepInv(c, s, a);
      ResolvedOnce(c, Step(c, s, a), actions[1..], f);
    }
  }

  /** Everyone on a flight gets its one outcome, value or exception. */
  lemma SharedOutcome(c: Config, versions: map<Source, Stamp>, actions: seq<Action>, t: nat, u: nat)
    requires Reachable(c, versions, actions)
    requires var s := Reached(c, versions, actions);
      && t < |s.threads| && u < |s.threads| && s.threads[t].Done? && s.threads[u].Done?
      && s.threads[t].how.Led? && s.threads[u].how.Followed? && s.threads[t].how.fut == s.threads[u].how.fut
    ensures var s := Reached(c, versions, actions);
      && s.threads[u].outcome == s.threads[t].outcome
      && s.threads[u].how.stamp == s.threads[t].how.stamp
      && |c.requests| == |s.threads| && c.requests[u].key == c.requests[t].key
  {
    var s := Reached(c, versions, actions);
    ReachedInv(c, versions, actions);
    assert ThreadOk(c, s, t) && ThreadOk(c, s, u);
  }

  /** A failed leader leaves no flight behind: the next request for the key at that
      stamp is answered from the cache or leads a new flight. */
  lemma FailedFlightIsGone(c: Config, s: State, t: nat, u: nat)
    requires Inv(c, s) && Enabled(c, s, Take(t, Abandon))
    requires u != t && Enabled(c, s, Take(u, LockedLookup))
    requires c.requests[u].key == c.requests[t].key && s.threads[u].stamp == s.threads[t].stamp
    ensures var s' := Step(c, s, Take(t, Abandon));
      && Flight(c.requests[t].key, s.threads[t].stamp) !in s'.inflight
      && Enabled(c, s', Take(u, LockedLookup))
      && var th := Step(c, s', Take(u, LockedLookup)).threads[u];
         (th.Done? && th.how.FromCache?) || (th.Building? && th.fut == |s.futures|)
  {
  }

  // ---- freshness

  /** The thread knows of, and was answered from, nothing older than `v`. */
  predicate HoldsNoOlder(th: Thread, v: Stamp) {
    match th
    case Arrived => true
    case Direct => true
    case Done(how, o) => if how.Bypassed? then o.Value? ==> o.doc.version >= v else how.stamp >= v
    case _ => th.stamp >= v
  }

  ghost predicate NoOlder(c: Config, s: State, t: nat, v: Stamp)
    requires t < |c.requests|
  {
    t < |s.threads| && StampOk(c, s, t, v) && HoldsNoOlder(s.threads[t], v)
  }

  lemma LookupKeepsOthers(c: Config, s: State, t: nat)
    requires t < |s.threads| && t < |c.requests| && s.threads[t].Stamped?
    ensures Lookup(c, s, t).threads == s.threads[t := Lookup(c, s, t).threads[t]]
    ensures Lookup(c, s, t).versions == s.versions
    ensures var th := Lookup(c, s, t).threads[t];
      || (th.Done? && th.how == FromCache(s.threads[t].stamp))
      || ((th.Joined? || th.Building?) && th.stamp == s.threads[t].stamp)
  {
  }

  lemma OwnStepNoOlder(c: Config, s: State, t: nat, move: Move, v: Stamp)
    requires Enabled(c, s, Take(t, move)) && NoOlder(c, s, t, v)
    ensures HoldsNoOlder(Step(c, s, Take(t, move)).threads[t], v)
  {
    if move.LockedLookup? {
      LookupKeepsOthers(c, s, t);
    }
  }

  lemma StepKeepsOthers(c: Config, s: State, a: Action)
    requires Enabled(c, s, a)
    ensures |Step(c, s, a).threads| == |s.threads|
    ensures forall u :: 0 <= u < |s.threads| && !(a.Take? && a.t == u) ==> Step(c, s, a).threads[u] == s.threads[u]
    ensures a.Take? ==> Step(c, s, a).threads == s.threads[a.t := Step(c, s, a).threads[a.t]]
    ensures a.Take? ==> Step(c, s, a).versions == s.versions
  {
    if a.Take? {
      if a.move.LockedLookup? {
        LookupKeepsOthers(c, s, a.t);
      }
    }
  }

  lemma NoOlderStep(c: Config, s: State, a: Action, t: nat, v: Stamp)
    requires Enabled(c, s, a) && t < |c.requests| && NoOlder(c, s, t, v)
    ensures NoOlder(c, Step(c, s, a), t, v)
  {
    StepKeepsOthers(c, s, a);
    if a.Take? && a.t == t {
      OwnStepNoOlder(c, s, t, a.move, v);
    }
  }

  lemma {:induction false} NoOlderRun(c: Config, s: State, actions: seq<Action>, t: nat, v: Stamp)
    requires Inv(c, s) && Run(c, s, actions) && t < |c.requests| && NoOlder(c, s, t, v)
    ensures NoOlder(c, After(c, s, actions), t, v)
    decreases |actions|
  {
    if actions != [] {
      NoOlderStep(c, s, actions[0], t, v);
      StepInv(c, s, actions[0]);
      NoOlderRun(c, Step(c, s, actions[0]), actions[1..], t, v);
    }
  }

  /** Never stale: whatever refreshes, evictions and slow leaders come between, a
      request is answered with its own key's document, built from data at least
      as new as the data was when the request arrived. */
  lemma {:induction false} NeverStale(c: Config, versions: map<Source, Stamp>, before: seq<Action>,
                                      during: seq<Action>, t: nat)
    requires Reachable(c, versions, before) && Run(c, Reached(c, versions, before), during)
    requires t < |c.requests| && t < |Reached(c, versions, before).threads|
    requires Reached(c, versions, before).threads[t] == Arrived
    requires c.requests[t].source in Reached(c, versions, before).versions
    ensures var s, s' := Reached(c, versions, before), After(c, Reached(c, versions, before), during);
      && |s'.threads| == |c.requests|
      && (s'.threads[t].Done? && s'.threads[t].outcome.Value? ==>
            && s'.threads[t].outcome.doc.key == c.requests[t].key
            && s'.threads[t].outcome.doc.version >= s.versions[c.requests[t].source])
  {
    var s := Reached(c, versions, before);
    ReachedInv(c, versions, before);
    NoOlderRun(c, s, during, t, s.versions[c.requests[t].source]);
    RunInv(c, s, during);
    assert ThreadOk(c, After(c, s, during), t);
  }

  // ---- who goes past the cache

  /** What `_refresh_stamp` returns for thread `t`'s request. */
  function StampOf(c: Config, s: State, t: nat): Option<Stamp>
    requires t < |c.requests|
  {
    var source := c.requests[t].source;
    if source in s.versions then Some(s.versions[source]) else None
  }

  /** The stamp thread `t` read in a run, if it has read one. */
  ghost function StampRead(c: Config, s: State, actions: seq<Action>, t: nat): Option<Option<Stamp>>
    requires Run(c, s, actions) && t < |c.requests|
    decreases |actions|
  {
    if actions == [] then None
    else if actions[0] == Take(t, ReadStamp) then Some(StampOf(c, s, t))
    else StampRead(c, Step(c, s, actions[0]), actions[1..], t)
  }

  /** Outside the cache: no lookup, no flight, nothing stored. */
  predicate PastCache(th: Thread) {
    th.Direct? || (th.Done? && th.how.Bypassed?)
  }

  /** In the cache at `stamp`: answered from an entry, leading or following. */
  predicate InCache(th: Thread, stamp: Stamp) {
    match th
    case Arrived => false
    case Direct => false
    case Done(how, _) => !how.Bypassed? && how.stamp == stamp
    case _ => th.stamp == stamp
  }

  /** Where a request that read `read` belongs. */
  predicate Placed(r: Request, th: Thread, read: Option<Option<Stamp>>) {
    match read
    case None => th.Arrived?
    case Some(stamp) => if r.store && stamp.Some? then InCache(th, stamp.value) else PastCache(th)
  }

  lemma OwnStepPlaced(c: Config, s: State, t: nat, move: Move, read: Option<Option<Stamp>>)
    requires Enabled(c, s, Take(t, move)) && Placed(c.requests[t], s.threads[t], read)
    ensures Placed(c.requests[t], Step(c, s, Take(t, move)).threads[t],
                   if move.ReadStamp? then Some(StampOf(c, s, t)) else read)
  {
    if move.LockedLookup? {
      LookupKeepsOthers(c, s, t);
    }
  }

  lemma {:induction false} PlacedRun(c: Config, s: State, actions: seq<Action>, t: nat, read: Option<Option<Stamp>>)
    requires Run(c, s, actions) && t < |s.threads| && t < |c.requests|
    requires Placed(c.requests[t], s.threads[t], read)
    ensures var s', later := After(c, s, actions), StampRead(c, s, actions, t);
      && |s'.threads| == |s.threads|
      && (read.None? || later.None?)
      && Placed(c.requests[t], s'.threads[t], if read.None? then later else read)
    decreases |actions|
  {
    if actions != [] {
      var a := actions[0];
      StepKeepsOthers(c, s, a);
      if a.Take? && a.t == t {
        OwnStepPlaced(c, s, t, a.move, read);
        PlacedRun(c, Step(c, s, a), actions[1..], t, if a.move.ReadStamp? then Some(StampOf(c, s, t)) else read);
      } else {
        PlacedRun(c, Step(c, s, a), actions[1..], t, read);
      }
    }
  }

  /** Who goes past the cache, in every run: exactly the requests that ask to (`store`
      false) or whose source had no stamp when they read it. Every other request is
      served in the cache at the stamp it read. */
  lemma {:induction false} PastCacheIff(c: Config, versions: map<Source, Stamp>, actions: seq<Action>, t: nat)
    requires Reachable(c, versions, actions) && t < |c.requests|
    ensures var s, read := Reached(c, versions, actions), StampRead(c, Initial(c, versions), actions, t);
      && |s.threads| == |c.requests|
      && (read.None? <==> s.threads[t].Arrived?)
      && (PastCache(s.threads[t]) <==> read.Some? && (!c.requests[t].store || read.value.None?))
      && (read.Some? && c.requests[t].store && read.value.Some? ==> InCache(s.threads[t], read.value.value))
      && (!c.requests[t].store ==> s.threads[t].Arrived? || PastCache(s.threads[t]))
  {
    PlacedRun(c, Initial(c, versions), actions, t, None);
  }

  /** A request with `store` false touches nothing the others share: no step of its
      thread changes the entries, the counters, the flights or the Futures. */
  lemma UnstoredTouchesNothing(c: Config, versions: map<Source, Stamp>, actions: seq<Action>, t: nat, move: Move)
    requires Reachable(c, versions, actions) && Enabled(c, Reached(c, versions, actions), Take(t, move))
    requires !c.requests[t].store
    ensures var s, s' := Reached(c, versions, actions), Step(c, Reached(c, versions, actions), Take(t, move));
      && t < |s.threads| && s' == s.(threads := s.threads[t := s'.threads[t]])
  {
    PastCacheIff(c, versions, actions, t);
  }

  // ---- what the threads do to the cache

  /** What one step does to the cache. */
  ghost function OpOf(c: Config, s: State, a: Action): seq<Op>
    requires Enabled(c, s, a)
  {
    if a.Take? && a.move.LockedLookup? then [Read(c.requests[a.t].key, s.threads[a.t].stamp)]
    else if a.Take? && a.move.Publish? then [Write(c.requests[a.t].key, s.threads[a.t].stamp, s.threads[a.t].doc)]
    else []
  }

  ghost function Ops(c: Config, s: State, actions: seq<Action>): seq<Op>
    requires Run(c, s, actions)
    decreases |actions|
  {
    if actions == [] then [] else OpOf(c, s, actions[0]) + Ops(c, Step(c, s, actions[0]), actions[1..])
  }

  lemma StepApplies(c: Config, s: State, a: Action)
    requires Enabled(c, s, a)
    ensures var op := OpOf(c, s, a);
      |op| <= 1 && Step(c, s, a).entries == if op == [] then s.entries else Apply(s.entries, op[0], c.lim)
  {
    hide Stored, Touched, Hit, Keys;
  }

  lemma {:induction false} ReplayMore(past: seq<Op>, op: Op, lim: Limits)
    ensures Replay(past + [op], lim) == Apply(Replay(past, lim), op, lim)
  {
    hide Apply;
    assert (past + [op])[..|past|] == past;
  }

  lemma {:induction false} StepIsOp(c: Config, s: State, a: Action, past: seq<Op>)
    requires Enabled(c, s, a) && s.entries == Replay(past, c.lim)
    ensures Step(c, s, a).entries == Replay(past + OpOf(c, s, a), c.lim)
  {
    hide Step, Apply, Replay, OpOf;
    StepApplies(c, s, a);
    if OpOf(c, s, a) == [] {
      assert past + [] == past;
    } else {
      assert OpOf(c, s, a) == [OpOf(c, s, a)[0]];
      ReplayMore(past, OpOf(c, s, a)[0], c.lim);
    }
  }

  lemma {:induction false} EntriesAreReplay(c: Config, s: State, actions: seq<Action>, past: seq<Op>)
    requires Run(c, s, actions) && s.entries == Replay(past, c.lim)
    ensures After(c, s, actions).entries == Replay(past + Ops(c, s, actions), c.lim)
    decreases |actions|
  {
    hide Step, Replay;
    if actions == [] {
      assert past + [] == past;
    } else {
      var a := actions[0];
      StepIsOp(c, s, a, past);
      EntriesAreReplay(c, Step(c, s, a), actions[1..], past + OpOf(c, s, a));
      assert past + (OpOf(c, s, a) + Ops(c, Step(c, s, a), actions[1..]))
          == (past + OpOf(c, s, a)) + Ops(c, Step(c, s, a), actions[1..]);
    }
  }

  /** However the threads interleave, the cache is what its lookups and stores, in the
      order the lock admitted them, make of an empty one: its keys stand in the order of
      their last use, and each finds the last document published for it. */
  lemma {:induction false} CacheIsReplay(c: Config, versions: map<Source, Stamp>, actions: seq<Action>, key: Key)
    requires Reachable(c, versions, actions)
    ensures var es, ops := Reached(c, versions, actions).entries, Ops(c, Initial(c, versions), actions);
      && es == Replay(ops, c.lim)
      && InUseOrder(Keys(es), ops, c.lim)
      && (key in Keys(es) ==> Find(es, key) == LastWrite(ops, key))
  {
    hide Step, Replay, InUseOrder, Keys, Find, LastWrite;
    var ops := Ops(c, Initial(c, versions), actions);
    ReplayEmpty(c.lim);
    EntriesAreReplay(c, Initial(c, versions), actions, []);
    assert [] + ops == ops;
    CacheInvariant(ops, c.lim);
    AnswersAreLastWrites(ops, c.lim, key, 0);
  }

  lemma {:induction false} ReplayEmpty(lim: Limits)
    ensures Replay([], lim) == []
  {
  }

  /** A published document that fits answers the next request for its key at its stamp,
      which leads nothing and waits for no one. */
  lemma PublishedIsServed(c: Config, s: State, t: nat, u: nat)
    requires c.Legal() && Enabled(c, s, Take(t, Publish)) && Enabled(c, s, Take(u, LockedLookup))
    requires c.requests[u].key == c.requests[t].key && s.threads[u].stamp == s.threads[t].stamp
    requires s.threads[t].doc.Size() <= c.lim.bytes
    ensures var s' := Step(c, s, Take(t, Publish));
      && Enabled(c, s', Take(u, LockedLookup))
      && var s'' := Step(c, s', Take(u, LockedLookup));
         && s''.threads[u] == Done(FromCache(s.threads[t].stamp), Value(s.threads[t].doc))
         && s''.hits == s.hits + 1 && s''.futures == s.futures
  {
    hide Stored, Touched, Hit, Keys;
    var pc := s.threads[t];
    StoredIsServed(s.entries, c.requests[t].key, pc.stamp, pc.doc, c.lim, pc.stamp);
  }

  // ---- progress

  /** How many more steps a request can take. */
  function Remaining(th: Thread): nat {
    match th
    case Arrived => 5
    case Stamped(_) => 4
    case Building(_, _) => 3
    case Built(_, _, _) => 2
    case Failing(_, _, _) => 2
    case Joined(_, _) => 2
    case Direct => 1
    case Resolving(_, _, _) => 1
    case Waiting(_, _) => 1
    case Done(_, _) => 0
  }

  function TotalRemaining(ths: seq<Thread>): nat {
    if ths == [] then 0 else Remaining(ths[0]) + TotalRemaining(ths[1..])
  }

  function Takes(actions: seq<Action>): nat {
    if actions == [] then 0 else (if actions[0].Take? then 1 else 0) + Takes(actions[1..])
  }

  lemma {:induction false} TotalMoved(ths: seq<Thread>, t: nat, pc: Thread)
    requires t < |ths|
    ensures TotalRemaining(ths[t := pc]) == TotalRemaining(ths) - Remaining(ths[t]) + Remaining(pc)
  {
    if t > 0 {
      TotalMoved(ths[1..], t - 1, pc);
      assert ths[t := pc][1..] == ths[1..][t - 1 := pc];
    } else {
      assert ths[t := pc][1..] == ths[1..];
    }
  }

  lemma OwnStepShortens(c: Config, s: State, t: nat, move: Move)
    requires Enabled(c, s, Take(t, move))
    ensures Remaining(Step(c, s, Take(t, move)).threads[t]) < Remaining(s.threads[t])
  {
    hide Stored, Touched, Hit, Keys;
    var s' := Step(c, s, Take(t, move));
    if move.LockedLookup? {
      LookupKeepsOthers(c, s, t);
      assert s' == Lookup(c, s, t);
    } else if move.Publish? {
      assert s' == Published(c, s, t);
    } else {
      assert s'.threads[t] != s.threads[t];
    }
  }

  lemma {:induction false} BoundedRun(c: Config, s: State, actions: seq<Action>)
    requires Run(c, s, actions)
    ensures Takes(actions) + TotalRemaining(After(c, s, actions).threads) <= TotalRemaining(s.threads)
    decreases |actions|
  {
    if actions != [] {
      var a, s' := actions[0], Step(c, s, actions[0]);
      StepKeepsOthers(c, s, a);
      if a.Take? {
        OwnStepShortens(c, s, a.t, a.move);
        TotalMoved(s.threads, a.t, s'.threads[a.t]);
      }
      BoundedRun(c, s', actions[1..]);
    }
  }

  lemma {:induction false} AllArrived(ths: seq<Thread>)
    requires forall t :: 0 <= t < |ths| ==> ths[t] == Arrived
    ensures TotalRemaining(ths) == 5 * |ths|
  {
    if ths != [] {
      AllArrived(ths[1..]);
    }
  }

  /** The step thread `t` can take by itself, other than waiting. */
  function NextMove(th: Thread): Move {
    match th
    case Arrived => ReadStamp
    case Direct => DirectReturn("")
    case Stamped(_) => LockedLookup
    case Building(_, _) => Produce("")
    case Built(_, _, _) => Publish
    case Failing(_, _, _) => Abandon
    case Resolving(_, _, _) => Resolve
    case Joined(_, _) => CountHit
    case Waiting(_, _) => Receive
    case Done(_, _) => TimeOut
  }

  /** Every request is answered: a run contains at most five steps per request, and
      while one is unanswered some thread can move without a wait timing out. */
  lemma EveryRequestAnswered(c: Config, versions: map<Source, Stamp>, actions: seq<Action>) returns (t: nat)
    requires Reachable(c, versions, actions)
    ensures Takes(actions) <= 5 * |c.requests|
    ensures var s := Reached(c, versions, actions);
      || (forall u :: 0 <= u < |s.threads| ==> s.threads[u].Done?)
      || (t < |s.threads| && !NextMove(s.threads[t]).TimeOut? && Enabled(c, s, Take(t, NextMove(s.threads[t]))))
  {
    var s := Reached(c, versions, actions);
    ReachedInv(c, versions, actions);
    BoundedRun(c, Initial(c, versions), actions);
    AllArrived(Initial(c, versions).threads);
    t := 0;
    if u :| 0 <= u < |s.threads| && !s.threads[u].Done? {
      t := CanMove(c, s, u);
    }
  }

  lemma CanMove(c: Config, s: State, u: nat) returns (t: nat)
    requires Inv(c, s) && u < |s.threads| && !s.threads[u].Done?
    ensures t < |s.threads| && !NextMove(s.threads[t]).TimeOut? && Enabled(c, s, Take(t, NextMove(s.threads[t])))
  {
    assert ThreadOk(c, s, u);
    t := u;
    if s.threads[u].Waiting? && s.futures[s.threads[u].fut].result.None? {
      assert FutureOk(s, s.threads[u].fut);
      t := s.futures[s.threads[u].fut].leader;
      assert ThreadOk(c, s, t);
    }
  }

  // ---- accounting

  predicate CountedNowhere(th: Thread) {
    th.Done? && (th.how.Bypassed? || (th.how.Led? && th.outcome.Raised?))
  }

  lemma {:induction false} CountsPartition(ths: seq<Thread>)
    requires forall t :: 0 <= t < |ths| ==> ths[t].Done?
    ensures Count(ths, CountedHit) + Count(ths, CountedMiss) + Count(ths, CountedNowhere) == |ths|
  {
    if ths != [] {
      CountsPartition(ths[1..]);
    }
  }

  /** Both budgets hold throughout, and once all are answered `hits` and `misses`
      account for every request but the failed leaders and those that went past
      the cache. */
  lemma StatsExact(c: Config, versions: map<Source, Stamp>, actions: seq<Action>)
    requires Reachable(c, versions, actions)
    ensures var s := Reached(c, versions, actions);
      && |s.entries| <= c.lim.entries && Bytes(s.entries) <= c.lim.bytes
      && ((forall t :: 0 <= t < |s.threads| ==> s.threads[t].Done?) ==>
            s.hits + s.misses + Count(s.threads, CountedNowhere) == |c.requests|)
  {
    var s := Reached(c, versions, actions);
    ReachedInv(c, versions, actions);
    if forall t :: 0 <= t < |s.threads| ==> s.threads[t].Done? {
      CountsPartition(s.threads);
    }
  }
}
