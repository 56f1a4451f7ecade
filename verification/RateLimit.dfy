/** The token buckets of safety/api/ratelimit.py: one bucket per (client, zone) in
    a table that forgets the least recently used keys. */
module RateLimit {
  import opened Wrappers
  import opened Recency

  datatype Zone = CellsZone | DirectionsZone | GeocodeZone | ApiZone {
    function Rate(): (r: real)
      ensures r > 0.0
    {
      match this
      case CellsZone => 2.0
      case DirectionsZone => 0.5
      case GeocodeZone => 3.0
      case ApiZone => 10.0
    }

    function Capacity(): (n: nat)
      ensures n >= 1
    {
      match this
      case CellsZone => 10
      case DirectionsZone => 6
      case GeocodeZone => 10
      case ApiZone => 20
    }
  }

  datatype Key = Key(client: string, zone: Zone)

  // Tokens as they stood at time `last`, in seconds.
  datatype Bucket = Bucket(tokens: real, last: real)

  datatype Slot = Slot(key: Key, bucket: Bucket)

  function Min(a: real, b: real): real { if a <= b then a else b }

  /** What a bucket accrues in `d` seconds. */
  function Accrued(z: Zone, d: real): real { d * z.Rate() }

  lemma AccruedIs(z: Zone, d: real)
    ensures Accrued(z, d) == d * z.Rate()
  {
  }

  lemma AccruedAdds(z: Zone, a: real, b: real)
    ensures Accrued(z, a + b) == Accrued(z, a) + Accrued(z, b)
    ensures Accrued(z, 0.0) == 0.0
    ensures a >= 0.0 ==> Accrued(z, a) >= 0.0
  {
    if a >= 0.0 {
      assert a * z.Rate() >= 0.0;
    }
  }

  /** The tokens a bucket holds at `now`. */
  function Refilled(z: Zone, b: Bucket, now: real): real {
    Min(z.Capacity() as real, b.tokens + Accrued(z, now - b.last))
  }

  /** The bucket after one request at `now`. */
  function Taken(z: Zone, b: Bucket, now: real): Bucket {
    var tokens := Refilled(z, b, now);
    Bucket(if tokens >= 1.0 then tokens - 1.0 else tokens, now)
  }

  /** Seconds until the next token; zero when there is a whole one to take. */
  function Wait(z: Zone, b: Bucket, now: real): (wait: real)
    ensures wait >= 0.0
    ensures wait == 0.0 <==> Refilled(z, b, now) >= 1.0
  {
    var tokens := Refilled(z, b, now);
    if tokens >= 1.0 then 0.0 else (1.0 - tokens) / z.Rate()
  }

  /** Whether the middleware serves a request: `_consume` returned no wait. */
  predicate Admits(z: Zone, b: Bucket, now: real) { Wait(z, b, now) == 0.0 }

  function Fresh(z: Zone, now: real): Bucket { Bucket(z.Capacity() as real, now) }

  predicate Sane(z: Zone, b: Bucket) { 0.0 <= b.tokens <= z.Capacity() as real }

  // ---- one bucket: refusals are free, waits are exact

  /** Refilling in two steps is refilling once, so a refusal changes nothing later. */
  lemma RefillsCompose(z: Zone, b: Bucket, now: real, later: real)
    requires b.last <= now <= later
    ensures Refilled(z, Bucket(Refilled(z, b, now), now), later) == Refilled(z, b, later)
  {
    AccruedAdds(z, now - b.last, later - now);
    AccruedAdds(z, later - now, 0.0);
    assert (now - b.last) + (later - now) == later - b.last;
  }

  predicate Rising(times: seq<real>) {
    forall i, j :: 0 <= i < j < |times| ==> times[i] <= times[j]
  }

  /** The bucket after requests at `times`. */
  function AfterAll(z: Zone, b: Bucket, times: seq<real>): Bucket
    decreases |times|
  {
    if times == [] then b else AfterAll(z, Taken(z, b, times[0]), times[1..])
  }

  /** The times at which those requests are admitted. */
  function AdmittedTimes(z: Zone, b: Bucket, times: seq<real>): seq<real>
    decreases |times|
  {
    if times == [] then []
    else (if Admits(z, b, times[0]) then [times[0]] else []) + AdmittedTimes(z, Taken(z, b, times[0]), times[1..])
  }

  /** No one can tell the two buckets apart from `now` on. */
  ghost predicate SameFrom(z: Zone, a: Bucket, b: Bucket, now: real) {
    a.last <= now && b.last <= now && forall t {:trigger Refilled(z, a, t)} :: t >= now ==>
      Refilled(z, a, t) == Refilled(z, b, t)
  }

  lemma {:induction false} SameAdmissions(z: Zone, a: Bucket, b: Bucket, now: real, times: seq<real>)
    requires SameFrom(z, a, b, now) && Rising(times) && (times == [] || now <= times[0])
    ensures AdmittedTimes(z, a, times) == AdmittedTimes(z, b, times)
  {
    if times != [] {
      assert Refilled(z, a, times[0]) == Refilled(z, b, times[0]);
      assert Taken(z, a, times[0]) == Taken(z, b, times[0]);
    }
  }

  lemma RefusalSame(z: Zone, b: Bucket, now: real)
    requires b.last <= now && !Admits(z, b, now)
    ensures SameFrom(z, Taken(z, b, now), b, now)
  {
    forall t | t >= now ensures Refilled(z, Taken(z, b, now), t) == Refilled(z, b, t) {
      RefillsCompose(z, b, now, t);
    }
  }

  lemma {:induction false} RefusalsFreeStep(z: Zone, b: Bucket, refused: seq<real>, now: real)
    requires Rising(refused) && AdmittedTimes(z, b, refused) == []
    requires b.last <= now && (refused == [] || (b.last <= refused[0] && refused[|refused| - 1] <= now))
    ensures SameFrom(z, AfterAll(z, b, refused), b, now)
    decreases |refused|
  {
    if refused != [] {
      var t := refused[0];
      RefusalSame(z, b, t);
      assert refused[|refused| - 1] == if |refused| == 1 then t else refused[1..][|refused| - 2];
      RefusalsFreeStep(z, Taken(z, b, t), refused[1..], now);
    }
  }

  /** Refused requests are free: however many there were, later requests are
      admitted exactly as if they had never been made. */
  lemma {:induction false} RefusalsAreFree(z: Zone, b: Bucket, refused: seq<real>, later: seq<real>)
    requires Rising(refused + later) && (refused == [] || b.last <= refused[0])
    requires later == [] || b.last <= later[0]
    requires AdmittedTimes(z, b, refused) == []
    ensures AdmittedTimes(z, AfterAll(z, b, refused), later) == AdmittedTimes(z, b, later)
  {
    if later != [] {
      forall i, j | 0 <= i < j < |refused| ensures refused[i] <= refused[j] {
        assert (refused + later)[i] <= (refused + later)[j];
      }
      forall i, j | 0 <= i < j < |later| ensures later[i] <= later[j] {
        assert (refused + later)[|refused| + i] <= (refused + later)[|refused| + j];
      }
      if refused != [] {
        assert (refused + later)[|refused| - 1] <= (refused + later)[|refused|];
      }
      RefusalsFreeStep(z, b, refused, later[0]);
      SameAdmissions(z, AfterAll(z, b, refused), b, later[0], later);
    }
  }

  /** The wait quoted on a refusal at `now` is exact: as long as nothing else is
      admitted, a retry is refused before now + wait and admitted from then on. */
  lemma {:induction false} WaitIsExact(z: Zone, b: Bucket, now: real, retries: seq<real>, t: real)
    requires Sane(z, b) && b.last <= now && !Admits(z, b, now)
    requires Rising([now] + retries + [t]) && AdmittedTimes(z, b, [now] + retries) == []
    ensures Admits(z, AfterAll(z, b, [now] + retries), t) <==> t >= now + Wait(z, b, now)
  {
    var refused := [now] + retries;
    forall i, j | 0 <= i < j < |refused| ensures refused[i] <= refused[j] {
      assert (refused + [t])[i] <= (refused + [t])[j];
    }
    assert (refused + [t])[|refused| - 1] <= (refused + [t])[|refused|]
        && (refused + [t])[0] <= (refused + [t])[|refused|];
    RefusalsFreeStep(z, b, refused, t);
    assert Refilled(z, AfterAll(z, b, refused), t) == Refilled(z, b, t);
    RefillsCompose(z, b, now, t);
    AdmittedWhenWaited(z, Refilled(z, b, now), now, t);
  }

  lemma AdmittedWhenWaited(z: Zone, tokens: real, now: real, t: real)
    requires tokens < 1.0 && now <= t
    ensures tokens + Accrued(z, t - now) >= 1.0 <==> t >= now + (1.0 - tokens) / z.Rate()
  {
    var w, r := (1.0 - tokens) / z.Rate(), z.Rate();
    assert Accrued(z, w) == 1.0 - tokens;
    AccruedAdds(z, t - now - w, w);
    if t - now < w {
      assert (w - (t - now)) * r > 0.0;
    }
  }

  function Ceil(x: real): int { -((-x).Floor) }

  function RetryAfter(wait: real): int {
    if Ceil(wait) > 1 then Ceil(wait) else 1
  }

  /** The Retry-After header is the least positive whole number of seconds after
      which a client that stays quiet is admitted. */
  lemma RetryAfterLeast(z: Zone, b: Bucket, now: real, seconds: int)
    requires Sane(z, b) && b.last <= now && !Admits(z, b, now) && seconds >= 1
    ensures Admits(z, Taken(z, b, now), now + seconds as real) <==> seconds >= RetryAfter(Wait(z, b, now))
  {
    assert AfterAll(z, b, [now] + []) == AfterAll(z, Taken(z, b, now), []);
    WaitIsExact(z, b, now, [], now + seconds as real);
    assert [now] + [] == [now];
  }

  // ---- the table

  function SlotKeys(table: seq<Slot>): (r: seq<Key>)
    ensures |r| == |table| && forall i :: 0 <= i < |r| ==> r[i] == table[i].key
  {
    if table == [] then [] else [table[0].key] + SlotKeys(table[1..])
  }

  /** `_buckets.get(key, (capacity, now))`. */
  function Get(table: seq<Slot>, key: Key, now: real): Bucket {
    if table == [] then Fresh(key.zone, now)
    else if table[0].key == key then table[0].bucket
    else Get(table[1..], key, now)
  }

  function Without(table: seq<Slot>, key: Key): (r: seq<Slot>)
    ensures SlotKeys(r) == Remove(SlotKeys(table), key)
  {
    if table == [] then []
    else if table[0].key == key then Without(table[1..], key)
    else [table[0]] + Without(table[1..], key)
  }

  datatype Call = Call(key: Key, now: real)

  /** The table after a request, before the oldest keys are forgotten. */
  function Full(table: seq<Slot>, c: Call): seq<Slot> {
    Without(table, c.key) + [Slot(c.key, Taken(c.key.zone, Get(table, c.key, c.now), c.now))]
  }

  /** The table after one request: its key last, the oldest beyond `max` forgotten. */
  function Consumed(table: seq<Slot>, max: nat, c: Call): seq<Slot> {
    Suffix(Full(table, c), max)
  }

  function WaitOf(table: seq<Slot>, c: Call): real {
    Wait(c.key.zone, Get(table, c.key, c.now), c.now)
  }

  /** The table after a history of requests. */
  function Table(calls: seq<Call>, max: nat): seq<Slot> {
    if calls == [] then [] else Consumed(Table(calls[..|calls| - 1], max), max, calls[|calls| - 1])
  }

  predicate Admitted(calls: seq<Call>, max: nat, i: nat)
    requires i < |calls|
  {
    Admits(calls[i].key.zone, Get(Table(calls[..i], max), calls[i].key, calls[i].now), calls[i].now)
  }

  predicate InTime(calls: seq<Call>) {
    forall i, j :: 0 <= i < j < |calls| ==> calls[i].now <= calls[j].now
  }

  class Limiter {
    const max: nat
    var buckets: seq<Slot>

    constructor (max: nat)
      ensures buckets == [] && this.max == max
    {
      this.max := max;
      buckets := [];
    }

    /** `_consume`, at the time `now` the clock shows. */
    method Consume(key: Key, now: real) returns (wait: real)
      requires Distinct(SlotKeys(buckets)) && |buckets| <= max
      modifies this`buckets
      ensures buckets == Consumed(old(buckets), max, Call(key, now))
      ensures wait == WaitOf(old(buckets), Call(key, now))
      ensures wait >= 0.0 && (wait == 0.0 <==> Credit(old(buckets), key, now) >= 1.0)
      ensures max >= 1 ==>
        Credit(buckets, key, now) == Credit(old(buckets), key, now) - if wait == 0.0 then 1.0 else 0.0
      ensures Distinct(SlotKeys(buckets)) && |buckets| <= max
    {
      hide Get, Without, Taken, Wait, SlotKeys, Distinct, Suffix, Refilled;
      ConsumedKeeps(buckets, max, Call(key, now));
      if max >= 1 {
        SpendsOne(buckets, max, Call(key, now));
      }
      var after;
      after, wait := Spend(key.zone, Get(buckets, key, now), now);
      buckets := Without(buckets, key) + [Slot(key, after)];
      ForgetOldest();
    }

    /** Its arithmetic. */
    static method Spend(z: Zone, b: Bucket, now: real) returns (after: Bucket, wait: real)
      ensures after == Taken(z, b, now) && wait == Wait(z, b, now)
    {
      var tokens := Min(z.Capacity() as real, b.tokens + (now - b.last) * z.Rate());
      assert tokens == Refilled(z, b, now);
      if tokens >= 1.0 {
        after := Bucket(tokens - 1.0, now);
        wait := 0.0;
      } else {
        after := Bucket(tokens, now);
        wait := (1.0 - tokens) / z.Rate();
      }
    }

    /** The loop that keeps the table within its bound. */
    method ForgetOldest()
      modifies this`buckets
      ensures buckets == Suffix(old(buckets), max)
    {
      ghost var full := buckets;
      while |buckets| > max
        invariant Suffix(buckets, max) == Suffix(full, max)
      {
        buckets := buckets[1..];
      }
    }
  }

  // ---- what the table remembers

  function KeysOf(calls: seq<Call>): (r: seq<Key>)
    ensures |r| == |calls| && forall i :: 0 <= i < |r| ==> r[i] == calls[i].key
  {
    if calls == [] then [] else KeysOf(calls[..|calls| - 1]) + [calls[|calls| - 1].key]
  }

  lemma {:induction false} SlotKeysConcat(a: seq<Slot>, b: seq<Slot>)
    ensures SlotKeys(a + b) == SlotKeys(a) + SlotKeys(b)
  {
  }

  lemma {:induction false} SlotKeysSuffix(table: seq<Slot>, n: nat)
    ensures SlotKeys(Suffix(table, n)) == Suffix(SlotKeys(table), n)
  {
  }

  /** The table holds the `max` most recently used keys, in that order. */
  lemma {:induction false} TableKeys(calls: seq<Call>, max: nat)
    ensures SlotKeys(Table(calls, max)) == Suffix(Order(KeysOf(calls)), max)
  {
    if calls != [] {
      var before, c := calls[..|calls| - 1], calls[|calls| - 1];
      TableKeys(before, max);
      assert KeysOf(calls)[..|calls| - 1] == KeysOf(before);
      var order := Order(KeysOf(before));
      OrderDistinct(KeysOf(before));
      TouchSuffix(order, max, c.key);
      var t := Table(before, max);
      var slot := Slot(c.key, Taken(c.key.zone, Get(t, c.key, c.now), c.now));
      SlotKeysConcat(Without(t, c.key), [slot]);
      assert SlotKeys([slot]) == [c.key];
      SlotKeysSuffix(Without(t, c.key) + [slot], max);
    }
  }

  /** A key that was used is forgotten exactly when `max` distinct other keys have
      been used since. */
  lemma {:induction false} RememberedIff(calls: seq<Call>, max: nat, key: Key)
    requires key in KeysOf(calls)
    ensures key in SlotKeys(Table(calls, max)) <==> |UsedSince(KeysOf(calls), key)| < max
  {
    TableKeys(calls, max);
    RetainedIff(KeysOf(calls), max, key);
  }

  lemma {:induction false} TableDistinct(calls: seq<Call>, max: nat)
    ensures Distinct(SlotKeys(Table(calls, max))) && |Table(calls, max)| <= max
  {
    TableKeys(calls, max);
    OrderDistinct(KeysOf(calls));
  }

  // ---- the rate, over whole runs

  lemma {:induction false} GetConcat(a: seq<Slot>, b: seq<Slot>, key: Key, now: real)
    ensures Get(a + b, key, now) == if key in SlotKeys(a) then Get(a, key, now) else Get(b, key, now)
  {
    if a == [] {
      assert a + b == b;
    } else {
      assert (a + b)[1..] == a[1..] + b;
      GetConcat(a[1..], b, key, now);
    }
  }

  lemma {:induction false} GetWithout(table: seq<Slot>, key: Key, other: Key, now: real)
    requires key != other
    ensures Get(Without(table, other), key, now) == Get(table, key, now)
  {
    if table != [] {
      GetWithout(table[1..], key, other, now);
    }
  }

  lemma {:induction false} GetAbsent(table: seq<Slot>, key: Key, now: real)
    requires key !in SlotKeys(table)
    ensures Get(table, key, now) == Fresh(key.zone, now)
  {
    if table != [] {
      GetAbsent(table[1..], key, now);
    }
  }

  lemma {:induction false} GetDrop(table: seq<Slot>, k: nat, key: Key, now: real)
    requires k <= |table| && Distinct(SlotKeys(table)) && key in SlotKeys(table[k..])
    ensures Get(table[k..], key, now) == Get(table, key, now)
  {
    if k > 0 {
      var i :| 0 <= i < |table| - k && SlotKeys(table[k..])[i] == key;
      assert table[k..][i] == table[k + i];
      assert SlotKeys(table)[0] != SlotKeys(table)[k + i];
      assert table[1..][k - 1..] == table[k..];
      assert SlotKeys(table)[1..] == SlotKeys(table[1..]);
      GetDrop(table[1..], k - 1, key, now);
    }
  }

  lemma {:induction false} FullKeys(table: seq<Slot>, c: Call)
    requires Distinct(SlotKeys(table))
    ensures SlotKeys(Full(table, c)) == Remove(SlotKeys(table), c.key) + [c.key]
    ensures Distinct(SlotKeys(Full(table, c)))
  {
    var slot := Slot(c.key, Taken(c.key.zone, Get(table, c.key, c.now), c.now));
    SlotKeysConcat(Without(table, c.key), [slot]);
    assert SlotKeys([slot]) == [c.key];
    RemoveDistinct(SlotKeys(table), c.key);
  }

  lemma SuffixDistinct(keys: seq<Key>, n: nat)
    requires Distinct(keys)
    ensures Distinct(Suffix(keys, n)) && |Suffix(keys, n)| <= n
  {
  }

  lemma {:induction false} ConsumedKeeps(table: seq<Slot>, max: nat, c: Call)
    requires Distinct(SlotKeys(table))
    ensures Distinct(SlotKeys(Consumed(table, max, c))) && |Consumed(table, max, c)| <= max
  {
    hide Full, SlotKeys, Distinct;
    FullKeys(table, c);
    SuffixDistinct(SlotKeys(Full(table, c)), max);
    SlotKeysSuffix(Full(table, c), max);
  }

  lemma {:induction false} FullGet(table: seq<Slot>, c: Call, key: Key, now: real)
    ensures key == c.key ==> Get(Full(table, c), key, now) == Taken(c.key.zone, Get(table, c.key, c.now), c.now)
    ensures key != c.key ==> Get(Full(table, c), key, now) == Get(table, key, now)
  {
    var slot := Slot(c.key, Taken(c.key.zone, Get(table, c.key, c.now), c.now));
    GetConcat(Without(table, c.key), [slot], key, now);
    assert Get([slot], key, now) == if key == c.key then slot.bucket else Fresh(key.zone, now);
    if key != c.key {
      GetWithout(table, key, c.key, now);
      if key !in SlotKeys(table) {
        GetAbsent(table, key, now);
      }
    }
  }

  lemma {:induction false} GetSuffix(table: seq<Slot>, n: nat, key: Key, now: real)
    requires Distinct(SlotKeys(table)) && key in SlotKeys(Suffix(table, n))
    ensures Get(Suffix(table, n), key, now) == Get(table, key, now)
  {
    hide Get, SlotKeys;
    if |table| > n {
      GetDrop(table, |table| - n, key, now);
    }
  }

  /** A key the table still holds after a request has the bucket it had, or, if it
      made the request, that bucket less the token. */
  lemma {:induction false} ConsumedGet(table: seq<Slot>, max: nat, c: Call, key: Key, now: real)
    requires Distinct(SlotKeys(table)) && key in SlotKeys(Consumed(table, max, c))
    ensures Get(Consumed(table, max, c), key, now) ==
      if key == c.key then Taken(c.key.zone, Get(table, c.key, c.now), c.now) else Get(table, key, now)
  {
    FullKeys(table, c);
    FullGet(table, c, key, now);
    GetSuffix(Full(table, c), max, key, now);
  }

  lemma {:induction false} ConsumedHolds(table: seq<Slot>, max: nat, c: Call, key: Key)
    requires Distinct(SlotKeys(table))
    ensures key in SlotKeys(Consumed(table, max, c)) ==> key == c.key || key in SlotKeys(table)
    ensures max >= 1 ==> c.key in SlotKeys(Consumed(table, max, c))
  {
    FullKeys(table, c);
    SlotKeysSuffix(Full(table, c), max);
    SuffixEnds(Remove(SlotKeys(table), c.key), c.key, max);
  }

  lemma SuffixEnds(keys: seq<Key>, last: Key, n: nat)
    ensures n >= 1 ==> last in Suffix(keys + [last], n)
    ensures forall k :: k in Suffix(keys + [last], n) ==> k in keys || k == last
  {
    if n >= 1 {
      var r := Suffix(keys + [last], n);
      assert r[|r| - 1] == last;
    }
  }

  /** What `key` has to spend at `now`; all of it when the table does not know it. */
  function Credit(table: seq<Slot>, key: Key, now: real): real {
    Refilled(key.zone, Get(table, key, now), now)
  }

  ghost predicate TableSane(table: seq<Slot>, now: real) {
    forall i :: 0 <= i < |table| ==> Sane(table[i].key.zone, table[i].bucket) && table[i].bucket.last <= now
  }

  lemma {:induction false} GetSane(table: seq<Slot>, key: Key, now: real)
    requires TableSane(table, now)
    ensures Sane(key.zone, Get(table, key, now)) && Get(table, key, now).last <= now
  {
    if table != [] {
      GetSane(table[1..], key, now);
    }
  }

  lemma TakenSane(z: Zone, b: Bucket, now: real)
    requires Sane(z, b) && b.last <= now
    ensures Sane(z, Taken(z, b, now)) && Taken(z, b, now).last == now
        && 0.0 <= Refilled(z, b, now) <= z.Capacity() as real
    ensures Refilled(z, Taken(z, b, now), now) == Refilled(z, b, now) - if Admits(z, b, now) then 1.0 else 0.0
  {
    AccruedAdds(z, now - b.last, 0.0);
    assert Accrued(z, now - now) == 0.0;
  }

  lemma TakenAtOnce(z: Zone, b: Bucket, now: real)
    ensures Refilled(z, Taken(z, b, now), now) == Refilled(z, b, now) - if Wait(z, b, now) == 0.0 then 1.0 else 0.0
  {
    assert Accrued(z, now - now) == 0.0;
  }

  /** A request that is told not to wait spends exactly one token of its key; one that
      is told to wait spends none. */
  lemma {:induction false} SpendsOne(table: seq<Slot>, max: nat, c: Call)
    requires max >= 1 && Distinct(SlotKeys(table))
    ensures Credit(Consumed(table, max, c), c.key, c.now)
      == Credit(table, c.key, c.now) - if WaitOf(table, c) == 0.0 then 1.0 else 0.0
  {
    hide Get, SlotKeys, Distinct, Consumed, Refilled, Taken, Wait;
    ConsumedHolds(table, max, c, c.key);
    ConsumedGet(table, max, c, c.key, c.now);
    TakenAtOnce(c.key.zone, Get(table, c.key, c.now), c.now);
  }

  lemma FreshCredit(z: Zone, now: real)
    ensures Refilled(z, Fresh(z, now), now) == z.Capacity() as real
  {
    AccruedAdds(z, 0.0, 0.0);
  }

  lemma {:induction false} WithoutSane(table: seq<Slot>, key: Key, now: real)
    requires TableSane(table, now)
    ensures TableSane(Without(table, key), now)
  {
    if table != [] {
      assert forall i :: 0 <= i < |table| - 1 ==> table[1..][i] == table[i + 1];
      WithoutSane(table[1..], key, now);
    }
  }

  lemma FullSane(table: seq<Slot>, max: nat, c: Call)
    requires TableSane(table, c.now)
    ensures TableSane(Consumed(table, max, c), c.now)
  {
    GetSane(table, c.key, c.now);
    TakenSane(c.key.zone, Get(table, c.key, c.now), c.now);
    WithoutSane(table, c.key, c.now);
    assert TableSane(Full(table, c), c.now);
  }

  lemma {:induction false} TableStaysSane(calls: seq<Call>, max: nat, now: real)
    requires InTime(calls) && (calls == [] || calls[|calls| - 1].now <= now)
    ensures TableSane(Table(calls, max), now)
  {
    if calls != [] {
      TableStaysSane(calls[..|calls| - 1], max, calls[|calls| - 1].now);
      FullSane(Table(calls[..|calls| - 1], max), max, calls[|calls| - 1]);
    }
  }

  /** Requests of `key` served, that is told to wait 0.0, among the last of a history, from
      index `from`. */
  function AdmittedSince(calls: seq<Call>, max: nat, key: Key, from: nat): nat {
    if |calls| <= from then 0
    else
      var n := |calls| - 1;
      AdmittedSince(calls[..n], max, key, from) + if calls[n].key == key && Admitted(calls, max, n) then 1 else 0
  }

  /** A full bucket when a request made the table forget the key. */
  function Forgiven(table: seq<Slot>, table': seq<Slot>, key: Key): real {
    if key in SlotKeys(table) && key !in SlotKeys(table') then key.zone.Capacity() as real else 0.0
  }

  /** A full bucket for each request, from index `from`, that made the table forget `key`. */
  function ForgivenSince(calls: seq<Call>, max: nat, key: Key, from: nat): real {
    if |calls| <= from then 0.0
    else
      var before := calls[..|calls| - 1];
      ForgivenSince(before, max, key, from) + Forgiven(Table(before, max), Table(calls, max), key)
  }

  lemma CreditGrows(table: seq<Slot>, key: Key, now: real, later: real)
    requires now <= later && TableSane(table, now)
    ensures Credit(table, key, later) <= Credit(table, key, now) + Accrued(key.zone, later - now)
  {
    hide Refilled, Get, SlotKeys, Accrued;
    AccruedAdds(key.zone, later - now, 0.0);
    if key in SlotKeys(table) {
      GetAt(table, key, now, later);
      RefilledGrows(key.zone, Get(table, key, now), now, later);
    } else {
      GetAbsent(table, key, now);
      GetAbsent(table, key, later);
      FreshCredit(key.zone, now);
      FreshCredit(key.zone, later);
    }
  }

  lemma RefilledGrows(z: Zone, b: Bucket, now: real, later: real)
    requires now <= later
    ensures Refilled(z, b, later) <= Refilled(z, b, now) + Accrued(z, later - now)
  {
    AccruedAdds(z, later - now, now - b.last);
    assert (later - now) + (now - b.last) == later - b.last;
  }

  lemma {:induction false} GetAt(table: seq<Slot>, key: Key, now: real, later: real)
    requires key in SlotKeys(table)
    ensures Get(table, key, now) == Get(table, key, later)
  {
    if table[0].key != key {
      GetAt(table[1..], key, now, later);
    }
  }

  /** One request moves the credit of `key` by at most the token it was granted and,
      if it made the table forget `key`, one full bucket. */
  lemma {:induction false} CreditSpent(table: seq<Slot>, max: nat, c: Call, key: Key)
    requires max >= 1 && Distinct(SlotKeys(table)) && TableSane(table, c.now)
    ensures Credit(Consumed(table, max, c), key, c.now) <= Credit(table, key, c.now)
      - (if c.key == key && Admits(key.zone, Get(table, key, c.now), c.now) then 1.0 else 0.0)
      + Forgiven(table, Consumed(table, max, c), key)
  {
    GetSane(table, key, c.now);
    TakenSane(key.zone, Get(table, key, c.now), c.now);
    ConsumedHolds(table, max, c, key);
    if key in SlotKeys(Consumed(table, max, c)) {
      ConsumedGet(table, max, c, key, c.now);
    } else {
      GetAbsent(Consumed(table, max, c), key, c.now);
      FreshCredit(key.zone, c.now);
      if key !in SlotKeys(table) {
        GetAbsent(table, key, c.now);
      }
    }
  }

  /** What one request does in every reachable table: the wait is zero iff its key has a
      whole token, which it then spends, and positive otherwise, when it spends none. No
      other key's credit moves, now or later, unless the table forgets that key. */
  lemma {:induction false} ConsumeSpends(calls: seq<Call>, max: nat, c: Call, other: Key, later: real)
    requires max >= 1
    ensures var t, t' := Table(calls, max), Table(calls + [c], max);
      && WaitOf(t, c) >= 0.0
      && (WaitOf(t, c) == 0.0 <==> Credit(t, c.key, c.now) >= 1.0)
      && Credit(t', c.key, c.now) == Credit(t, c.key, c.now) - (if WaitOf(t, c) == 0.0 then 1.0 else 0.0)
      && (other != c.key && Forgiven(t, t', other) == 0.0 ==> Credit(t', other, later) == Credit(t, other, later))
  {
    hide Get, SlotKeys, Distinct, Consumed, Refilled, Taken, Wait;
    assert (calls + [c])[..|calls|] == calls;
    var t := Table(calls, max);
    TableDistinct(calls, max);
    SpendsOne(t, max, c);
    if other in SlotKeys(Consumed(t, max, c)) {
      ConsumedGet(t, max, c, other, later);
    } else if other != c.key && other !in SlotKeys(t) {
      GetAbsent(t, other, later);
      GetAbsent(Consumed(t, max, c), other, later);
    }
  }

  lemma {:induction false} LastSpent(calls: seq<Call>, max: nat, key: Key)
    requires max >= 1 && calls != [] && InTime(calls)
    ensures var n := |calls| - 1;
      Credit(Table(calls, max), key, calls[n].now) <= Credit(Table(calls[..n], max), key, calls[n].now)
        - (if calls[n].key == key && Admitted(calls, max, n) then 1.0 else 0.0)
        + Forgiven(Table(calls[..n], max), Table(calls, max), key)
  {
    var n := |calls| - 1;
    TableDistinct(calls[..n], max);
    TableStaysSane(calls[..n], max, calls[n].now);
    CreditSpent(Table(calls[..n], max), max, calls[n], key);
  }

  lemma CreditNonnegative(table: seq<Slot>, key: Key, now: real)
    requires TableSane(table, now)
    ensures Credit(table, key, now) >= 0.0
  {
    GetSane(table, key, now);
    TakenSane(key.zone, Get(table, key, now), now);
  }

  lemma FullAtMost(table: seq<Slot>, key: Key, now: real)
    ensures Credit(table, key, now) <= key.zone.Capacity() as real
  {
  }

  lemma {:induction false} CreditBalance(calls: seq<Call>, max: nat, key: Key, from: nat)
    requires max >= 1 && InTime(calls) && from < |calls|
    ensures AdmittedSince(calls, max, key, from) as real + Credit(Table(calls, max), key, calls[|calls| - 1].now)
      <= key.zone.Capacity() as real + ForgivenSince(calls, max, key, from)
         + Accrued(key.zone, calls[|calls| - 1].now - calls[from].now)
  {
    hide Credit, Table, Forgiven, Admitted, Accrued;
    var n := |calls| - 1;
    LastSpent(calls, max, key);
    if n > from {
      CreditBalance(calls[..n], max, key, from);
      TableStaysSane(calls[..n], max, calls[n - 1].now);
      CreditGrows(Table(calls[..n], max), key, calls[n - 1].now, calls[n].now);
      AccruedAdds(key.zone, calls[n - 1].now - calls[from].now, calls[n].now - calls[n - 1].now);
    } else {
      assert AdmittedSince(calls[..n], max, key, from) == 0 && ForgivenSince(calls[..n], max, key, from) == 0.0;
      FullAtMost(Table(calls[..n], max), key, calls[n].now);
      AccruedAdds(key.zone, 0.0, 0.0);
    }
  }

  /** The rate bound over a shared table, for every run: the requests of one key
      admitted in a span of it number at most one bucket, one more for each time the
      table forgot the key in the span, and the rate times the span's length. */
  lemma {:induction false} RateBound(calls: seq<Call>, max: nat, key: Key, from: nat)
    requires max >= 1 && InTime(calls) && from < |calls|
    ensures AdmittedSince(calls, max, key, from) as real
      <= key.zone.Capacity() as real + ForgivenSince(calls, max, key, from)
         + (calls[|calls| - 1].now - calls[from].now) * key.zone.Rate()
  {
    hide Credit, Table, Admitted, ForgivenSince, AdmittedSince, Accrued;
    CreditBalance(calls, max, key, from);
    AccruedIs(key.zone, calls[|calls| - 1].now - calls[from].now);
    TableStaysSane(calls, max, calls[|calls| - 1].now);
    CreditNonnegative(Table(calls, max), key, calls[|calls| - 1].now);
  }

  /** From index `from` on, fewer than `max` distinct other keys come after a request
      of `key` before its next one (or the end of the run). */
  ghost predicate NeverCrowdedOut(calls: seq<Call>, max: nat, key: Key, from: nat) {
    forall i :: from < i <= |calls| ==> |UsedSince(KeysOf(calls[..i]), key)| < max || key !in KeysOf(calls[..i])
  }

  lemma {:induction false} NotForgottenNow(calls: seq<Call>, max: nat, key: Key)
    requires calls != [] && (|UsedSince(KeysOf(calls), key)| < max || key !in KeysOf(calls))
    ensures Forgiven(Table(calls[..|calls| - 1], max), Table(calls, max), key) == 0.0
  {
    var before := calls[..|calls| - 1];
    if key in SlotKeys(Table(before, max)) {
      TableKeys(before, max);
      assert KeysOf(calls) == KeysOf(before) + [calls[|calls| - 1].key];
      var k :| 0 <= k < |KeysOf(before)| && KeysOf(before)[k] == key;
      assert KeysOf(calls)[k] == key;
      RememberedIff(calls, max, key);
    }
  }

  lemma {:induction false} NotForgotten(calls: seq<Call>, max: nat, key: Key, from: nat)
    requires NeverCrowdedOut(calls, max, key, from)
    ensures ForgivenSince(calls, max, key, from) == 0.0
  {
    if |calls| > from {
      var before := calls[..|calls| - 1];
      forall i | from < i <= |before|
        ensures |UsedSince(KeysOf(before[..i]), key)| < max || key !in KeysOf(before[..i]) {
        assert before[..i] == calls[..i];
      }
      NotForgotten(before, max, key, from);
      assert calls[..|calls|] == calls;
      NotForgottenNow(calls, max, key);
    }
  }

  /** The limit the module promises: capacity + rate * d, for a key that others do
      not crowd out of the table. */
  lemma {:induction false} RateBoundWhileRemembered(calls: seq<Call>, max: nat, key: Key, from: nat)
    requires max >= 1 && InTime(calls) && from < |calls| && NeverCrowdedOut(calls, max, key, from)
    ensures AdmittedSince(calls, max, key, from) as real
      <= key.zone.Capacity() as real + (calls[|calls| - 1].now - calls[from].now) * key.zone.Rate()
  {
    hide AdmittedSince, ForgivenSince, NeverCrowdedOut;
    RateBound(calls, max, key, from);
    NotForgotten(calls, max, key, from);
  }

  /** In figures: 10 requests at once and 2 a second for the layers, 6 and one every two
      seconds for directions, 10 and 3 for geocoding, 20 and 10 for the rest. */
  lemma {:induction false} LimitsInFigures(calls: seq<Call>, max: nat, key: Key, from: nat)
    requires max >= 1 && InTime(calls) && from < |calls| && NeverCrowdedOut(calls, max, key, from)
    ensures var n, d := AdmittedSince(calls, max, key, from) as real, calls[|calls| - 1].now - calls[from].now;
      match key.zone
      case CellsZone => n <= 10.0 + 2.0 * d
      case DirectionsZone => n <= 6.0 + d / 2.0
      case GeocodeZone => n <= 10.0 + 3.0 * d
      case ApiZone => n <= 20.0 + 10.0 * d
  {
    hide AdmittedSince, NeverCrowdedOut, InTime;
    RateBoundWhileRemembered(calls, max, key, from);
  }

  /** Once `max` distinct others have come between, the table has forgotten the key
      and it starts over with a full bucket, whatever it had spent. */
  lemma {:induction false} CrowdedOutStartsOver(calls: seq<Call>, max: nat, key: Key, now: real)
    requires key in KeysOf(calls) && |UsedSince(KeysOf(calls), key)| >= max
    ensures Credit(Table(calls, max), key, now) == key.zone.Capacity() as real
  {
    RememberedIff(calls, max, key);
    GetAbsent(Table(calls, max), key, now);
    FreshCredit(key.zone, now);
  }

  // ---- a run that exceeds the plain limit

  /** `n` more requests like `c`. */
  function Burst(calls: seq<Call>, c: Call, n: nat): seq<Call>
    decreases n
  {
    if n == 0 then calls else Burst(calls, c, n - 1) + [c]
  }

  /** A client of the same zone that is not `key`'s, another for each `n` >= 1. */
  function Stranger(key: Key, n: nat): (k: Key)
    ensures |k.client| == |key.client| + n
  {
    Key(key.client + seq(n, _ => '.'), key.zone)
  }

  /** One request each from `n` strangers. */
  function Crowd(calls: seq<Call>, key: Key, now: real, n: nat): seq<Call>
    decreases n
  {
    if n == 0 then calls else Crowd(calls, key, now, n - 1) + [Call(Stranger(key, n), now)]
  }

  predicate AtOnce(calls: seq<Call>, now: real) {
    forall i :: 0 <= i < |calls| ==> calls[i].now == now
  }

  /** What the table would give back by forgetting `key`. */
  function Held(table: seq<Slot>, key: Key): real {
    if key in SlotKeys(table) then key.zone.Capacity() as real else 0.0
  }

  lemma {:induction false} OneMore(calls: seq<Call>, max: nat, key: Key, c: Call)
    ensures var next := calls + [c];
      && Table(next, max) == Consumed(Table(calls, max), max, c)
      && KeysOf(next) == KeysOf(calls) + [c.key]
      && AdmittedSince(next, max, key, 0) == AdmittedSince(calls, max, key, 0)
           + (if c.key == key && Admits(key.zone, Get(Table(calls, max), key, c.now), c.now) then 1 else 0)
      && ForgivenSince(next, max, key, 0) == ForgivenSince(calls, max, key, 0)
           + Forgiven(Table(calls, max), Table(next, max), key)
  {
    hide Consumed, Forgiven, Get, Admits;
    assert (calls + [c])[..|calls|] == calls;
  }

  lemma {:induction false} OwnRequest(calls: seq<Call>, max: nat, key: Key, now: real)
    requires max >= 1 && AtOnce(calls, now) && Credit(Table(calls, max), key, now) >= 1.0
    ensures var next := calls + [Call(key, now)];
      && AtOnce(next, now) && key in SlotKeys(Table(next, max))
      && AdmittedSince(next, max, key, 0) == AdmittedSince(calls, max, key, 0) + 1
      && ForgivenSince(next, max, key, 0) == ForgivenSince(calls, max, key, 0)
      && Credit(Table(next, max), key, now) == Credit(Table(calls, max), key, now) - 1.0
  {
    hide Get, SlotKeys, Table, AdmittedSince, ForgivenSince, KeysOf, Consumed, Accrued;
    var t, c := Table(calls, max), Call(key, now);
    OneMore(calls, max, key, c);
    TableDistinct(calls, max);
    ConsumedHolds(t, max, c, key);
    ConsumedGet(t, max, c, key, now);
    TableStaysSane(calls, max, now);
    GetSane(t, key, now);
    TakenSane(key.zone, Get(t, key, now), now);
  }

  lemma {:induction false} StrangersRequest(calls: seq<Call>, max: nat, key: Key, c: Call)
    requires max >= 1 && AtOnce(calls, c.now) && c.key != key
    ensures var next := calls + [c];
      && AtOnce(next, c.now)
      && AdmittedSince(next, max, key, 0) == AdmittedSince(calls, max, key, 0)
      && ForgivenSince(next, max, key, 0) + Held(Table(next, max), key)
           == ForgivenSince(calls, max, key, 0) + Held(Table(calls, max), key)
  {
    hide Get, SlotKeys, Table, AdmittedSince, ForgivenSince, KeysOf, Consumed;
    OneMore(calls, max, key, c);
    TableDistinct(calls, max);
    ConsumedHolds(Table(calls, max), max, c, key);
  }

  lemma {:induction false} BurstSpends(calls: seq<Call>, max: nat, key: Key, now: real, n: nat)
    requires max >= 1 && AtOnce(calls, now) && n as real <= Credit(Table(calls, max), key, now)
    ensures var next := Burst(calls, Call(key, now), n);
      && AtOnce(next, now) && |next| == |calls| + n && calls <= next
      && (n > 0 ==> key in SlotKeys(Table(next, max)) && next[|next| - 1].key == key)
      && AdmittedSince(next, max, key, 0) == AdmittedSince(calls, max, key, 0) + n
      && ForgivenSince(next, max, key, 0) == ForgivenSince(calls, max, key, 0)
      && Credit(Table(next, max), key, now) == Credit(Table(calls, max), key, now) - n as real
    decreases n
  {
    hide SlotKeys, Table, AdmittedSince, ForgivenSince, Credit;
    if n > 0 {
      BurstSpends(calls, max, key, now, n - 1);
      OwnRequest(Burst(calls, Call(key, now), n - 1), max, key, now);
    }
  }

  lemma {:induction false} CrowdPushes(calls: seq<Call>, max: nat, key: Key, now: real, n: nat)
    requires max >= 1 && AtOnce(calls, now) && calls != [] && calls[|calls| - 1].key == key
    ensures var next := Crowd(calls, key, now, n);
      && AtOnce(next, now) && |next| == |calls| + n && calls <= next
      && AdmittedSince(next, max, key, 0) == AdmittedSince(calls, max, key, 0)
      && ForgivenSince(next, max, key, 0) + Held(Table(next, max), key)
           == ForgivenSince(calls, max, key, 0) + Held(Table(calls, max), key)
    decreases n
  {
    hide SlotKeys, Table, AdmittedSince, ForgivenSince, Held;
    if n > 0 {
      CrowdPushes(calls, max, key, now, n - 1);
      StrangersRequest(Crowd(calls, key, now, n - 1), max, key, Call(Stranger(key, n), now));
    }
  }

  lemma {:induction false} OneMoreUsed(calls: seq<Call>, c: Call, key: Key)
    requires c.key != key
    ensures UsedSince(KeysOf(calls + [c]), key) == UsedSince(KeysOf(calls), key) + {c.key}
    ensures key in KeysOf(calls) ==> key in KeysOf(calls + [c])
  {
    assert (calls + [c])[..|calls|] == calls;
    var keys := KeysOf(calls);
    assert KeysOf(calls + [c]) == keys + [c.key];
    assert (keys + [c.key])[..|keys|] == keys;
    if key in keys {
      var i :| 0 <= i < |keys| && keys[i] == key;
      assert (keys + [c.key])[i] == key;
    }
  }

  lemma {:induction false} JustUsed(calls: seq<Call>, key: Key)
    requires calls != [] && calls[|calls| - 1].key == key
    ensures UsedSince(KeysOf(calls), key) == {} && key in KeysOf(calls)
  {
    assert KeysOf(calls)[|calls| - 1] == key;
  }

  /** The strangers are all different. */
  lemma {:induction false} CrowdIsDistinct(calls: seq<Call>, key: Key, now: real, n: nat)
    requires calls != [] && calls[|calls| - 1].key == key
    ensures var used := UsedSince(KeysOf(Crowd(calls, key, now, n)), key);
      |used| == n && forall k :: k in used ==> |k.client| <= |key.client| + n
    ensures key in KeysOf(Crowd(calls, key, now, n))
    decreases n
  {
    hide UsedSince, KeysOf;
    if n == 0 {
      JustUsed(calls, key);
    } else {
      var before, c := Crowd(calls, key, now, n - 1), Call(Stranger(key, n), now);
      CrowdIsDistinct(calls, key, now, n - 1);
      OneMoreUsed(before, c, key);
      assert c.key !in UsedSince(KeysOf(before), key);
    }
  }

  /** The run: a full bucket's requests, as many strangers as the table holds, and a
      full bucket's requests again. */
  function Exceeding(max: nat, key: Key, now: real): seq<Call> {
    var first := Burst([], Call(key, now), key.zone.Capacity());
    Burst(Crowd(first, key, now, max), Call(key, now), key.zone.Capacity())
  }

  /** Without its condition RateBoundWhileRemembered fails, in every zone and for every
      size of the table: in no time at all one client is admitted twice its burst. The
      general bound is then met exactly, with the table forgetting the key once. */
  lemma {:induction false} TwiceTheBurst(max: nat, key: Key, now: real)
    requires max >= 1
    ensures var calls := Exceeding(max, key, now);
      && InTime(calls) && |calls| == 2 * key.zone.Capacity() + max
      && calls[|calls| - 1].now - calls[0].now == 0.0
      && AdmittedSince(calls, max, key, 0) == 2 * key.zone.Capacity()
      && AdmittedSince(calls, max, key, 0) as real > key.zone.Capacity() as real
      && AdmittedSince(calls, max, key, 0) as real
           == key.zone.Capacity() as real + ForgivenSince(calls, max, key, 0)
  {
    hide Burst, Crowd, Credit, Held, Forgiven, Accrued, KeysOf, UsedSince, Table, SlotKeys, AdmittedSince,
      ForgivenSince;
    var cap := key.zone.Capacity();
    NothingSpent(max, key, now);
    BurstSpends([], max, key, now, cap);
    var first := Burst([], Call(key, now), cap);
    HeldIs(Table(first, max), key);
    CrowdPushes(first, max, key, now, max);
    CrowdIsDistinct(first, key, now, max);
    var second := Crowd(first, key, now, max);
    RememberedIff(second, max, key);
    HeldIs(Table(second, max), key);
    CrowdedOutStartsOver(second, max, key, now);
    BurstSpends(second, max, key, now, cap);
  }

  lemma {:induction false} HeldIs(table: seq<Slot>, key: Key)
    ensures Held(table, key) == if key in SlotKeys(table) then key.zone.Capacity() as real else 0.0
  {
  }

  lemma {:induction false} NothingSpent(max: nat, key: Key, now: real)
    ensures Credit(Table([], max), key, now) == key.zone.Capacity() as real
    ensures AdmittedSince([], max, key, 0) == 0 && ForgivenSince([], max, key, 0) == 0.0
  {
    FreshCredit(key.zone, now);
  }

  // ---- a client that keeps to the rate

  predicate Spaced(calls: seq<Call>, key: Key) {
    forall i, j :: 0 <= i < j < |calls| && calls[i].key == key && calls[j].key == key
      ==> calls[j].now - calls[i].now >= 1.0 / key.zone.Rate()
  }

  lemma {:induction false} BucketIsLastUse(calls: seq<Call>, max: nat, key: Key)
    requires key in SlotKeys(Table(calls, max))
    ensures exists i :: 0 <= i < |calls| && calls[i].key == key && Get(Table(calls, max), key, 0.0).last == calls[i].now
  {
    hide Get, Consumed, Order, Suffix;
    assert calls != [];
    var n := |calls| - 1;
    TableDistinct(calls[..n], max);
    ConsumedGet(Table(calls[..n], max), max, calls[n], key, 0.0);
    if calls[n].key != key {
      ConsumedHolds(Table(calls[..n], max), max, calls[n], key);
      BucketIsLastUse(calls[..n], max, key);
      var i :| 0 <= i < n && calls[..n][i].key == key
        && Get(Table(calls[..n], max), key, 0.0).last == calls[..n][i].now;
      assert calls[i].key == key;
    }
  }

  lemma SpacedAdmits(z: Zone, b: Bucket, now: real)
    requires Sane(z, b) && now - b.last >= 1.0 / z.Rate()
    ensures Admits(z, b, now)
  {
    var gap := 1.0 / z.Rate();
    assert Accrued(z, gap) == 1.0;
    AccruedAdds(z, now - b.last - gap, gap);
    assert now - b.last - gap + gap == now - b.last;
  }

  /** A client whose requests are at least 1/rate apart is never refused, whatever
      the other clients do. */
  lemma SpacedNeverRefused(calls: seq<Call>, max: nat, i: nat)
    requires InTime(calls) && i < |calls| && Spaced(calls, calls[i].key)
    ensures Admitted(calls, max, i)
  {
    hide Get, SlotKeys, Table, Accrued;
    var key, now, t := calls[i].key, calls[i].now, Table(calls[..i], max);
    if key in SlotKeys(t) {
      BucketIsLastUse(calls[..i], max, key);
      var j :| 0 <= j < i && calls[..i][j].key == key && Get(t, key, 0.0).last == calls[..i][j].now;
      assert calls[j].key == key && now - calls[j].now >= 1.0 / key.zone.Rate();
      GetAt(t, key, 0.0, now);
      TableStaysSane(calls[..i], max, now);
      GetSane(t, key, now);
      SpacedAdmits(key.zone, Get(t, key, now), now);
    } else {
      GetAbsent(t, key, now);
      FreshCredit(key.zone, now);
    }
  }
}
