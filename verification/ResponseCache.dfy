/** The stamped response cache of safety/api/main.py: an OrderedDict bounded by
    entry count and by bytes, with a running byte counter. */
module ResponseCache {
  import opened Wrappers
  import opened Recency

  type Key = string
  // The city's refresh time. Later refreshes have larger stamps.
  type Stamp = nat

  /** A serialized payload. `key` and `version` record where it came from, for the
      theorems; no operation reads them. */
  datatype Document = Document(body: string, key: Key, version: Stamp) {
    function Size(): nat { |body| }
  }

  /** settings.cache_max_entries and settings.cache_max_bytes. */
  datatype Limits = Limits(entries: nat, bytes: nat)

  datatype Entry = Entry(key: Key, stamp: Stamp, doc: Document)

  function Keys(es: seq<Entry>): (r: seq<Key>)
    ensures |r| == |es| && forall i :: 0 <= i < |es| ==> r[i] == es[i].key
  {
    if es == [] then [] else [es[0].key] + Keys(es[1..])
  }

  function Bytes(es: seq<Entry>): nat {
    if es == [] then 0 else es[0].doc.Size() + Bytes(es[1..])
  }

  /** `_cache.pop(key, None)`. */
  function Without(es: seq<Entry>, key: Key): (r: seq<Entry>)
    ensures Keys(r) == Remove(Keys(es), key)
    ensures forall e :: e in r ==> e in es
  {
    if es == [] then []
    else if es[0].key == key then Without(es[1..], key)
    else [es[0]] + Without(es[1..], key)
  }

  function Find(es: seq<Entry>, key: Key): (r: Option<Entry>)
    ensures r.Some? ==> r.value in es && r.value.key == key
    ensures r.None? <==> key !in Keys(es)
  {
    if es == [] then None else if es[0].key == key then Some(es[0]) else Find(es[1..], key)
  }

  /** Pop the least recently used entries until `size` more bytes fit. */
  function Evict(es: seq<Entry>, size: nat, lim: Limits): seq<Entry> {
    if es != [] && (|es| >= lim.entries || Bytes(es) + size > lim.bytes)
    then Evict(es[1..], size, lim)
    else es
  }

  function Stored(es: seq<Entry>, key: Key, stamp: Stamp, doc: Document, lim: Limits): seq<Entry> {
    var kept := Without(es, key);
    if doc.Size() > lim.bytes then kept
    else Evict(kept, doc.Size(), lim) + [Entry(key, stamp, doc)]
  }

  /** A hit moves the entry to the most recently used end. */
  function Touched(es: seq<Entry>, e: Entry): seq<Entry> {
    Without(es, e.key) + [e]
  }

  /** The entry a request for `key` at `stamp` may be answered from. */
  function Hit(es: seq<Entry>, key: Key, stamp: Stamp): Option<Entry> {
    var e := Find(es, key);
    if e.Some? && e.value.stamp == stamp then e else None
  }

  predicate WithinBudget(es: seq<Entry>, lim: Limits) {
    |es| <= lim.entries && Bytes(es) <= lim.bytes
  }

  // ---- facts about the pieces

  lemma {:induction false} BytesConcat(a: seq<Entry>, b: seq<Entry>)
    ensures Bytes(a + b) == Bytes(a) + Bytes(b)
  {
    if a == [] {
      assert a + b == b;
    } else {
      assert (a + b)[1..] == a[1..] + b;
      BytesConcat(a[1..], b);
    }
  }

  lemma {:induction false} KeysConcat(a: seq<Entry>, b: seq<Entry>)
    ensures Keys(a + b) == Keys(a) + Keys(b)
  {
  }

  lemma {:induction false} KeysDrop(es: seq<Entry>, k: nat)
    requires k <= |es|
    ensures Keys(es[k..]) == Keys(es)[k..]
  {
  }

  /** With one entry per key, dropping the stale entry gives back its own bytes. */
  lemma {:induction false} WithoutBytes(es: seq<Entry>, key: Key)
    requires Distinct(Keys(es))
    ensures Bytes(Without(es, key)) == Bytes(es) - if Find(es, key).Some? then Find(es, key).value.doc.Size() else 0
    ensures Find(es, key).None? ==> Without(es, key) == es
  {
    if es != [] {
      KeysDrop(es, 1);
      WithoutBytes(es[1..], key);
      if es[0].key == key {
        assert key !in Keys(es)[1..];
      }
    }
  }

  predicate Fits(es: seq<Entry>, size: nat, lim: Limits) {
    |es| < lim.entries && Bytes(es) + size <= lim.bytes
  }

  /** Eviction removes a prefix of the recency order: none of the shorter prefixes
      makes room, and what is left either makes room or is empty. */
  lemma {:induction false} EvictShortestPrefix(es: seq<Entry>, size: nat, lim: Limits) returns (k: nat)
    ensures k <= |es| && Evict(es, size, lim) == es[k..]
    ensures k == |es| || Fits(es[k..], size, lim)
    ensures forall j :: 0 <= j < k ==> !Fits(es[j..], size, lim)
  {
    if es != [] && (|es| >= lim.entries || Bytes(es) + size > lim.bytes) {
      var rest := EvictShortestPrefix(es[1..], size, lim);
      k := rest + 1;
      assert es[1..][rest..] == es[k..];
      forall j | 0 <= j < k ensures !Fits(es[j..], size, lim) {
        if j > 0 {
          assert es[1..][j - 1..] == es[j..];
        }
      }
    } else {
      k := 0;
      assert es[0..] == es;
    }
  }

  /** What one store leaves: the new entry newest, behind it the untouched tail of
      the recency order, cut at the earliest place that makes room. */
  lemma StoreExact(es: seq<Entry>, key: Key, stamp: Stamp, doc: Document, lim: Limits) returns (k: nat)
    requires lim.entries >= 1
    ensures k <= |Without(es, key)|
    ensures doc.Size() > lim.bytes ==> k == 0 && Stored(es, key, stamp, doc, lim) == Without(es, key)
    ensures doc.Size() <= lim.bytes ==>
      && Stored(es, key, stamp, doc, lim) == Without(es, key)[k..] + [Entry(key, stamp, doc)]
      && Fits(Without(es, key)[k..], doc.Size(), lim)
      && forall j :: 0 <= j < k ==> !Fits(Without(es, key)[j..], doc.Size(), lim)
  {
    k := 0;
    if doc.Size() <= lim.bytes {
      k := EvictShortestPrefix(Without(es, key), doc.Size(), lim);
    }
  }

  lemma {:induction false} WithoutSmaller(es: seq<Entry>, key: Key)
    ensures |Without(es, key)| <= |es| && Bytes(Without(es, key)) <= Bytes(es)
  {
    if es != [] {
      WithoutSmaller(es[1..], key);
    }
  }

  lemma DistinctDrop(keys: seq<Key>, k: nat, key: Key)
    requires k <= |keys| && Distinct(keys) && key !in keys
    ensures Distinct(keys[k..] + [key])
  {
  }

  lemma {:induction false} StoredBytes(es: seq<Entry>, key: Key, stamp: Stamp, doc: Document, lim: Limits)
    requires doc.Size() <= lim.bytes
    ensures Bytes(Stored(es, key, stamp, doc, lim)) == Bytes(Evict(Without(es, key), doc.Size(), lim)) + doc.Size()
  {
    BytesConcat(Evict(Without(es, key), doc.Size(), lim), [Entry(key, stamp, doc)]);
  }

  lemma {:induction false} StoreKeepsBudget(es: seq<Entry>, key: Key, stamp: Stamp, doc: Document, lim: Limits)
    requires lim.entries >= 1
    requires Distinct(Keys(es)) && WithinBudget(es, lim)
    ensures var r := Stored(es, key, stamp, doc, lim);
      && Distinct(Keys(r)) && WithinBudget(r, lim)
      && forall e :: e in r ==> e == Entry(key, stamp, doc) || e in es
  {
    var kept := Without(es, key);
    RemoveDistinct(Keys(es), key);
    WithoutSmaller(es, key);
    var k := StoreExact(es, key, stamp, doc, lim);
    if doc.Size() <= lim.bytes {
      KeysDrop(kept, k);
      DistinctDrop(Keys(kept), k, key);
      BytesConcat(kept[k..], [Entry(key, stamp, doc)]);
      KeysConcat(kept[k..], [Entry(key, stamp, doc)]);
      assert Keys([Entry(key, stamp, doc)]) == [key];
    }
  }

  lemma {:induction false} TouchKeepsBudget(es: seq<Entry>, e: Entry, lim: Limits)
    requires Find(es, e.key) == Some(e)
    requires Distinct(Keys(es)) && WithinBudget(es, lim)
    ensures Distinct(Keys(Touched(es, e))) && WithinBudget(Touched(es, e), lim)
    ensures Bytes(Touched(es, e)) == Bytes(es) && |Touched(es, e)| == |es|
    ensures forall x :: x in Touched(es, e) ==> x in es
  {
    RemoveDistinct(Keys(es), e.key);
    WithoutBytes(es, e.key);
    BytesConcat(Without(es, e.key), [e]);
    KeysConcat(Without(es, e.key), [e]);
  }

  // ---- what a lookup finds

  lemma {:induction false} FindConcat(a: seq<Entry>, b: seq<Entry>, key: Key)
    ensures Find(a + b, key) == if key in Keys(a) then Find(a, key) else Find(b, key)
  {
    if a == [] {
      assert a + b == b;
    } else {
      assert (a + b)[1..] == a[1..] + b;
      FindConcat(a[1..], b, key);
    }
  }

  lemma {:induction false} FindWithout(es: seq<Entry>, key: Key, other: Key)
    requires key != other
    ensures Find(Without(es, other), key) == Find(es, key)
  {
    if es != [] {
      FindWithout(es[1..], key, other);
    }
  }

  /** Dropping a prefix of distinct keys hides some keys and changes no other. */
  lemma {:induction false} FindDrop(es: seq<Entry>, k: nat, key: Key)
    requires k <= |es| && Distinct(Keys(es)) && Find(es[k..], key).Some?
    ensures Find(es[k..], key) == Find(es, key)
  {
    hide Find, Keys;
    assert es == es[..k] + es[k..];
    KeysConcat(es[..k], es[k..]);
    FindConcat(es[..k], es[k..], key);
    NotInBoth(Keys(es[..k]), Keys(es[k..]), key);
  }

  lemma NotInBoth(a: seq<Key>, b: seq<Key>, key: Key)
    requires Distinct(a + b) && key in b
    ensures key !in a
  {
    var j :| 0 <= j < |b| && b[j] == key;
    assert (a + b)[|a| + j] == key;
    assert forall i :: 0 <= i < |a| ==> (a + b)[i] == a[i];
  }

  /** A stored value that fits is what the next lookup of its key finds, at its own stamp
      and at no other; one that does not fit leaves its key without an entry. */
  lemma StoredIsServed(es: seq<Entry>, key: Key, stamp: Stamp, doc: Document, lim: Limits, at: Stamp)
    requires lim.entries >= 1
    ensures Hit(Stored(es, key, stamp, doc, lim), key, at) ==
      if doc.Size() <= lim.bytes && at == stamp then Some(Entry(key, stamp, doc)) else None
  {
    var from := StoreExact(es, key, stamp, doc, lim);
    if doc.Size() <= lim.bytes {
      KeysDrop(Without(es, key), from);
      FindConcat(Without(es, key)[from..], [Entry(key, stamp, doc)], key);
    }
  }

  /** What any other key finds after a store is what it found before, or nothing. */
  lemma {:induction false} StoreKeepsOthers(es: seq<Entry>, key: Key, stamp: Stamp, doc: Document, lim: Limits,
                                            other: Key)
    requires lim.entries >= 1 && Distinct(Keys(es)) && other != key
    ensures var found := Find(Stored(es, key, stamp, doc, lim), other);
      found.Some? ==> found == Find(es, other)
  {
    hide Find, Keys, Distinct;
    var from := StoreExact(es, key, stamp, doc, lim);
    var kept := Without(es, key);
    FindWithout(es, other, key);
    if doc.Size() <= lim.bytes && Find(Stored(es, key, stamp, doc, lim), other).Some? {
      FindConcat(kept[from..], [Entry(key, stamp, doc)], other);
      FindSingle(Entry(key, stamp, doc), other);
      RemoveDistinct(Keys(es), key);
      FindDrop(kept, from, other);
    }
  }

  lemma {:induction false} FindSingle(e: Entry, key: Key)
    ensures Find([e], key) == if e.key == key then Some(e) else None
    ensures Keys([e]) == [e.key]
  {
  }

  /** A hit moves no answer: every key finds what it found. */
  lemma {:induction false} TouchKeepsAnswers(es: seq<Entry>, e: Entry, key: Key)
    requires Find(es, e.key) == Some(e)
    ensures Find(Touched(es, e), key) == Find(es, key)
  {
    FindConcat(Without(es, e.key), [e], key);
    if key != e.key {
      FindWithout(es, key, e.key);
    }
  }

  // ---- recency over whole histories

  /** What the lock-protected parts of `cached` do to the cache. */
  datatype Op =
    | Read(key: Key, stamp: Stamp)
    | Write(key: Key, stamp: Stamp, doc: Document)

  function Apply(es: seq<Entry>, op: Op, lim: Limits): seq<Entry> {
    match op
    case Read(key, stamp) =>
      var hit := Hit(es, key, stamp);
      if hit.Some? then Touched(es, hit.value) else es
    case Write(key, stamp, doc) => Stored(es, key, stamp, doc, lim)
  }

  function Replay(ops: seq<Op>, lim: Limits): seq<Entry> {
    if ops == [] then []
    else Apply(Replay(ops[..|ops| - 1], lim), ops[|ops| - 1], lim)
  }

  /** Whether `ops[i]` used its key: a hit, or an admitted store. */
  predicate Uses(ops: seq<Op>, i: nat, lim: Limits)
    requires i < |ops|
  {
    match ops[i]
    case Read(key, stamp) => Hit(Replay(ops[..i], lim), key, stamp).Some?
    case Write(_, _, doc) => doc.Size() <= lim.bytes
  }

  /** The index of the last operation that used `key`, or -1. */
  function LastUse(ops: seq<Op>, key: Key, lim: Limits): (r: int)
    ensures -1 <= r < |ops|
    ensures r >= 0 ==> ops[r].key == key
  {
    var n := |ops| - 1;
    if ops == [] then -1
    else if ops[n].key == key && Uses(ops, n, lim) then n
    else LastUse(ops[..n], key, lim)
  }

  function Rank(ops: seq<Op>, lim: Limits): Key -> int {
    key => LastUse(ops, key, lim)
  }

  /** Each key was used, and the keys stand in the order of their last use. */
  predicate InUseOrder(keys: seq<Key>, ops: seq<Op>, lim: Limits) {
    Rising(keys, Rank(ops, lim))
  }

  predicate Rising(keys: seq<Key>, rank: Key -> int) {
    && (forall i :: 0 <= i < |keys| ==> rank(keys[i]) >= 0)
    && forall i, j :: 0 <= i < j < |keys| ==> rank(keys[i]) < rank(keys[j])
  }

  lemma RisingDrop(keys: seq<Key>, k: nat, rank: Key -> int)
    requires k <= |keys| && Rising(keys, rank)
    ensures Rising(keys[k..], rank)
  {
  }

  lemma RisingHead(keys: seq<Key>, rank: Key -> int)
    requires Rising(keys, rank) && keys != []
    ensures Rising(keys[1..], rank) && rank(keys[0]) >= 0
    ensures forall x :: x in keys[1..] ==> rank(keys[0]) < rank(x)
  {
  }

  lemma RisingCons(k: Key, rest: seq<Key>, rank: Key -> int)
    requires Rising(rest, rank) && rank(k) >= 0 && forall x :: x in rest ==> rank(k) < rank(x)
    ensures Rising([k] + rest, rank)
  {
  }

  lemma {:induction false} RisingRemove(keys: seq<Key>, k: Key, rank: Key -> int)
    requires Rising(keys, rank)
    ensures Rising(Remove(keys, k), rank)
  {
    hide Rising;
    if keys == [] {
      assert Remove(keys, k) == keys;
    } else {
      RisingHead(keys, rank);
      RisingRemove(keys[1..], k, rank);
      if keys[0] != k {
        RisingCons(keys[0], Remove(keys[1..], k), rank);
      }
    }
  }

  /** `next` ranks `k` above all others, and those as `rank` does. */
  ghost predicate UsedLast(next: Key -> int, rank: Key -> int, k: Key) {
    next(k) >= 0 && forall x :: x != k ==> next(x) == rank(x) < next(k)
  }

  /** Using `k` last and putting it at the end keeps the order. */
  lemma RisingUse(keys: seq<Key>, k: Key, rank: Key -> int, next: Key -> int)
    requires Rising(keys, rank) && k !in keys && UsedLast(next, rank, k)
    ensures Rising(keys + [k], next)
  {
  }

  lemma RisingSame(keys: seq<Key>, rank: Key -> int, next: Key -> int)
    requires Rising(keys, rank) && forall x :: next(x) == rank(x)
    ensures Rising(keys, next)
  {
  }

  lemma {:induction false} LastUseSkips(ops: seq<Op>, k: Key, lim: Limits)
    requires ops != [] && (ops[|ops| - 1].key != k || !Uses(ops, |ops| - 1, lim))
    ensures LastUse(ops, k, lim) == LastUse(ops[..|ops| - 1], k, lim)
  {
  }

  /** An operation that uses `k` makes its rank the highest and changes no other. */
  lemma UseRank(ops: seq<Op>, k: Key, lim: Limits)
    requires ops != [] && ops[|ops| - 1].key == k && Uses(ops, |ops| - 1, lim)
    ensures UsedLast(Rank(ops, lim), Rank(ops[..|ops| - 1], lim), k)
  {
    assert LastUse(ops, k, lim) == |ops| - 1;
    forall x | x != k ensures LastUse(ops, x, lim) == LastUse(ops[..|ops| - 1], x, lim) < |ops| - 1 {
      LastUseSkips(ops, x, lim);
    }
  }

  lemma NoUseRank(ops: seq<Op>, lim: Limits)
    requires ops != [] && !Uses(ops, |ops| - 1, lim)
    ensures forall x :: Rank(ops, lim)(x) == Rank(ops[..|ops| - 1], lim)(x)
  {
    forall x ensures LastUse(ops, x, lim) == LastUse(ops[..|ops| - 1], x, lim) {
      LastUseSkips(ops, x, lim);
    }
  }

  /** Removing a key and putting it back at the end keeps the order, whatever was
      dropped from the front meanwhile. */
  lemma {:induction false} MovedLast(keys: seq<Key>, k: Key, from: nat, rank: Key -> int, next: Key -> int)
    requires Rising(keys, rank) && UsedLast(next, rank, k) && from <= |Remove(keys, k)|
    ensures Rising(Remove(keys, k)[from..] + [k], next)
  {
    hide Rising, UsedLast;
    RisingRemove(keys, k, rank);
    RisingDrop(Remove(keys, k), from, rank);
    RisingUse(Remove(keys, k)[from..], k, rank, next);
  }

  lemma {:induction false} KeysAtEnd(es: seq<Entry>, e: Entry, from: nat)
    requires from <= |Without(es, e.key)|
    ensures |Remove(Keys(es), e.key)| == |Without(es, e.key)|
    ensures Keys(Without(es, e.key)[from..] + [e]) == Remove(Keys(es), e.key)[from..] + [e.key]
  {
    KeysDrop(Without(es, e.key), from);
    KeysConcat(Without(es, e.key)[from..], [e]);
    assert Keys([e]) == [e.key];
  }

  lemma {:induction false} HitKeepsOrder(es: seq<Entry>, hit: Entry, rank: Key -> int, next: Key -> int)
    requires Rising(Keys(es), rank) && UsedLast(next, rank, hit.key)
    ensures Rising(Keys(Touched(es, hit)), next)
  {
    hide Rising, UsedLast;
    KeysAtEnd(es, hit, 0);
    MovedLast(Keys(es), hit.key, 0, rank, next);
    assert Without(es, hit.key)[0..] == Without(es, hit.key);
  }

  lemma {:induction false} StoreKeepsOrder(es: seq<Entry>, e: Entry, lim: Limits, rank: Key -> int, next: Key -> int)
    requires lim.entries >= 1 && e.doc.Size() <= lim.bytes
    requires Rising(Keys(es), rank) && UsedLast(next, rank, e.key)
    ensures Rising(Keys(Stored(es, e.key, e.stamp, e.doc, lim)), next)
  {
    hide Rising, UsedLast, Stored;
    var from := StoreExact(es, e.key, e.stamp, e.doc, lim);
    KeysAtEnd(es, e, from);
    MovedLast(Keys(es), e.key, from, rank, next);
  }

  lemma {:induction false} ReadKeepsOrder(ops: seq<Op>, lim: Limits)
    requires ops != [] && ops[|ops| - 1].Read?
    requires InUseOrder(Keys(Replay(ops[..|ops| - 1], lim)), ops[..|ops| - 1], lim)
    ensures InUseOrder(Keys(Replay(ops, lim)), ops, lim)
  {
    hide Rising, UsedLast, LastUse, Rank;
    var before, op := ops[..|ops| - 1], ops[|ops| - 1];
    var es := Replay(before, lim);
    var hit := Hit(es, op.key, op.stamp);
    if hit.Some? {
      UseRank(ops, op.key, lim);
      HitKeepsOrder(es, hit.value, Rank(before, lim), Rank(ops, lim));
    } else {
      NoUseRank(ops, lim);
      RisingSame(Keys(es), Rank(before, lim), Rank(ops, lim));
    }
  }

  lemma {:induction false} WriteKeepsOrder(ops: seq<Op>, lim: Limits)
    requires lim.entries >= 1
    requires ops != [] && ops[|ops| - 1].Write?
    requires InUseOrder(Keys(Replay(ops[..|ops| - 1], lim)), ops[..|ops| - 1], lim)
    ensures InUseOrder(Keys(Replay(ops, lim)), ops, lim)
  {
    hide Rising, UsedLast, LastUse, Rank, Evict;
    var before, op := ops[..|ops| - 1], ops[|ops| - 1];
    var es := Replay(before, lim);
    if op.doc.Size() <= lim.bytes {
      UseRank(ops, op.key, lim);
      StoreKeepsOrder(es, Entry(op.key, op.stamp, op.doc), lim, Rank(before, lim), Rank(ops, lim));
    } else {
      NoUseRank(ops, lim);
      RisingRemove(Keys(es), op.key, Rank(before, lim));
      RisingSame(Remove(Keys(es), op.key), Rank(before, lim), Rank(ops, lim));
    }
  }

  /** After any sequence of reads and stores: one entry per key, both budgets held,
      and the entries in the order in which their keys were last used. */
  lemma {:induction false} CacheInvariant(ops: seq<Op>, lim: Limits)
    requires lim.entries >= 1
    ensures var es := Replay(ops, lim);
      Distinct(Keys(es)) && |es| <= lim.entries && Bytes(es) <= lim.bytes && InUseOrder(Keys(es), ops, lim)
  {
    if ops != [] {
      var before, op := ops[..|ops| - 1], ops[|ops| - 1];
      var es := Replay(before, lim);
      CacheInvariant(before, lim);
      match op {
        case Read(key, stamp) =>
          if Hit(es, key, stamp).Some? {
            TouchKeepsBudget(es, Hit(es, key, stamp).value, lim);
          }
          ReadKeepsOrder(ops, lim);
        case Write(key, stamp, doc) =>
          StoreKeepsBudget(es, key, stamp, doc, lim);
          WriteKeepsOrder(ops, lim);
      }
    }
  }

  /** The last value offered for `key`, as an entry. */
  function LastWrite(ops: seq<Op>, key: Key): Option<Entry> {
    var n := |ops| - 1;
    if ops == [] then None
    else if ops[n].Write? && ops[n].key == key then Some(Entry(key, ops[n].stamp, ops[n].doc))
    else LastWrite(ops[..n], key)
  }

  lemma {:induction false} OpKeepsLastWrite(es: seq<Entry>, op: Op, lim: Limits, key: Key)
    requires lim.entries >= 1 && Distinct(Keys(es))
    ensures var found := Find(Apply(es, op, lim), key);
      found.Some? ==> found == if op.Write? && op.key == key then Some(Entry(key, op.stamp, op.doc)) else Find(es, key)
  {
    hide Stored, Touched, Keys, Distinct;
    match op {
      case Read(k, stamp) =>
        if Hit(es, k, stamp).Some? {
          TouchKeepsAnswers(es, Hit(es, k, stamp).value, key);
        }
      case Write(k, stamp, doc) =>
        if k == key {
          var found := Find(Stored(es, key, stamp, doc, lim), key);
          if found.Some? {
            StoredIsServed(es, key, stamp, doc, lim, found.value.stamp);
          }
        } else {
          StoreKeepsOthers(es, k, stamp, doc, lim, key);
        }
    }
  }

  /** After any sequence of reads and stores, what a lookup finds is the last value offered
      for its key, and it finds it exactly when that value is still held and is at the
      stamp it asks for. */
  lemma {:induction false} AnswersAreLastWrites(ops: seq<Op>, lim: Limits, key: Key, stamp: Stamp)
    requires lim.entries >= 1
    ensures var es := Replay(ops, lim);
      && (key in Keys(es) ==> LastWrite(ops, key).Some? && Find(es, key) == LastWrite(ops, key))
      && (Hit(es, key, stamp).Some? <==> key in Keys(es) && LastWrite(ops, key).value.stamp == stamp)
  {
    hide Distinct, Keys, Apply, WithinBudget;
    if ops != [] {
      var n := |ops| - 1;
      AnswersAreLastWrites(ops[..n], lim, key, stamp);
      CacheInvariant(ops[..n], lim);
      OpKeepsLastWrite(Replay(ops[..n], lim), ops[n], lim, key);
    }
  }

  // ---- the module-level state and the code that updates it

  class Cache {
    const lim: Limits
    var entries: seq<Entry>
    var bytes: int
    var hits: nat
    var evictions: nat

    ghost predicate Valid()
      reads this
    {
      && lim.entries >= 1
      && Distinct(Keys(entries)) && WithinBudget(entries, lim)
      && bytes == Bytes(entries)
    }

    constructor (lim: Limits)
      requires lim.entries >= 1
      ensures Valid() && entries == [] && this.lim == lim
      ensures bytes == 0 && hits == 0 && evictions == 0
    {
      this.lim := lim;
      entries, bytes, hits, evictions := [], 0, 0, 0;
    }

    /** The first critical section of `cached`, up to the hit. */
    method Lookup(key: Key, stamp: Stamp) returns (answer: Option<Document>)
      requires Valid()
      modifies this`entries, this`hits
      ensures Valid()
      ensures entries == Apply(old(entries), Read(key, stamp), lim)
      ensures Hit(old(entries), key, stamp).Some? ==>
        answer == Some(Hit(old(entries), key, stamp).value.doc) && hits == old(hits) + 1
      ensures Hit(old(entries), key, stamp).None? ==> answer == None && hits == old(hits)
    {
      var hit := Find(entries, key);
      if hit.Some? && hit.value.stamp == stamp {
        TouchKeepsBudget(entries, hit.value, lim);
        entries := Without(entries, key) + [hit.value];
        hits := hits + 1;
        return Some(hit.value.doc);
      }
      return None;
    }

    /** `_store`. The byte counter is exact and each pop is counted once. */
    method Store(key: Key, stamp: Stamp, value: Document)
      requires Valid()
      modifies this`entries, this`bytes, this`evictions
      ensures Valid()
      ensures entries == Stored(old(entries), key, stamp, value, lim)
      ensures var admitted := if value.Size() <= lim.bytes then 1 else 0;
        evictions == old(evictions) + |Without(old(entries), key)| + admitted - |entries|
    {
      hide Evict, Bytes, Keys, Find, Without, Distinct, WithinBudget;
      StoreKeepsBudget(entries, key, stamp, value, lim);
      if value.Size() <= lim.bytes {
        StoredBytes(entries, key, stamp, value, lim);
      }
      WithoutBytes(entries, key);
      var stale := Find(entries, key);
      entries := Without(entries, key);
      if stale.Some? {
        bytes := bytes - stale.value.doc.Size();
      }
      if value.Size() > lim.bytes {
        return;
      }
      EvictOldest(value.Size());
      entries := entries + [Entry(key, stamp, value)];
      bytes := bytes + value.Size();
    }

    /** The loop that makes room for a value. */
    method EvictOldest(size: nat)
      requires bytes == Bytes(entries)
      modifies this`entries, this`bytes, this`evictions
      ensures entries == Evict(old(entries), size, lim) && bytes == Bytes(entries)
      ensures evictions == old(evictions) + |old(entries)| - |entries|
    {
      while entries != [] && (|entries| >= lim.entries || bytes + size > lim.bytes)
        invariant bytes == Bytes(entries)
        invariant Evict(old(entries), size, lim) == Evict(entries, size, lim)
        invariant evictions + |entries| == old(evictions) + |old(entries)|
        decreases |entries|
      {
        bytes := bytes - entries[0].doc.Size();
        entries := entries[1..];
        evictions := evictions + 1;
      }
    }
  }
}
