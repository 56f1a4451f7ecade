/** Facts about least-recently-used order, shared by the response cache and the
    rate limiter: both are Python OrderedDicts that move a used key to the end
    and pop from the front. */
module Recency {

  /** `keys` without `k`. */
  function Remove<K(==,!new)>(keys: seq<K>, k: K): (r: seq<K>)
    ensures k !in r
    ensures forall x :: x in r <==> x in keys && x != k
    ensures |r| <= |keys|
  {
    if keys == [] then []
    else if keys[0] == k then Remove(keys[1..], k)
    else [keys[0]] + Remove(keys[1..], k)
  }

  /** Every key of `history`, once each, least recently used first. */
  function Order<K(==,!new)>(history: seq<K>): (r: seq<K>)
    ensures forall x :: x in r <==> x in history
  {
    if history == [] then []
    else
      var last := history[|history| - 1];
      Remove(Order(history[..|history| - 1]), last) + [last]
  }

  /** The last (at most) `n` elements. */
  function Suffix<T>(s: seq<T>, n: nat): seq<T> {
    if |s| <= n then s else s[|s| - n..]
  }

  predicate Distinct<T(==)>(s: seq<T>) {
    forall i, j :: 0 <= i < j < |s| ==> s[i] != s[j]
  }

  lemma {:induction false} RemoveConcat<K(!new)>(a: seq<K>, b: seq<K>, k: K)
    ensures Remove(a + b, k) == Remove(a, k) + Remove(b, k)
  {
    if a == [] {
      assert a + b == b;
    } else {
      assert (a + b)[1..] == a[1..] + b;
      RemoveConcat(a[1..], b, k);
    }
  }

  lemma {:induction false} RemoveAbsent<K(!new)>(a: seq<K>, k: K)
    requires k !in a
    ensures Remove(a, k) == a
  {
    if a != [] {
      RemoveAbsent(a[1..], k);
    }
  }

  lemma {:induction false} RemoveDistinct<K(!new)>(a: seq<K>, k: K)
    requires Distinct(a)
    ensures Distinct(Remove(a, k))
    ensures |Remove(a, k)| == if k in a then |a| - 1 else |a|
  {
    if a != [] {
      RemoveDistinct(a[1..], k);
      if a[0] == k {
        assert k !in a[1..];
      } else {
        assert a[0] !in a[1..];
      }
    }
  }

  lemma {:induction false} OrderDistinct<K(!new)>(history: seq<K>)
    ensures Distinct(Order(history))
  {
    if history != [] {
      OrderDistinct(history[..|history| - 1]);
      RemoveDistinct(Order(history[..|history| - 1]), history[|history| - 1]);
    }
  }

  lemma SuffixConcat<T>(p: seq<T>, s: seq<T>, n: nat)
    requires |s| <= n ==> p == []
    ensures Suffix(p + s, n) == Suffix(s, n)
  {
    if |s| <= n {
      assert p + s == s;
    } else {
      assert (p + s)[|p + s| - n..] == s[|s| - n..];
    }
  }

  lemma SuffixFull<T>(p: seq<T>, s: seq<T>)
    ensures Suffix(p + s, |s|) == s
  {
    if |p| == 0 {
      assert p + s == s;
    } else {
      assert (p + s)[|p|..] == s;
    }
  }

  lemma SuffixWhole<T>(s: seq<T>, n: nat)
    requires |s| <= n
    ensures Suffix(s, n) == s
  {
  }

  lemma ConcatAssoc<T>(a: seq<T>, b: seq<T>, c: seq<T>)
    ensures (a + b) + c == a + (b + c)
  {
  }

  lemma {:induction false} DistinctTail<K(!new)>(p: seq<K>, t: seq<K>)
    requires Distinct(p + t)
    ensures Distinct(p) && Distinct(t) && forall x :: x in t ==> x !in p
  {
    forall i, j | 0 <= i < j < |t| ensures t[i] != t[j] {
      assert (p + t)[|p| + i] == t[i] && (p + t)[|p| + j] == t[j];
    }
    forall i, j | 0 <= i < |p| && 0 <= j < |t| ensures p[i] != t[j] {
      assert (p + t)[i] == p[i] && (p + t)[|p| + j] == t[j];
    }
    forall i, j | 0 <= i < j < |p| ensures p[i] != p[j] {
      assert (p + t)[i] == p[i] && (p + t)[j] == p[j];
    }
  }

  /** Using `k` when the table is the last part `t` of the order `p + t`. */
  lemma {:induction false} TouchTail<K(!new)>(p: seq<K>, t: seq<K>, n: nat, k: K)
    requires Distinct(p + t) && |t| <= n && (p == [] || |t| == n)
    ensures Suffix(Remove(t, k) + [k], n) == Suffix(Remove(p + t, k) + [k], n)
  {
    hide Distinct, Suffix, Remove;
    RemoveConcat(p, t, k);
    ConcatAssoc(Remove(p, k), Remove(t, k), [k]);
    var s := Remove(t, k) + [k];
    DistinctTail(p, t);
    RemoveDistinct(t, k);
    if p == [] {
      assert p + t == t;
    } else if k in t {
      SuffixFull(Remove(p, k), s);
      SuffixWhole(s, n);
    } else {
      SuffixConcat(Remove(p, k), s, n);
    }
  }

  /** Bounding by popping the front is stable: keeping the last `n` of the whole
      recency order, then using `k`, is using `k` in the bounded table. */
  lemma {:induction false} TouchSuffix<K(!new)>(order: seq<K>, n: nat, k: K)
    requires Distinct(order)
    ensures Suffix(Remove(Suffix(order, n), k) + [k], n) == Suffix(Remove(order, k) + [k], n)
  {
    var t := Suffix(order, n);
    var p := order[..|order| - |t|];
    assert order == p + t;
    TouchTail(p, t, n, k);
  }

  /** The keys used after `k`'s last use. */
  function UsedSince<K(==,!new)>(history: seq<K>, k: K): (r: set<K>)
    ensures k !in r
  {
    if history == [] || history[|history| - 1] == k then {}
    else UsedSince(history[..|history| - 1], k) + {history[|history| - 1]}
  }

  function IndexOf<K(==,!new)>(keys: seq<K>, k: K): (i: nat)
    requires k in keys
    ensures i < |keys| && keys[i] == k
    ensures forall j :: 0 <= j < i ==> keys[j] != k
  {
    if keys[0] == k then 0 else 1 + IndexOf(keys[1..], k)
  }

  function Elements<K(==,!new)>(s: seq<K>): set<K> { set x | x in s }

  lemma {:induction false} DistinctCard<K(!new)>(s: seq<K>)
    requires Distinct(s)
    ensures |Elements(s)| == |s|
  {
    if s != [] {
      DistinctCard(s[1..]);
      assert Elements(s) == Elements(s[1..]) + {s[0]};
      assert s[0] !in s[1..];
    }
  }

  lemma {:induction false} AfterKey<K(!new)>(o: seq<K>, a: seq<K>, k: K, b: seq<K>)
    requires Distinct(o) && o == a + [k] + b
    ensures IndexOf(o, k) == |a| && o[IndexOf(o, k) + 1..] == b
  {
    assert o[|a|] == k;
  }

  /** Using another key `x` moves it behind `k` and keeps what was already there. */
  lemma {:induction false} TouchOther<K(!new)>(a: seq<K>, k: K, b: seq<K>, x: K)
    requires x != k
    ensures Remove(a + [k] + b, x) + [x] == Remove(a, x) + [k] + (Remove(b, x) + [x])
    ensures Elements(Remove(b, x) + [x]) == Elements(b) + {x}
  {
    RemoveConcat(a + [k], b, x);
    RemoveConcat(a, [k], x);
    RemoveAbsent([k], x);
    ConcatAssoc(Remove(a, x) + [k], Remove(b, x), [x]);
  }

  /** What stands after a key in recency order is what was used since it was. */
  lemma {:induction false} AfterIsUsedSince<K(!new)>(history: seq<K>, k: K)
    requires k in history
    ensures k in Order(history)
    ensures Elements(Order(history)[IndexOf(Order(history), k) + 1..]) == UsedSince(history, k)
  {
    var h := history[..|history| - 1];
    var x := history[|history| - 1];
    var o := Order(h);
    OrderDistinct(history);
    if x == k {
      AfterKey(Order(history), Remove(o, k), k, []);
    } else {
      assert k in h;
      AfterIsUsedSince(h, k);
      var a, b := o[..IndexOf(o, k)], o[IndexOf(o, k) + 1..];
      assert o == a + [k] + b;
      TouchOther(a, k, b, x);
      AfterKey(Order(history), Remove(a, x), k, Remove(b, x) + [x]);
    }
  }

  /** A table of the `n` most recently used keys holds `k` exactly when fewer than
      `n` distinct other keys were used since `k` was. */
  lemma {:induction false} RetainedIff<K(!new)>(history: seq<K>, n: nat, k: K)
    requires k in history
    ensures k in Suffix(Order(history), n) <==> |UsedSince(history, k)| < n
  {
    var o := Order(history);
    OrderDistinct(history);
    AfterIsUsedSince(history, k);
    var i := IndexOf(o, k);
    DistinctCard(o[i + 1..]);
    assert |UsedSince(history, k)| == |o| - i - 1;
    if k in Suffix(o, n) && |o| > n {
      var j :| |o| - n <= j < |o| && o[j] == k;
      assert j == i;
    }
    if |UsedSince(history, k)| < n && |o| > n {
      assert Suffix(o, n)[i - (|o| - n)] == k;
    }
  }
}
