/** Blending a cell's adjusted rate with its neighbours', and the ranking of the result:
    the rest of SAFETY_RANKED (safety/ranking_sql.py). */
module Blending {
  import opened Ranking
  import opened Reals
  import S = Shrinkage

  function Total(s: seq<real>): real {
    if s == [] then 0.0 else s[0] + Total(s[1..])
  }

  /** The rates of those neighbours that are cells of this city. */
  function NeighbourRates(adj: seq<real>, neighbours: seq<nat>): seq<real> {
    if neighbours == [] then []
    else if neighbours[0] < |adj| then [adj[neighbours[0]]] + NeighbourRates(adj, neighbours[1..])
    else NeighbourRates(adj, neighbours[1..])
  }

  /** `smoothed`: a cell with no neighbours in the city keeps its own rate. */
  function Blended(adj: seq<real>, i: nat, neighbours: seq<nat>, selfWeight: real): real
    requires i < |adj|
  {
    var near := NeighbourRates(adj, neighbours);
    if near == [] then adj[i]
    else Times(selfWeight, adj[i]) + Times(1.0 - selfWeight, Total(near) / |near| as real)
  }

  // For each cell, its neighbours.
  type Adjacency = seq<seq<nat>>

  /** The column of blended rates. */
  function Smoothed(adj: seq<real>, near: Adjacency, selfWeight: real): (r: seq<real>)
    requires |near| == |adj|
    ensures |r| == |adj| && forall i :: 0 <= i < |adj| ==> r[i] == Blended(adj, i, near[i], selfWeight)
  {
    seq(|adj|, i requires 0 <= i < |adj| => Blended(adj, i, near[i], selfWeight))
  }

  lemma {:induction false} NeighbourRatesAreRates(adj: seq<real>, neighbours: seq<nat>)
    ensures forall x :: x in NeighbourRates(adj, neighbours) ==> x in adj
  {
    if neighbours != [] {
      NeighbourRatesAreRates(adj, neighbours[1..]);
    }
  }

  lemma {:induction false} TotalBounds(s: seq<real>, lo: real, hi: real)
    requires forall i :: 0 <= i < |s| ==> lo <= s[i] <= hi
    ensures Times(lo, |s| as real) <= Total(s) <= Times(hi, |s| as real)
  {
    Units(lo);
    Units(hi);
    if s != [] {
      TotalBounds(s[1..], lo, hi);
      var n := |s[1..]| as real;
      assert |s| as real == n + 1.0;
      Distribute(lo, n, 1.0);
      Distribute(hi, n, 1.0);
    }
  }

  /** Blending stays inside the range of the adjusted rates: it can neither invent
      a worst cell nor a best one. */
  lemma BlendingStaysInRange(adj: seq<real>, i: nat, neighbours: seq<nat>, selfWeight: real, lo: real, hi: real)
    requires i < |adj| && 0.0 <= selfWeight <= 1.0
    requires forall k :: 0 <= k < |adj| ==> lo <= adj[k] <= hi
    ensures lo <= Blended(adj, i, neighbours, selfWeight) <= hi
  {
    var near := NeighbourRates(adj, neighbours);
    if near != [] {
      NeighbourRatesAreRates(adj, neighbours);
      forall k | 0 <= k < |near| ensures lo <= near[k] <= hi {
        assert near[k] in near;
      }
      TotalBounds(near, lo, hi);
      QuotientBetween(Total(near), |near| as real, lo, hi);
      Mix(adj[i], Total(near) / |near| as real, selfWeight, lo, hi);
    }
  }

  lemma {:induction false} NobodyNear(adj: seq<real>, neighbours: seq<nat>)
    ensures NeighbourRates(adj, neighbours) == [] <==> forall k :: k in neighbours ==> k >= |adj|
  {
    if neighbours != [] {
      var first, rest := neighbours[0], neighbours[1..];
      NobodyNear(adj, rest);
      assert first in neighbours && forall k :: k in rest ==> k in neighbours;
      if first >= |adj| && forall k :: k in rest ==> k >= |adj| {
        assert forall k :: k in neighbours ==> k == first || k in rest;
      }
    }
  }

  lemma {:induction false} RatesOfNeighbours(adj: seq<real>, neighbours: seq<nat>, x: real)
    requires forall k :: k in neighbours && k < |adj| ==> adj[k] == x
    ensures forall r :: r in NeighbourRates(adj, neighbours) ==> r == x
  {
    if neighbours != [] {
      RatesOfNeighbours(adj, neighbours[1..], x);
    }
  }

  /** A cell none of whose neighbours is of the city keeps its own rate, whatever the
      weight; neighbours that all have one rate count as that rate, however many. */
  lemma NeighboursAlike(adj: seq<real>, i: nat, neighbours: seq<nat>, selfWeight: real, x: real)
    requires i < |adj| && forall k :: k in neighbours && k < |adj| ==> adj[k] == x
    ensures Blended(adj, i, neighbours, selfWeight) ==
      if forall k :: k in neighbours ==> k >= |adj| then adj[i]
      else Times(selfWeight, adj[i]) + Times(1.0 - selfWeight, x)
  {
    var near := NeighbourRates(adj, neighbours);
    NobodyNear(adj, neighbours);
    if near != [] {
      RatesOfNeighbours(adj, neighbours, x);
      forall k | 0 <= k < |near| ensures near[k] == x {
        assert near[k] in near;
      }
      TotalBounds(near, x, x);
      QuotientIs(x, Total(near), |near| as real);
    }
  }

  lemma Mix(a: real, b: real, k: real, lo: real, hi: real)
    requires 0.0 <= k <= 1.0 && lo <= a <= hi && lo <= b <= hi
    ensures lo <= Times(k, a) + Times(1.0 - k, b) <= hi
  {
    Distribute(a, 1.0, k);
    Distribute(b, 1.0, k);
    Distribute(lo, 1.0, k);
    Distribute(hi, 1.0, k);
    Units(lo);
    Units(hi);
    Units(a);
    Units(b);
    Sign(k, a - lo);
    Sign(k, hi - a);
    Sign(1.0 - k, b - lo);
    Sign(1.0 - k, hi - b);
    Distribute(k, a, lo);
    Distribute(k, hi, a);
    Distribute(1.0 - k, b, lo);
    Distribute(1.0 - k, hi, b);
  }

  // ---- blending is linear

  /** Column `t` is `s` plus `d` times `u`. */
  ghost predicate Shifted(t: seq<real>, s: seq<real>, u: seq<real>, d: real) {
    && |t| == |s| == |u|
    && forall i :: 0 <= i < |s| ==> t[i] == s[i] + Times(d, u[i])
  }

  lemma {:induction false} TotalCons(x: real, rest: seq<real>)
    ensures Total([x] + rest) == x + Total(rest)
  {
    assert ([x] + rest)[1..] == rest;
  }

  lemma {:induction false} NoNeighbours(adj: seq<real>)
    ensures NeighbourRates(adj, []) == []
  {
  }

  lemma {:induction false} FirstNeighbour(adj: seq<real>, neighbours: seq<nat>)
    requires neighbours != []
    ensures var rest := NeighbourRates(adj, neighbours[1..]);
      NeighbourRates(adj, neighbours) == if neighbours[0] < |adj| then [adj[neighbours[0]]] + rest else rest
  {
  }

  lemma NothingTotals(d: real)
    ensures Total([]) == 0.0 == Times(d, Total([]))
  {
    Units(d);
  }

  lemma {:induction false} NeighboursLinear(t: seq<real>, s: seq<real>, u: seq<real>, d: real, neighbours: seq<nat>)
    requires Shifted(t, s, u, d)
    ensures |NeighbourRates(t, neighbours)| == |NeighbourRates(s, neighbours)| == |NeighbourRates(u, neighbours)|
    ensures Total(NeighbourRates(t, neighbours)) ==
        Total(NeighbourRates(s, neighbours)) + Times(d, Total(NeighbourRates(u, neighbours)))
  {
    hide Times, Total, NeighbourRates;
    if neighbours == [] {
      NoNeighbours(t);
      NoNeighbours(s);
      NoNeighbours(u);
      NothingTotals(d);
    } else {
      var k, rest := neighbours[0], neighbours[1..];
      NeighboursLinear(t, s, u, d, rest);
      FirstNeighbour(t, neighbours);
      FirstNeighbour(s, neighbours);
      FirstNeighbour(u, neighbours);
      if k < |s| {
        TotalCons(t[k], NeighbourRates(t, rest));
        TotalCons(s[k], NeighbourRates(s, rest));
        TotalCons(u[k], NeighbourRates(u, rest));
        Distribute(d, u[k], Total(NeighbourRates(u, rest)));
      }
    }
  }

  lemma MixLinear(k: real, a: real, b: real, x: real, y: real, d: real)
    ensures Times(k, a + Times(d, x)) + Times(1.0 - k, b + Times(d, y))
      == Times(k, a) + Times(1.0 - k, b) + Times(d, Times(k, x) + Times(1.0 - k, y))
  {
    Distribute(k, a, Times(d, x));
    Distribute(1.0 - k, b, Times(d, y));
    Distribute(d, Times(k, x), Times(1.0 - k, y));
    Reorder(k, d, x);
    Reorder(1.0 - k, d, y);
  }

  lemma BlendedLinear(t: seq<real>, s: seq<real>, u: seq<real>, d: real, i: nat, neighbours: seq<nat>, selfWeight: real)
    requires Shifted(t, s, u, d) && i < |s|
    ensures Blended(t, i, neighbours, selfWeight) ==
        Blended(s, i, neighbours, selfWeight) + Times(d, Blended(u, i, neighbours, selfWeight))
  {
    NeighboursLinear(t, s, u, d, neighbours);
    var near := NeighbourRates(s, neighbours);
    if near != [] {
      var n := |near| as real;
      QuotientLinear(Total(near), Total(NeighbourRates(u, neighbours)), d, n);
      MixLinear(selfWeight, s[i], Total(near) / n, u[i], Total(NeighbourRates(u, neighbours)) / n, d);
    }
  }

  lemma SmoothedLinear(t: seq<real>, s: seq<real>, u: seq<real>, d: real, near: Adjacency, selfWeight: real)
    requires Shifted(t, s, u, d) && |near| == |s|
    ensures Shifted(Smoothed(t, near, selfWeight), Smoothed(s, near, selfWeight), Smoothed(u, near, selfWeight), d)
  {
    forall i | 0 <= i < |s|
      ensures Blended(t, i, near[i], selfWeight) ==
          Blended(s, i, near[i], selfWeight) + Times(d, Blended(u, i, near[i], selfWeight))
    {
      BlendedLinear(t, s, u, d, i, near[i], selfWeight);
    }
  }

  // ---- what more offences in a cell do to every rate

  /** The city's rate moves by this for each unit of weight. */
  function CityLift(cells: S.City): real { S.CityRise(cells, 1.0) }

  /** And each adjusted rate, when the weight is cell `c`'s. */
  function Push(cells: S.City, c: nat, prior: real): (r: seq<real>)
    requires prior > 0.0
    ensures |r| == |cells|
    ensures forall i :: 0 <= i < |cells| ==>
      r[i] == S.Rise(cells[i].exposure, if i == c then 1.0 else 0.0, CityLift(cells), prior)
  {
    seq(|cells|, i requires 0 <= i < |cells| =>
      S.Rise(cells[i].exposure, if i == c then 1.0 else 0.0, CityLift(cells), prior))
  }

  /** And each blended one. None of the three looks at what was reported, only at the
      exposures, the prior, the neighbours and the weight on oneself. */
  function Lifts(cells: S.City, near: Adjacency, c: nat, prior: real, selfWeight: real): (r: seq<real>)
    requires prior > 0.0 && |near| == |cells|
    ensures |r| == |cells|
  {
    Smoothed(Push(cells, c, prior), near, selfWeight)
  }

  /** The blended column of a city. */
  function Rates(cells: S.City, near: Adjacency, prior: real, selfWeight: real): (r: seq<real>)
    requires prior > 0.0 && |near| == |cells|
    ensures |r| == |cells|
  {
    Smoothed(S.ShrunkRates(cells, prior), near, selfWeight)
  }

  lemma CityRateLifts(cells: S.City, c: nat, d: real)
    requires c < |cells|
    ensures S.CityRate(S.Raised(cells, c, d)) == S.CityRate(cells) + Times(d, CityLift(cells))
  {
    S.CityRateRise(cells, c, d);
    S.SumENonnegative(cells);
    Units(d);
    if S.SumE(cells) > 0.0 {
      QuotientLinear(0.0, 1.0, d, S.SumE(cells));
    }
  }

  lemma RiseScales(e: real, x: real, y: real, d: real, prior: real)
    requires prior > 0.0 && e >= 0.0
    ensures S.Rise(e, Times(d, x), Times(d, y), prior) == Times(d, S.Rise(e, x, y, prior))
  {
    Reorder(d, y, prior);
    Distribute(d, x, Times(y, prior));
    QuotientLinear(0.0, x + Times(y, prior), d, e + prior);
  }

  lemma AdjustedShift(cells: S.City, c: nat, d: real, prior: real, i: nat)
    requires c < |cells| && i < |cells| && prior > 0.0
    ensures S.ShrunkRates(S.Raised(cells, c, d), prior)[i] ==
        S.ShrunkRates(cells, prior)[i] + Times(d, Push(cells, c, prior)[i])
  {
    hide Times, CityLift, S.Rise, S.Adjusted, S.CityRate;
    var cells' := S.Raised(cells, c, d);
    CityRateLifts(cells, c, d);
    Units(d);
    S.AdjustedRise(cells[i], cells'[i], S.CityRate(cells), S.CityRate(cells'), prior);
    RiseScales(cells[i].exposure, if i == c then 1.0 else 0.0, CityLift(cells), d, prior);
  }

  lemma AdjustedShifts(cells: S.City, c: nat, d: real, prior: real)
    requires c < |cells| && prior > 0.0
    ensures Shifted(S.ShrunkRates(S.Raised(cells, c, d), prior), S.ShrunkRates(cells, prior), Push(cells, c, prior), d)
  {
    forall i | 0 <= i < |cells|
      ensures S.ShrunkRates(S.Raised(cells, c, d), prior)[i] ==
          S.ShrunkRates(cells, prior)[i] + Times(d, Push(cells, c, prior)[i])
    {
      AdjustedShift(cells, c, d, prior, i);
    }
  }

  /** The exact effect of `d` more weight in one cell on the rates a city is ranked by. */
  lemma BlendRise(cells: S.City, near: Adjacency, c: nat, d: real, prior: real, selfWeight: real)
    requires c < |cells| && prior > 0.0 && |near| == |cells|
    ensures Shifted(Rates(S.Raised(cells, c, d), near, prior, selfWeight), Rates(cells, near, prior, selfWeight),
                    Lifts(cells, near, c, prior, selfWeight), d)
  {
    AdjustedShifts(cells, c, d, prior);
    SmoothedLinear(S.ShrunkRates(S.Raised(cells, c, d), prior), S.ShrunkRates(cells, prior), Push(cells, c, prior), d,
      near, selfWeight);
  }

  /** More offences in a cell keep its lead over another exactly when they lift its own
      blended rate at least as much: for every city, neighbourhood and weight, however
      much was reported and however much more. */
  lemma GapKeptIff(cells: S.City, near: Adjacency, c: nat, j: nat, d: real, prior: real, selfWeight: real)
    requires c < |cells| && j < |cells| && d > 0.0 && prior > 0.0 && |near| == |cells|
    ensures var before, after := Rates(cells, near, prior, selfWeight),
        Rates(S.Raised(cells, c, d), near, prior, selfWeight);
      var lifts := Lifts(cells, near, c, prior, selfWeight);
      after[c] - after[j] >= before[c] - before[j] <==> lifts[c] >= lifts[j]
  {
    hide Times, Rates, Lifts;
    BlendRise(cells, near, c, d, prior, selfWeight);
    var lifts := Lifts(cells, near, c, prior, selfWeight);
    LiftOrder(lifts[c], lifts[j], d);
  }

  lemma LiftOrder(x: real, y: real, d: real)
    requires d > 0.0
    ensures Times(d, x) >= Times(d, y) <==> x >= y
  {
    GapOrder(y - x, d);
    Distribute(d, y, x);
  }

  /** How far above cell `c` each cell ranks once lifted. */
  function Gaps(rates: seq<real>, lifts: seq<real>, c: nat, d: real): (r: seq<real>)
    requires |rates| == |lifts| && c < |rates|
    ensures |r| == |rates|
    ensures forall j :: 0 <= j < |r| ==> r[j] == rates[j] - rates[c] + Times(d, lifts[j] - lifts[c])
  {
    seq(|rates|, j requires 0 <= j < |rates| => rates[j] - rates[c] + Times(d, lifts[j] - lifts[c]))
  }

  lemma {:induction false} HalvesSame(s: seq<real>, t: seq<real>, x: real, y: real)
    requires |s| == |t| && forall i :: 0 <= i < |s| ==> s[i] - x == t[i] - y
    ensures Halves(s, x) == Halves(t, y)
  {
    S.HalvesMonotone(s, t, x, y);
    S.HalvesMonotone(t, s, y, x);
  }

  lemma MidrankComparesHalves(s: seq<real>, t: seq<real>, x: real, y: real)
    requires |s| == |t| && x in s && y in t
    ensures Midrank(t, y) > Midrank(s, x) <==> Halves(t, y) > Halves(s, x)
  {
    MidrankMeaning(s, x);
    MidrankMeaning(t, y);
    ShareBounds(Halves(t, y), Halves(s, x), 2 * |s|);
    ShareBounds(Halves(s, x), Halves(t, y), 2 * |s|);
  }

  /** More offences give a cell a safer percentile exactly when the gaps, each moved by
      what the two cells' lifts differ, put more cells above it than there were, ties
      counting half. */
  lemma RanksSaferIff(cells: S.City, near: Adjacency, c: nat, d: real, prior: real, selfWeight: real)
    requires c < |cells| && prior > 0.0 && |near| == |cells|
    ensures var before, after := Rates(cells, near, prior, selfWeight),
        Rates(S.Raised(cells, c, d), near, prior, selfWeight);
      var lifts := Lifts(cells, near, c, prior, selfWeight);
      (Midrank(after, after[c]) > Midrank(before, before[c]))
      <==> (Halves(Gaps(before, lifts, c, d), 0.0) > Halves(Gaps(before, lifts, c, 0.0), 0.0))
  {
    hide Times, Rates, Lifts, Midrank, Halves;
    var before, after := Rates(cells, near, prior, selfWeight), Rates(S.Raised(cells, c, d), near, prior, selfWeight);
    var lifts := Lifts(cells, near, c, prior, selfWeight);
    BlendRise(cells, near, c, d, prior, selfWeight);
    forall j | 0 <= j < |cells|
      ensures Times(d, lifts[j] - lifts[c]) == Times(d, lifts[j]) - Times(d, lifts[c])
          && Times(0.0, lifts[j] - lifts[c]) == 0.0 {
      Distribute(d, lifts[j], lifts[c]);
      Units(lifts[j] - lifts[c]);
    }
    HalvesSame(Gaps(before, lifts, c, d), after, 0.0, after[c]);
    HalvesSame(Gaps(before, lifts, c, 0.0), before, 0.0, before[c]);
    MidrankComparesHalves(before, after, before[c], after[c]);
  }

  lemma NegativeMoves(x: real, d: real)
    requires x <= 0.0 && d >= 0.0
    ensures Times(d, x) <= 0.0 == Times(0.0, x)
  {
    Sign(d, -x);
    Distribute(d, 0.0, -x);
    Units(d);
    Units(x);
  }

  /** So a cell its own offences lift the most never gets a safer percentile for them. */
  lemma LiftedMostNeverSafer(cells: S.City, near: Adjacency, c: nat, d: real, prior: real, selfWeight: real)
    requires c < |cells| && d >= 0.0 && prior > 0.0 && |near| == |cells|
    requires forall j :: 0 <= j < |cells| ==>
        Lifts(cells, near, c, prior, selfWeight)[j] <= Lifts(cells, near, c, prior, selfWeight)[c]
    ensures var before, after := Rates(cells, near, prior, selfWeight),
        Rates(S.Raised(cells, c, d), near, prior, selfWeight);
      Midrank(after, after[c]) <= Midrank(before, before[c])
  {
    hide Rates, Lifts, Midrank, Halves, Times;
    var before := Rates(cells, near, prior, selfWeight);
    var lifts := Lifts(cells, near, c, prior, selfWeight);
    RanksSaferIff(cells, near, c, d, prior, selfWeight);
    forall j | 0 <= j < |cells| ensures Gaps(before, lifts, c, 0.0)[j] >= Gaps(before, lifts, c, d)[j] {
      NegativeMoves(lifts[j] - lifts[c], d);
    }
    S.HalvesMonotone(Gaps(before, lifts, c, 0.0), Gaps(before, lifts, c, d), 0.0, 0.0);
  }

  // ---- a cell that more offences make look safer

  lemma {:induction false} TotalOfZeros(s: seq<real>)
    requires forall x :: x in s ==> x == 0.0
    ensures Total(s) == 0.0
  {
    if s != [] {
      assert forall x :: x in s[1..] ==> x in s;
      assert s[0] in s;
      TotalOfZeros(s[1..]);
    }
  }

  lemma BlendedOfZeros(adj: seq<real>, i: nat, neighbours: seq<nat>, selfWeight: real)
    requires i < |adj| && forall x :: x in adj ==> x == 0.0
    ensures Blended(adj, i, neighbours, selfWeight) == 0.0
  {
    var near := NeighbourRates(adj, neighbours);
    NeighbourRatesAreRates(adj, neighbours);
    TotalOfZeros(near);
    Units(selfWeight);
    Units(1.0 - selfWeight);
    assert adj[i] in adj;
    if near != [] {
      assert 0.0 / |near| as real == 0.0;
    }
  }

  lemma {:induction false} NoWeight(cells: S.City)
    requires forall i :: 0 <= i < |cells| ==> cells[i].w == 0.0
    ensures S.SumW(cells) == 0.0
  {
    if cells != [] {
      NoWeight(cells[1..]);
    }
  }

  lemma QuietRates(cells: S.City, near: Adjacency, prior: real, selfWeight: real)
    requires prior > 0.0 && |near| == |cells| && forall i :: 0 <= i < |cells| ==> cells[i].w == 0.0
    ensures forall i :: 0 <= i < |cells| ==> Rates(cells, near, prior, selfWeight)[i] == 0.0
  {
    NoWeight(cells);
    var adj := S.ShrunkRates(cells, prior);
    assert S.CityRate(cells) == 0.0;
    forall x | x in adj ensures x == 0.0 {
      var i :| 0 <= i < |adj| && adj[i] == x;
      S.AdjustedIs(cells[i], 0.0, prior, 0.0);
    }
    forall i | 0 <= i < |cells| ensures Rates(cells, near, prior, selfWeight)[i] == 0.0 {
      BlendedOfZeros(adj, i, near[i], selfWeight);
    }
  }

  lemma {:induction false} AllTied(s: seq<real>, x: real)
    requires forall i :: 0 <= i < |s| ==> s[i] == x
    ensures Above(s, x) == 0 && Ties(s, x) == |s|
  {
    if s != [] {
      AllTied(s[1..], x);
    }
  }

  lemma GapOrder(x: real, d: real)
    requires d > 0.0
    ensures (Times(d, x) > 0.0 <==> x > 0.0) && (Times(d, x) == 0.0 <==> x == 0.0)
  {
    Sign(d, x);
    Sign(d, -x);
    Distribute(d, 0.0, x);
    Units(d);
  }

  /** Where nothing was reported yet, so that all cells tie, the first offences give
      their cell a safer percentile exactly when they lift more cells above it than they
      leave below it: something of the map alone. */
  lemma FirstOffencesRankSaferIff(cells: S.City, near: Adjacency, c: nat, d: real, prior: real, selfWeight: real)
    requires c < |cells| && d > 0.0 && prior > 0.0 && |near| == |cells|
    requires forall i :: 0 <= i < |cells| ==> cells[i].w == 0.0
    ensures var before, after := Rates(cells, near, prior, selfWeight),
        Rates(S.Raised(cells, c, d), near, prior, selfWeight);
      var lifts := Lifts(cells, near, c, prior, selfWeight);
      && Midrank(before, before[c]) == 0.5
      && Midrank(after, after[c]) == Midrank(lifts, lifts[c])
      && (Midrank(after, after[c]) > Midrank(before, before[c]) <==> Above(lifts, lifts[c]) > Below(lifts, lifts[c]))
  {
    hide Rates, Lifts, Midrank, Above, Ties, Below, Times;
    var before, after := Rates(cells, near, prior, selfWeight), Rates(S.Raised(cells, c, d), near, prior, selfWeight);
    var lifts := Lifts(cells, near, c, prior, selfWeight);
    QuietRates(cells, near, prior, selfWeight);
    AllTied(before, before[c]);
    MidrankMeaning(before, before[c]);
    HalfShare(|cells|);
    BlendRise(cells, near, c, d, prior, selfWeight);
    forall j | 0 <= j < |cells|
      ensures (lifts[j] > lifts[c] <==> after[j] > after[c]) && (lifts[j] == lifts[c] <==> after[j] == after[c])
    {
      GapOrder(lifts[j] - lifts[c], d);
      Distribute(d, lifts[j], lifts[c]);
    }
    SameOrderSameRank(lifts, after, c);
    Trichotomy(lifts, lifts[c]);
    MidrankComparesHalves(before, lifts, before[c], lifts[c]);
  }

  lemma HalfShare(n: nat)
    requires n > 0
    ensures Share(n, 2 * n) == 0.5
  {
    var m := n as real;
    assert (2 * n) as real == 2.0 * m;
    QuotientIs(0.5, m, 2.0 * m);
  }

  // ---- SAFETY_RANKED, end to end

  /** One cell of the universe, with what one track reported there. */
  datatype Place = Place(cell: string, n: nat, rating: S.Cell)

  type Universe = s: seq<Place> | forall i :: 0 <= i < |s| ==> s[i].rating.exposure >= 0.0

  function Ratings(places: Universe): (r: S.City)
    ensures |r| == |places| && forall i :: 0 <= i < |r| ==> r[i] == places[i].rating
  {
    seq(|places|, i requires 0 <= i < |places| => places[i].rating)
  }

  function Rateds(places: Universe, rates: seq<real>): (r: seq<Rated>)
    requires |rates| == |places|
    ensures |r| == |places| && forall i :: 0 <= i < |r| ==> r[i] == Rated(places[i].cell, places[i].n, rates[i])
  {
    seq(|places|, i requires 0 <= i < |places| => Rated(places[i].cell, places[i].n, rates[i]))
  }

  /** One track's rows of SAFETY_RANKED. */
  function SafetyRanked(places: Universe, near: Adjacency, prior: real, selfWeight: real): (r: seq<Ranked>)
    requires prior > 0.0 && |near| == |places|
    ensures |r| == |places|
  {
    RankSafety(Rateds(places, Rates(Ratings(places), near, prior, selfWeight)))
  }

  /** `k` more offences of weight `d` in cell `c`. */
  function Reported(places: Universe, c: nat, k: nat, d: real): Universe
    requires c < |places|
  {
    var p := places[c];
    places[c := p.(n := p.n + k, rating := p.rating.(w := p.rating.w + d))]
  }

  lemma SafetyRow(places: Universe, near: Adjacency, prior: real, selfWeight: real, i: nat)
    requires prior > 0.0 && |near| == |places| && i < |places|
    ensures var rates := Rates(Ratings(places), near, prior, selfWeight);
      SafetyRanked(places, near, prior, selfWeight)[i].pct == Midrank(rates, rates[i])
  {
    var rates := Rates(Ratings(places), near, prior, selfWeight);
    assert Ranking.Rates(Rateds(places, rates)) == rates;
  }

  /** A cell with offences reported is never in tier 0. */
  lemma {:induction false} ReportedTier(places: Universe, near: Adjacency, c: nat, k: nat, d: real, prior: real,
                                        selfWeight: real)
    requires c < |places| && prior > 0.0 && |near| == |places|
    ensures k > 0 ==> SafetyRanked(Reported(places, c, k, d), near, prior, selfWeight)[c].tier > 0
  {
    hide Midrank, Rates;
    var after := Reported(places, c, k, d);
    TierIsQuarter(Rateds(after, Rates(Ratings(after), near, prior, selfWeight)), c);
  }

  /** On the ranking the map serves: more offences in a cell give it a safer percentile
      exactly when, by the gaps before and the lifts, more cells come to stand above it;
      and never when it is the cell they lift the most. */
  lemma ReportedRanksSaferIff(places: Universe, near: Adjacency, c: nat, k: nat, d: real, prior: real, selfWeight: real)
    requires c < |places| && d >= 0.0 && prior > 0.0 && |near| == |places|
    ensures var before, after := SafetyRanked(places, near, prior, selfWeight),
        SafetyRanked(Reported(places, c, k, d), near, prior, selfWeight);
      var rates, lifts := Rates(Ratings(places), near, prior, selfWeight),
        Lifts(Ratings(places), near, c, prior, selfWeight);
      && (after[c].pct > before[c].pct
          <==> Halves(Gaps(rates, lifts, c, d), 0.0) > Halves(Gaps(rates, lifts, c, 0.0), 0.0))
      && ((forall j :: 0 <= j < |places| ==> lifts[j] <= lifts[c]) ==> after[c].pct <= before[c].pct)
      && (k > 0 ==> after[c].tier > 0)
  {
    hide Midrank, Halves, Rates, Lifts, SafetyRanked;
    var cells := Ratings(places);
    assert Ratings(Reported(places, c, k, d)) == S.Raised(cells, c, d);
    SafetyRow(places, near, prior, selfWeight, c);
    SafetyRow(Reported(places, c, k, d), near, prior, selfWeight, c);
    RanksSaferIff(cells, near, c, d, prior, selfWeight);
    ReportedTier(places, near, c, k, d, prior, selfWeight);
    if forall j :: 0 <= j < |places| ==>
      Lifts(cells, near, c, prior, selfWeight)[j] <= Lifts(cells, near, c, prior, selfWeight)[c] {
      LiftedMostNeverSafer(cells, near, c, d, prior, selfWeight);
    }
  }

  function Percentiles(rows: seq<Ranked>): real {
    if rows == [] then 0.0 else rows[0].pct + Percentiles(rows[1..])
  }

  lemma {:induction false} PercentilesAre(rows: seq<Ranked>, s: seq<real>, t: seq<real>)
    requires s != [] && |t| == |rows| && forall i :: 0 <= i < |rows| ==> rows[i].pct == Midrank(s, t[i])
    ensures Percentiles(rows) == MidrankSum(s, t)
  {
    if rows != [] {
      PercentilesAre(rows[1..], s, t[1..]);
    }
  }

  /** A city's safety percentiles, from exposures and offences to the served column, sum
      to half its cells; among cells with reports the tier follows the blended rate. */
  lemma ServedPercentiles(places: Universe, near: Adjacency, prior: real, selfWeight: real, i: nat, j: nat)
    requires prior > 0.0 && |near| == |places| && i < |places| && j < |places|
    ensures var r, rates := SafetyRanked(places, near, prior, selfWeight),
        Rates(Ratings(places), near, prior, selfWeight);
      && Percentiles(r) == |places| as real / 2.0
      && (rates[i] <= rates[j] && places[i].n > 0 && places[j].n > 0 ==> r[i].tier >= r[j].tier >= 1)
      && (r[i].tier == 0 <==> places[i].n == 0)
  {
    hide Midrank, Rates;
    var rates := Rates(Ratings(places), near, prior, selfWeight);
    var rows := Rateds(places, rates);
    forall k | 0 <= k < |places|
      ensures SafetyRanked(places, near, prior, selfWeight)[k].pct == Midrank(rates, rates[k]) {
      SafetyRow(places, near, prior, selfWeight, k);
    }
    PercentilesAre(SafetyRanked(places, near, prior, selfWeight), rates, rates);
    MidranksSumToHalf(rates);
    TierIsQuarter(rows, i);
    if rates[i] <= rates[j] && places[i].n > 0 && places[j].n > 0 {
      TierFollowsRate(rows, i, j);
    }
  }

  // ---- the witness

  const HUB: Adjacency := [[1, 2, 3], [0], [0], [0]]
  const HUB_LIFTS: seq<real> := [13.0 / 96000.0, 0.0001375, 0.0001375, 0.0001]

  // The served scheme's.
  const PRIOR_PERSONS := 2000.0
  const SELF_WEIGHT := 0.6

  /** A cell of 6000 people, two of none and one of 2000, around a hub. */
  function HubCity(): S.City {
    [S.Cell(6000.0, 0.0), S.Cell(0.0, 0.0), S.Cell(0.0, 0.0), S.Cell(2000.0, 0.0)]
  }

  lemma HubSum()
    ensures S.SumE(HubCity()) == 8000.0
  {
    var c := HubCity();
    assert S.SumE(c[3..]) == c[3].exposure + S.SumE(c[3..][1..]) && c[3..][1..] == [];
    assert c[2..][1..] == c[3..] && c[1..][1..] == c[2..];
    assert S.SumE(c[2..]) == c[2].exposure + S.SumE(c[3..]);
    assert S.SumE(c[1..]) == c[1].exposure + S.SumE(c[2..]);
  }

  lemma HubPush()
    ensures Push(HubCity(), 0, PRIOR_PERSONS) == [0.00015625, 0.000125, 0.000125, 0.0000625]
  {
    HubSum();
    assert CityLift(HubCity()) == 0.000125;
    assert S.Rise(6000.0, 1.0, 0.000125, 2000.0) == 0.00015625;
    assert S.Rise(0.0, 0.0, 0.000125, 2000.0) == 0.000125;
    assert S.Rise(2000.0, 0.0, 0.000125, 2000.0) == 0.0000625;
  }

  lemma HubBlend(push: seq<real>)
    requires push == [0.00015625, 0.000125, 0.000125, 0.0000625]
    ensures Smoothed(push, HUB, SELF_WEIGHT) == HUB_LIFTS
  {
    assert NeighbourRates(push, [0]) == [push[0]] by { assert [0][1..] == []; }
    assert Total([push[0]]) == push[0] by { assert [push[0]][1..] == []; }
    HubNeighbours(push);
  }

  lemma {:induction false} HubNeighbours(push: seq<real>)
    requires |push| == 4
    ensures NeighbourRates(push, [1, 2, 3]) == push[1..]
    ensures Total(push[1..]) == push[1] + push[2] + push[3]
  {
    assert [1, 2, 3][1..] == [2, 3] && [2, 3][1..] == [3] && [3][1..] == [];
    assert NeighbourRates(push, [3]) == [push[3]] + NeighbourRates(push, []);
    assert NeighbourRates(push, [2, 3]) == [push[2]] + NeighbourRates(push, [3]);
    assert push[1..] == [push[1], push[2], push[3]];
    assert push[1..][1..] == push[2..] && push[2..][1..] == push[3..] && push[3..][1..] == [];
    assert Total(push[3..]) == push[3] + Total([]);
    assert Total(push[2..]) == push[2] + Total(push[3..]);
  }

  lemma {:induction false} CountsCons(y: real, rest: seq<real>, x: real)
    ensures Above([y] + rest, x) == (if y > x then 1 else 0) + Above(rest, x)
    ensures Ties([y] + rest, x) == (if y == x then 1 else 0) + Ties(rest, x)
    ensures Below([y] + rest, x) == (if y < x then 1 else 0) + Below(rest, x)
  {
    assert ([y] + rest)[1..] == rest;
  }

  lemma {:induction false} NothingCounts(x: real)
    ensures Above([], x) == Ties([], x) == Below([], x) == 0
  {
  }

  lemma HubCounts()
    ensures Above(HUB_LIFTS, HUB_LIFTS[0]) == 2 && Ties(HUB_LIFTS, HUB_LIFTS[0]) == 1
        && Below(HUB_LIFTS, HUB_LIFTS[0]) == 1
  {
    hide Above, Ties, Below;
    var s, x := HUB_LIFTS, HUB_LIFTS[0];
    NothingCounts(x);
    CountsCons(s[3], [], x);
    CountsCons(s[2], [s[3]], x);
    CountsCons(s[1], [s[2], s[3]], x);
    CountsCons(s[0], [s[1], s[2], s[3]], x);
    assert [s[3]] + [] == [s[3]] && [s[2]] + [s[3]] == [s[2], s[3]];
    assert [s[1]] + [s[2], s[3]] == [s[1], s[2], s[3]] && [s[0]] + [s[1], s[2], s[3]] == s;
  }

  /** The blend can make a cell look safer for having offences: under the served scheme
      the first ones in the hub leave two of its neighbours above it and one below, and
      its percentile rises from 0.5 to 0.625. */
  lemma BlendingCanRankSafer(d: real)
    requires d > 0.0
    ensures var before := Rates(HubCity(), HUB, PRIOR_PERSONS, SELF_WEIGHT);
      var after := Rates(S.Raised(HubCity(), 0, d), HUB, PRIOR_PERSONS, SELF_WEIGHT);
      Midrank(before, before[0]) == 0.5 && Midrank(after, after[0]) == 0.625
  {
    hide Midrank, Above, Ties, Below, Blended;
    HubPush();
    HubBlend(Push(HubCity(), 0, PRIOR_PERSONS));
    HubCounts();
    FirstOffencesRankSaferIff(HubCity(), HUB, 0, d, PRIOR_PERSONS, SELF_WEIGHT);
    MidrankMeaning(HUB_LIFTS, HUB_LIFTS[0]);
  }
}
