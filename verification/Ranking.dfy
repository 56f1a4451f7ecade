/** The percentile, rank and tier columns of safety/ranking_sql.py, and the `timed`
    ranking of safety/api/repository.py, as functions on finite columns. */
module Ranking {
  import opened Wrappers
  import Reals

  // ---- window functions over one partition

  /** How many values of the column are above `x`. */
  function Above(s: seq<real>, x: real): nat {
    if s == [] then 0 else (if s[0] > x then 1 else 0) + Above(s[1..], x)
  }

  function Ties(s: seq<real>, x: real): nat {
    if s == [] then 0 else (if s[0] == x then 1 else 0) + Ties(s[1..], x)
  }

  function Below(s: seq<real>, x: real): nat {
    if s == [] then 0 else (if s[0] < x then 1 else 0) + Below(s[1..], x)
  }

  /** rank() OVER (ORDER BY value DESC). */
  function RankDesc(s: seq<real>, x: real): nat { 1 + Above(s, x) }

  /** The safety percentile of a cell whose rate is `x`: a Hazen midrank. */
  function Midrank(s: seq<real>, x: real): real
    requires s != []
  {
    ((RankDesc(s, x) as real + (Ties(s, x) - 1) as real / 2.0) - 0.5) / |s| as real
  }

  /** percent_rank() OVER (ORDER BY value). */
  function PercentRank(s: seq<real>, x: real): real {
    if |s| <= 1 then 0.0 else Share(Below(s, x), |s| - 1)
  }

  lemma {:induction false} Trichotomy(s: seq<real>, x: real)
    ensures Above(s, x) + Ties(s, x) + Below(s, x) == |s|
  {
    if s != [] {
      Trichotomy(s[1..], x);
    }
  }

  lemma {:induction false} TiesIffPresent(s: seq<real>, x: real)
    ensures Ties(s, x) >= 1 <==> x in s
  {
    if s != [] {
      TiesIffPresent(s[1..], x);
    }
  }

  lemma {:induction false} LowerHasMoreAbove(s: seq<real>, x: real, y: real)
    requires x < y
    ensures Above(s, x) >= Above(s, y) + Ties(s, y)
    ensures Below(s, y) >= Below(s, x) + Ties(s, x)
  {
    if s != [] {
      LowerHasMoreAbove(s[1..], x, y);
    }
  }

  /** Twice the numerator of the midrank. */
  function Halves(s: seq<real>, x: real): nat { 2 * Above(s, x) + Ties(s, x) }

  function Share(h: int, n: nat): real
    requires n > 0
  {
    h as real / n as real
  }

  lemma ShareAdds(a: int, b: int, n: nat)
    requires n > 0
    ensures Share(a, n) + Share(b, n) == Share(a + b, n)
  {
    var m, q := n as real, Share(a, n) + Share(b, n);
    assert q * m == Share(a, n) * m + Share(b, n) * m;
    Reals.QuotientIs(q, (a + b) as real, m);
  }

  lemma ShareBounds(a: int, b: int, n: nat)
    requires n > 0
    ensures Share(0, n) == 0.0 && Share(n, n) == 1.0
    ensures a < b ==> Share(a, n) < Share(b, n)
  {
    Reals.QuotientIs(0.0, 0.0, n as real);
    Reals.QuotientIs(1.0, n as real, n as real);
    if a < b {
      Reals.QuotientOrders(a as real, b as real, n as real);
    }
  }

  lemma MidrankAsShare(above: nat, ties: nat, n: nat)
    requires n > 0
    ensures (((1 + above) as real + (ties - 1) as real / 2.0) - 0.5) / n as real == Share(2 * above + ties, 2 * n)
  {
    var m, a := n as real, ((1 + above) as real + (ties - 1) as real / 2.0) - 0.5;
    assert a * 2.0 == (2 * above + ties) as real;
    assert (a / m) * m == a;
    assert (a / m) * (2.0 * m) == a * 2.0;
    assert (2 * n) as real == 2.0 * m;
    Reals.QuotientIs(a / m, a * 2.0, 2.0 * m);
  }

  /** The midrank is the share of cells above, counting the ties as half. */
  lemma MidrankMeaning(s: seq<real>, x: real)
    requires x in s
    ensures Midrank(s, x) == Share(Halves(s, x), 2 * |s|)
    ensures 0.0 < Midrank(s, x) < 1.0
  {
    Trichotomy(s, x);
    TiesIffPresent(s, x);
    MidrankAsShare(Above(s, x), Ties(s, x), |s|);
    ShareBounds(0, Halves(s, x), 2 * |s|);
    ShareBounds(Halves(s, x), 2 * |s|, 2 * |s|);
  }

  /** Lower rates score strictly higher and equal rates equally, so the percentile
      orders cells exactly as the rate does, reversed. */
  lemma MidrankOrders(s: seq<real>, x: real, y: real)
    requires x in s && y in s
    ensures Midrank(s, x) > Midrank(s, y) <==> x < y
    ensures Midrank(s, x) == Midrank(s, y) <==> x == y
  {
    MidrankMeaning(s, x);
    MidrankMeaning(s, y);
    TiesIffPresent(s, x);
    TiesIffPresent(s, y);
    if x < y {
      LowerHasMoreAbove(s, x, y);
      ShareBounds(Halves(s, y), Halves(s, x), 2 * |s|);
    } else if y < x {
      LowerHasMoreAbove(s, y, x);
      ShareBounds(Halves(s, x), Halves(s, y), 2 * |s|);
    }
  }

  function Negated(s: seq<real>): (r: seq<real>)
    ensures |r| == |s| && forall i :: 0 <= i < |s| ==> r[i] == -s[i]
  {
    if s == [] then [] else [-s[0]] + Negated(s[1..])
  }

  lemma {:induction false} NegatedCounts(s: seq<real>, x: real)
    ensures Above(Negated(s), -x) == Below(s, x) && Ties(Negated(s), -x) == Ties(s, x)
  {
    if s != [] {
      NegatedCounts(s[1..], x);
    }
  }

  lemma ShareMirrors(a: int, b: int, n: nat)
    requires n > 0 && a + b == n
    ensures Share(b, n) == 1.0 - Share(a, n)
  {
    ShareAdds(a, b, n);
    ShareBounds(0, 0, n);
  }

  lemma {:induction false} NegatedHas(s: seq<real>, x: real)
    requires x in s
    ensures -x in Negated(s)
  {
    var i :| 0 <= i < |s| && s[i] == x;
    assert Negated(s)[i] == -x;
  }

  /** Ranking the other way round mirrors the percentile about one half. */
  lemma {:induction false} MidrankMirrors(s: seq<real>, x: real)
    requires x in s
    ensures Midrank(Negated(s), -x) == 1.0 - Midrank(s, x)
  {
    hide Midrank, Above, Ties, Below, Share;
    NegatedHas(s, x);
    NegatedCounts(s, x);
    Trichotomy(s, x);
    MidrankMeaning(s, x);
    MidrankMeaning(Negated(s), -x);
    var a, b, n := Halves(s, x), Halves(Negated(s), -x), 2 * |s|;
    assert a + b == n;
    ShareMirrors(a, b, n);
  }

  // ---- the percentiles sum to half the cells

  /** The halves of `t` ranked within `s`, summed. */
  function HalvesSum(s: seq<real>, t: seq<real>): nat {
    if t == [] then 0 else Halves(s, t[0]) + HalvesSum(s, t[1..])
  }

  function MidrankSum(s: seq<real>, t: seq<real>): real
    requires s != []
  {
    if t == [] then 0.0 else Midrank(s, t[0]) + MidrankSum(s, t[1..])
  }

  lemma {:induction false} HalvesSumHead(x: real, s: seq<real>, t: seq<real>)
    ensures HalvesSum([x] + s, t) + Halves(t, x) == HalvesSum(s, t) + 2 * |t|
  {
    if t != [] {
      HalvesSumHead(x, s, t[1..]);
      assert ([x] + s)[1..] == s;
    }
  }

  lemma SquareGrows(n: nat)
    ensures (n + 1) * (n + 1) == n * n + 2 * n + 1
  {
  }

  /** Each pair of cells is worth two halves between them, and each cell one itself. */
  lemma {:induction false} HalvesTotal(s: seq<real>)
    ensures HalvesSum(s, s) == |s| * |s|
  {
    if s != [] {
      var x, r := s[0], s[1..];
      HalvesTotal(r);
      HalvesSumHead(x, r, r);
      assert s == [x] + r;
      assert Halves(s, x) == 1 + Halves(r, x);
      SquareGrows(|r|);
    }
  }

  lemma {:induction false} SumOfShares(s: seq<real>, t: seq<real>)
    requires s != [] && forall x :: x in t ==> x in s
    ensures MidrankSum(s, t) == Share(HalvesSum(s, t), 2 * |s|)
  {
    if t == [] {
      ShareBounds(0, 0, 2 * |s|);
    } else {
      SumOfShares(s, t[1..]);
      MidrankMeaning(s, t[0]);
      ShareAdds(Halves(s, t[0]), HalvesSum(s, t[1..]), 2 * |s|);
    }
  }

  lemma SquareOverTwice(n: nat)
    requires n > 0
    ensures Share(n * n, 2 * n) == n as real / 2.0
  {
    var m := n as real;
    assert (n * n) as real == m * m && (2 * n) as real == 2.0 * m;
    Reals.QuotientIs(m / 2.0, m * m, 2.0 * m);
  }

  /** The safety percentiles of a city's N cells sum to exactly N/2. */
  lemma {:induction false} MidranksSumToHalf(s: seq<real>)
    requires s != []
    ensures MidrankSum(s, s) == |s| as real / 2.0
  {
    SumOfShares(s, s);
    HalvesTotal(s);
    SquareOverTwice(|s|);
  }

  /** A higher rate has the smaller percentile and the earlier rank. */
  lemma RateOrders(s: seq<real>, x: real, y: real)
    requires x in s && y in s && x <= y
    ensures Midrank(s, x) >= Midrank(s, y) && RankDesc(s, x) >= RankDesc(s, y)
  {
    hide Midrank;
    MidrankOrders(s, x, y);
    if x < y {
      LowerHasMoreAbove(s, x, y);
    }
  }

  // ---- tiers

  /** The safety tier's thresholds, for a cell with something reported. */
  function SafetyTier(n: nat, pct: real): nat {
    if n == 0 then 0
    else if pct < 0.25 then 1
    else if pct < 0.50 then 2
    else if pct < 0.75 then 3
    else 4
  }

  function ActivityTier(n: nat, pr: real): nat {
    if n == 0 then 0
    else if pr < 0.20 then 1
    else if pr < 0.40 then 2
    else if pr < 0.60 then 3
    else if pr < 0.80 then 4
    else 5
  }

  // ---- the safety ranking of one track, and the same ranking at a given time

  datatype Rated = Rated(cell: string, n: nat, rate: real)
  datatype Ranked = Ranked(cell: string, pct: real, rank: nat, tier: nat)

  function Rates(rows: seq<Rated>): (r: seq<real>)
    ensures |r| == |rows| && forall i :: 0 <= i < |rows| ==> r[i] == rows[i].rate
  {
    if rows == [] then [] else [rows[0].rate] + Rates(rows[1..])
  }

  /** SAFETY_RANKED's `ranked` and its tier column. */
  function RankSafety(rows: seq<Rated>): (r: seq<Ranked>)
    ensures |r| == |rows|
  {
    var rates := Rates(rows);
    seq(|rows|, i requires 0 <= i < |rows| =>
      var pct := Midrank(rates, rows[i].rate);
      Ranked(rows[i].cell, pct, RankDesc(rates, rows[i].rate), SafetyTier(rows[i].n, pct)))
  }

  /** Safer-ranked cells never have a higher rate, and among cells with reports the
      tier follows the rate. */
  lemma TierFollowsRate(rows: seq<Rated>, i: nat, j: nat)
    requires i < |rows| && j < |rows| && rows[i].n > 0 && rows[j].n > 0 && rows[i].rate <= rows[j].rate
    ensures RankSafety(rows)[i].tier >= RankSafety(rows)[j].tier >= 1
    ensures RankSafety(rows)[i].rank >= RankSafety(rows)[j].rank
  {
    var x, y := rows[i].rate, rows[j].rate;
    hide Above, Ties, Below, Midrank, RankDesc;
    assert x == Rates(rows)[i] && y == Rates(rows)[j];
    RateOrders(Rates(rows), x, y);
  }

  /** Tier 0 says nothing was reported, which is no claim about safety; the others are
      the quarters of the city's percentiles. */
  lemma TierIsQuarter(rows: seq<Rated>, i: nat)
    requires i < |rows|
    ensures var r := RankSafety(rows)[i];
      && 0.0 < r.pct < 1.0 && r.tier <= 4
      && (r.tier == 0 <==> rows[i].n == 0)
      && (r.tier > 0 ==> (r.tier - 1) as real <= 4.0 * r.pct < r.tier as real)
  {
    assert rows[i].rate == Rates(rows)[i];
    MidrankMeaning(Rates(rows), rows[i].rate);
  }

  /** A `timed` row: the stored rate and tier, the hour's rate where an hour was
      asked for and built, and the weekday factor where built. */
  datatype Timed = Timed(cell: string, smoothed: real, baseTier: nat, hourRate: Option<real>, dayFactor: Option<real>)

  function TimedRate(t: Timed): real {
    (if t.hourRate.Some? then t.hourRate.value else t.smoothed)
    * (if t.dayFactor.Some? then t.dayFactor.value else 1.0)
  }

  function TimedRates(rows: seq<Timed>): (r: seq<real>)
    ensures |r| == |rows| && forall i :: 0 <= i < |rows| ==> r[i] == TimedRate(rows[i])
  {
    if rows == [] then [] else [TimedRate(rows[0])] + TimedRates(rows[1..])
  }

  /** `timed_ranked` and `timed_tiered`. */
  function RankTimed(rows: seq<Timed>): (r: seq<Ranked>)
    ensures |r| == |rows|
  {
    var rates := TimedRates(rows);
    seq(|rows|, i requires 0 <= i < |rows| =>
      var pct := Midrank(rates, rates[i]);
      Ranked(rows[i].cell, pct, RankDesc(rates, rates[i]), SafetyTier(rows[i].baseTier, pct)))
  }

  /** Every cell's timed row, for no hour and day factors `factors`. */
  function AllDay(rows: seq<Rated>, factors: seq<Option<real>>): (r: seq<Timed>)
    requires |factors| == |rows|
    ensures |r| == |rows|
  {
    seq(|rows|, i requires 0 <= i < |rows| =>
      Timed(rows[i].cell, rows[i].rate, RankSafety(rows)[i].tier, None, factors[i]))
  }

  lemma {:induction false} CountsOnlyOrder(s: seq<real>, t: seq<real>, x: real, y: real)
    requires |s| == |t|
    requires forall i :: 0 <= i < |s| ==> (s[i] > x <==> t[i] > y) && (s[i] == x <==> t[i] == y)
    ensures Above(s, x) == Above(t, y) && Ties(s, x) == Ties(t, y)
  {
    if s != [] {
      assert forall i :: 0 <= i < |s| - 1 ==> s[1..][i] == s[i + 1] && t[1..][i] == t[i + 1];
      CountsOnlyOrder(s[1..], t[1..], x, y);
    }
  }

  lemma SameOrderSameRank(s: seq<real>, t: seq<real>, i: nat)
    requires |s| == |t| && i < |s|
    requires forall j :: 0 <= j < |s| ==> (s[j] > s[i] <==> t[j] > t[i]) && (s[j] == s[i] <==> t[j] == t[i])
    ensures Midrank(s, s[i]) == Midrank(t, t[i]) && RankDesc(s, s[i]) == RankDesc(t, t[i])
  {
    CountsOnlyOrder(s, t, s[i], t[i]);
  }

  lemma ScaleOrders(a: real, b: real, k: real)
    requires k > 0.0
    ensures (a * k > b * k <==> a > b) && (a * k == b * k <==> a == b)
  {
    if a > b {
      assert (a - b) * k > 0.0;
    } else if a < b {
      assert (b - a) * k > 0.0;
    }
  }

  /** The timed rows order the cells as the stored rates do. */
  ghost predicate SameOrder(rows: seq<Rated>, timed: seq<Timed>) {
    && |timed| == |rows|
    && forall i, j :: 0 <= i < |rows| && 0 <= j < |rows| ==>
         && (Rates(rows)[j] > Rates(rows)[i] <==> TimedRates(timed)[j] > TimedRates(timed)[i])
         && (Rates(rows)[j] == Rates(rows)[i] <==> TimedRates(timed)[j] == TimedRates(timed)[i])
  }

  lemma SameOrderSameRow(rows: seq<Rated>, timed: seq<Timed>, i: nat)
    requires SameOrder(rows, timed) && i < |rows|
    requires timed[i].cell == rows[i].cell && timed[i].baseTier == RankSafety(rows)[i].tier
    ensures RankTimed(timed)[i] == RankSafety(rows)[i]
  {
    SameOrderSameRank(Rates(rows), TimedRates(timed), i);
  }

  lemma SameOrderSameRanking(rows: seq<Rated>, factors: seq<Option<real>>)
    requires |factors| == |rows| && SameOrder(rows, AllDay(rows, factors))
    ensures RankTimed(AllDay(rows, factors)) == RankSafety(rows)
  {
    forall i: nat | i < |rows| {
      SameOrderSameRow(rows, AllDay(rows, factors), i);
    }
  }

  /** A weekday on which every factor is 1 (or not built) reproduces the stored
      percentile, rank and tier of every cell. */
  lemma TimedReproducesStored(rows: seq<Rated>, factors: seq<Option<real>>)
    requires |factors| == |rows|
    requires forall i :: 0 <= i < |rows| ==> factors[i] == None || factors[i] == Some(1.0)
    ensures RankTimed(AllDay(rows, factors)) == RankSafety(rows)
  {
    assert TimedRates(AllDay(rows, factors)) == Rates(rows);
    SameOrderSameRanking(rows, factors);
  }

  /** Where the hour is built, the timed ranking is that of the hour's rates, each times its
      weekday's factor: the stored all-hours rates count for nothing. */
  lemma TimedRanksTheHour(timed: seq<Timed>, hours: seq<real>, factors: seq<real>, rows: seq<Rated>)
    requires |hours| == |factors| == |rows| == |timed|
    requires forall i :: 0 <= i < |timed| ==>
      && timed[i].hourRate == Some(hours[i])
      && (timed[i].dayFactor == Some(factors[i]) || (timed[i].dayFactor == None && factors[i] == 1.0))
    requires forall i :: 0 <= i < |timed| ==>
      rows[i].rate == hours[i] * factors[i] && rows[i].cell == timed[i].cell && rows[i].n == timed[i].baseTier
    ensures RankTimed(timed) == RankSafety(rows)
  {
    hide Midrank, RankDesc, SafetyTier;
    forall i | 0 <= i < |rows| ensures TimedRates(timed)[i] == Rates(rows)[i] {
      TimedRateOf(timed[i], hours[i], factors[i]);
    }
    assert TimedRates(timed) == Rates(rows);
  }

  lemma TimedRateOf(t: Timed, hour: real, factor: real)
    requires t.hourRate == Some(hour) && (t.dayFactor == Some(factor) || (t.dayFactor == None && factor == 1.0))
    ensures TimedRate(t) == hour * factor
  {
  }

  lemma TimedRateScaled(t: Timed, k: real)
    requires t.hourRate == None && t.dayFactor == Some(k)
    ensures TimedRate(t) == t.smoothed * k
  {
  }

  /** Only differences between cells' factors can move the ranking: one positive
      factor for the whole city changes no percentile, rank or tier. */
  lemma UniformFactorMovesNothing(rows: seq<Rated>, factors: seq<Option<real>>, k: real)
    requires k > 0.0 && |factors| == |rows|
    requires forall i :: 0 <= i < |rows| ==> factors[i] == Some(k)
    ensures RankTimed(AllDay(rows, factors)) == RankSafety(rows)
  {
    hide RankTimed, RankSafety, Midrank, RankDesc, TimedRate;
    var timed := AllDay(rows, factors);
    forall i, j | 0 <= i < |rows| && 0 <= j < |rows|
      ensures Rates(rows)[j] > Rates(rows)[i] <==> TimedRates(timed)[j] > TimedRates(timed)[i]
      ensures Rates(rows)[j] == Rates(rows)[i] <==> TimedRates(timed)[j] == TimedRates(timed)[i]
    {
      ScaledPair(timed[i], timed[j], k);
    }
    SameOrderSameRanking(rows, factors);
  }

  lemma ScaledPair(a: Timed, b: Timed, k: real)
    requires k > 0.0 && a.hourRate == b.hourRate == None && a.dayFactor == b.dayFactor == Some(k)
    ensures b.smoothed > a.smoothed <==> TimedRate(b) > TimedRate(a)
    ensures b.smoothed == a.smoothed <==> TimedRate(b) == TimedRate(a)
  {
    TimedRateScaled(a, k);
    TimedRateScaled(b, k);
    ScaleOrders(b.smoothed, a.smoothed, k);
  }

  // ---- the activity ranking, partitioned by category

  datatype Category = All | Violent | Property | QualityOfLife | Other

  /** An `unpivoted` row. */
  datatype Activity = Activity(cell: string, area: real, category: Category, n: nat)

  type ActivityRow = a: Activity | a.area > 0.0 witness Activity("", 1.0, All, 0)

  function Density(a: ActivityRow): real { a.n as real / a.area }

  /** The rows whose category is asked for. */
  function Among(rows: seq<ActivityRow>, categories: set<Category>): seq<ActivityRow> {
    if rows == [] then []
    else if rows[0].category in categories then [rows[0]] + Among(rows[1..], categories)
    else Among(rows[1..], categories)
  }

  function Densities(rows: seq<ActivityRow>, category: Category): seq<real> {
    if rows == [] then []
    else if rows[0].category == category then [Density(rows[0])] + Densities(rows[1..], category)
    else Densities(rows[1..], category)
  }

  datatype ActivityRanked = ActivityRanked(
    row: ActivityRow, density: real, percentile: real, rank: nat, total: nat, tier: nat)

  /** One output row of ACTIVITY_RANKED, its windows taken over `all`. */
  function RankOne(all: seq<ActivityRow>, a: ActivityRow): ActivityRanked {
    var column := Densities(all, a.category);
    var pr := PercentRank(column, Density(a));
    ActivityRanked(a, Density(a), pr, RankDesc(column, Density(a)), |column|, ActivityTier(a.n, pr))
  }

  function RankRows(all: seq<ActivityRow>, rows: seq<ActivityRow>): seq<ActivityRanked> {
    if rows == [] then [] else [RankOne(all, rows[0])] + RankRows(all, rows[1..])
  }

  /** ACTIVITY_RANKED with its WHERE category = ANY(categories) ahead of the windows. */
  function RankActivity(rows: seq<ActivityRow>, categories: set<Category>): seq<ActivityRanked> {
    RankRows(Among(rows, categories), Among(rows, categories))
  }

  /** The same WHERE, applied to the finished ranking. */
  function Keep(ranked: seq<ActivityRanked>, categories: set<Category>): seq<ActivityRanked> {
    if ranked == [] then []
    else if ranked[0].row.category in categories then [ranked[0]] + Keep(ranked[1..], categories)
    else Keep(ranked[1..], categories)
  }

  lemma {:induction false} FilterKeepsColumn(rows: seq<ActivityRow>, categories: set<Category>, category: Category)
    requires category in categories
    ensures Densities(Among(rows, categories), category) == Densities(rows, category)
  {
    if rows != [] {
      FilterKeepsColumn(rows[1..], categories, category);
      if rows[0].category in categories {
        assert Among(rows, categories)[1..] == Among(rows[1..], categories);
      }
    }
  }

  lemma {:induction false} FilterThenRank(all: seq<ActivityRow>, rows: seq<ActivityRow>, categories: set<Category>)
    ensures RankRows(Among(all, categories), Among(rows, categories)) == Keep(RankRows(all, rows), categories)
  {
    if rows != [] {
      FilterThenRank(all, rows[1..], categories);
      if rows[0].category in categories {
        FilterKeepsColumn(all, categories, rows[0].category);
        assert Among(rows, categories)[1..] == Among(rows[1..], categories);
      }
    }
  }

  /** Dropping categories before ranking gives what dropping them afterwards would:
      the map, which asks for one category, and the cell panel, which asks for all
      of them, give a cell the same percentile, rank, total and tier. */
  lemma {:induction false} FilterCommutesWithRanking(rows: seq<ActivityRow>, some: set<Category>, more: set<Category>)
    requires some <= more
    ensures RankActivity(rows, some) == Keep(RankActivity(rows, more), some)
  {
    FilterThenRank(Among(rows, more), Among(rows, more), some);
    AmongTwice(rows, some, more);
  }

  lemma {:induction false} AmongTwice(rows: seq<ActivityRow>, some: set<Category>, more: set<Category>)
    requires some <= more
    ensures Among(Among(rows, more), some) == Among(rows, some)
  {
    if rows != [] {
      AmongTwice(rows[1..], some, more);
      if rows[0].category in more {
        assert Among(rows, more)[1..] == Among(rows[1..], more);
      }
    }
  }

  lemma {:induction false} InColumn(all: seq<ActivityRow>, a: ActivityRow)
    requires a in all
    ensures Density(a) in Densities(all, a.category)
  {
    if all[0] != a {
      InColumn(all[1..], a);
    }
  }

  lemma PercentRankOrders(s: seq<real>, x: real, y: real)
    requires x in s && y in s
    ensures 0.0 <= PercentRank(s, x) <= 1.0
    ensures x < y ==> PercentRank(s, x) < PercentRank(s, y)
  {
    Trichotomy(s, x);
    Trichotomy(s, y);
    TiesIffPresent(s, x);
    TiesIffPresent(s, y);
    if x < y {
      LowerHasMoreAbove(s, x, y);
    }
    if |s| > 1 {
      ShareBounds(0, Below(s, x), |s| - 1);
      ShareBounds(Below(s, x), |s| - 1, |s| - 1);
      ShareBounds(Below(s, x), Below(s, y), |s| - 1);
    }
  }

  /** The activity percentile is the share of the other cells that are less dense:
      between 0 and 1, equal for ties, strictly rising with density, and 0 for the
      whole block of least dense cells. */
  lemma {:induction false} PercentileMeaning(all: seq<ActivityRow>, a: ActivityRow, b: ActivityRow)
    requires a in all && b in all && a.category == b.category
    ensures 0.0 <= RankOne(all, a).percentile <= 1.0
    ensures Density(a) == Density(b) ==>
        RankOne(all, a).percentile == RankOne(all, b).percentile && RankOne(all, a).rank == RankOne(all, b).rank
    ensures Density(a) < Density(b) ==>
        RankOne(all, a).percentile < RankOne(all, b).percentile && RankOne(all, a).rank > RankOne(all, b).rank
    ensures (forall x :: x in Densities(all, a.category) ==> x >= Density(a)) ==> RankOne(all, a).percentile == 0.0
  {
    var s, x, y := Densities(all, a.category), Density(a), Density(b);
    InColumn(all, a);
    InColumn(all, b);
    PercentRankOrders(s, x, y);
    TiesIffPresent(s, y);
    if x < y {
      LowerHasMoreAbove(s, x, y);
    }
    if forall v :: v in s ==> v >= x {
      NoneBelow(s, x);
    }
  }

  // ---- the activity ranking in the counts and areas themselves

  function Count(rows: seq<ActivityRow>, p: ActivityRow -> bool): nat {
    if rows == [] then 0 else (if p(rows[0]) then 1 else 0) + Count(rows[1..], p)
  }

  /** `r` is of `a`'s category with fewer incidents for its area. */
  predicate LessDense(r: Activity, a: Activity) {
    r.category == a.category && r.n as real * a.area < a.n as real * r.area
  }

  lemma DensityOrders(r: ActivityRow, a: ActivityRow)
    requires r.category == a.category
    ensures LessDense(r, a) <==> Density(r) < Density(a)
  {
    var x, y, k := Density(r), Density(a), r.area * a.area;
    assert x * r.area == r.n as real && y * a.area == a.n as real;
    assert r.n as real * a.area == x * k && a.n as real * r.area == y * k;
    ScaleOrders(y, x, k);
  }

  lemma {:induction false} ColumnCounts(rows: seq<ActivityRow>, a: ActivityRow)
    ensures var column := Densities(rows, a.category);
      && |column| == Count(rows, (r: ActivityRow) => r.category == a.category)
      && Below(column, Density(a)) == Count(rows, (r: ActivityRow) => LessDense(r, a))
      && Above(column, Density(a)) == Count(rows, (r: ActivityRow) => LessDense(a, r))
  {
    hide LessDense, Density;
    if rows != [] {
      ColumnCounts(rows[1..], a);
      if rows[0].category == a.category {
        DensityOrders(rows[0], a);
        DensityOrders(a, rows[0]);
      } else {
        OtherCategory(rows[0], a);
      }
    }
  }

  lemma OtherCategory(r: ActivityRow, a: ActivityRow)
    requires r.category != a.category
    ensures !LessDense(r, a) && !LessDense(a, r)
  {
  }

  /** What a row of the activity ranking says, in counts and areas: of the cells of its
      category, how many there are, that one more than the denser ones is its rank, and
      which share of the others is less dense. */
  lemma {:induction false} ActivityInCounts(all: seq<ActivityRow>, a: ActivityRow)
    requires a in all
    ensures var r := RankOne(all, a);
      && r.row == a && r.density * a.area == a.n as real
      && r.total == Count(all, (x: ActivityRow) => x.category == a.category)
      && r.rank == 1 + Count(all, (x: ActivityRow) => LessDense(a, x))
      && (r.total > 1 ==>
            r.percentile * (r.total - 1) as real == Count(all, (x: ActivityRow) => LessDense(x, a)) as real)
      && (r.total == 1 ==> r.percentile == 0.0)
  {
    hide LessDense, Below, Above, ActivityTier, PercentRank, Densities;
    ColumnCounts(all, a);
    InColumn(all, a);
    PercentRankShare(Densities(all, a.category), Density(a));
    DensityTimesArea(a);
  }

  lemma {:induction false} PercentRankShare(s: seq<real>, x: real)
    ensures |s| > 1 ==> PercentRank(s, x) * (|s| - 1) as real == Below(s, x) as real
    ensures |s| <= 1 ==> PercentRank(s, x) == 0.0
  {
    hide Below;
    if |s| > 1 {
      Reals.Quotient(Below(s, x) as real, (|s| - 1) as real);
    }
  }

  lemma DensityTimesArea(a: ActivityRow)
    ensures Density(a) * a.area == a.n as real
  {
  }

  lemma {:induction false} AmongIs(rows: seq<ActivityRow>, categories: set<Category>)
    ensures forall a :: a in Among(rows, categories) <==> a in rows && a.category in categories
    ensures |Among(rows, categories)| == Count(rows, (a: ActivityRow) => a.category in categories)
  {
    if rows != [] {
      AmongIs(rows[1..], categories);
      assert forall a :: a in rows <==> a == rows[0] || a in rows[1..];
    }
  }

  lemma {:induction false} RankRowsAt(all: seq<ActivityRow>, rows: seq<ActivityRow>, i: nat)
    ensures |RankRows(all, rows)| == |rows|
    ensures i < |rows| ==> RankRows(all, rows)[i] == RankOne(all, rows[i])
  {
    if rows != [] {
      RankRowsAt(all, rows[1..], if i == 0 then 0 else i - 1);
    }
  }

  /** The ranking has a row for each row of the categories asked for and no other, and
      each says what its counts and areas make of all rows given. */
  lemma {:induction false} ActivityRows(rows: seq<ActivityRow>, categories: set<Category>, a: ActivityRow)
    requires a in rows && a.category in categories
    ensures var ranked := RankActivity(rows, categories);
      && |ranked| == Count(rows, (x: ActivityRow) => x.category in categories)
      && exists r :: r in ranked && r.row == a
           && r.total == Count(rows, (x: ActivityRow) => x.category == a.category)
           && r.rank == 1 + Count(rows, (x: ActivityRow) => LessDense(a, x))
           && (r.total > 1 ==>
                 r.percentile * (r.total - 1) as real == Count(rows, (x: ActivityRow) => LessDense(x, a)) as real)
  {
    hide RankOne, LessDense, Count;
    var some, ranked := Among(rows, categories), RankActivity(rows, categories);
    AmongIs(rows, categories);
    var i :| 0 <= i < |some| && some[i] == a;
    RankRowsAt(some, some, i);
    FilterKeepsColumn(rows, categories, a.category);
    SameColumnSameRow(some, rows, a);
    ActivityInCounts(rows, a);
    assert ranked[i] in ranked;
  }

  lemma {:induction false} SameColumnSameRow(some: seq<ActivityRow>, all: seq<ActivityRow>, a: ActivityRow)
    requires Densities(some, a.category) == Densities(all, a.category)
    ensures RankOne(some, a) == RankOne(all, a)
  {
  }

  /** Likewise for activity, whose tiers are fifths, the densest cell's closed. */
  lemma TierIsFifth(all: seq<ActivityRow>, a: ActivityRow)
    requires a in all
    ensures var r := RankOne(all, a);
      && r.tier <= 5
      && (r.tier == 0 <==> a.n == 0)
      && (r.tier > 0 ==> (r.tier - 1) as real <= 5.0 * r.percentile)
      && (0 < r.tier < 5 ==> 5.0 * r.percentile < r.tier as real)
  {
    PercentileMeaning(all, a, a);
  }

  lemma {:induction false} NoneBelow(s: seq<real>, x: real)
    requires forall v :: v in s ==> v >= x
    ensures Below(s, x) == 0
  {
    if s != [] {
      assert s[0] in s;
      forall v | v in s[1..] ensures v >= x {
        assert v in s;
      }
      NoneBelow(s[1..], x);
    }
  }
}
