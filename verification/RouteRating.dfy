/** Routes are rated as the map is painted: safety/routing/scoring.py ports the map
    page's city averages and cell ratio to Python, and the two agree. */
module RouteRating {
  import opened Wrappers
  import opened Reals
  import opened Paint
  import RouteScorer

  function AverageOf(city: Option<City>): Option<real> {
    if city.None? then None else Some(city.value.average)
  }

  /** `average_from_sums`. */
  function AverageFromSums(weighted: real, people: real, total: real, painted: nat): Option<real> {
    if painted == 0 then None
    else
      var average := if people > 0.0 then weighted / people else total / painted as real;
      if average > 0.0 then Some(average) else None
  }

  /** `domain_average` is the map page's average over the same rows. */
  method DomainAverage(rows: seq<Cell>, valueKey: string, tierKey: string) returns (average: Option<real>)
    ensures average == AverageOf(Overall(Fallback(valueKey, tierKey), rows))
  {
    var total, painted, weighted, people := 0.0, 0, 0.0, 0.0;
    ghost var ranked := (c: Cell) => OrZero(c, tierKey) != 0.0;
    ghost var all := Samples(rows, valueKey, ranked);
    for i := 0 to |rows|
      invariant total + Sum(Samples(rows[i..], valueKey, ranked)) == Sum(all)
      invariant painted >= 0 && painted + |Samples(rows[i..], valueKey, ranked)| == |all|
      invariant weighted + Weighted(Samples(rows[i..], valueKey, ranked)) == Weighted(all)
      invariant people + People(Samples(rows[i..], valueKey, ranked)) == People(all)
    {
      assert rows[i..][1..] == rows[i + 1..];
      var p := rows[i];
      if OrZero(p, tierKey) == 0.0 {
        continue;
      }
      if Prop(p, valueKey).Null? {
        continue;
      }
      var value := Prop(p, valueKey).n;
      Units(value);
      assert Samples(rows[i..], valueKey, ranked) == [Sampled(p, valueKey)] + Samples(rows[i + 1..], valueKey, ranked);
      total := total + value;
      painted := painted + 1;
      if OrZero(p, "exposure") > 0.0 {
        weighted := weighted + Times(value, OrZero(p, "exposure"));
        people := people + OrZero(p, "exposure");
      }
    }
    average := AverageFromSums(weighted, people, total, painted);
    SamplesSame(rows, valueKey, ranked, c => OrZero(c, tierKey) != 0.0);
  }

  // ---- the averages summed in SQL

  /** A stored rate, its tier and its cell's exposure (NULL where the scheme has none). */
  datatype Stored = Stored(rate: real, tier: int, exposure: Option<real>)

  datatype Sums = Sums(weighted: real, people: real, total: real, painted: nat)

  predicate Counted(s: Stored) { s.exposure.Some? && s.exposure.value > 0.0 }

  /** One of route_baseline's SELECTs over a cell's row, where it has one. */
  function SumUp(rows: seq<Option<Stored>>): Sums {
    if rows == [] then Sums(0.0, 0.0, 0.0, 0)
    else
      var rest := SumUp(rows[1..]);
      if rows[0].None? || rows[0].value.tier == 0 then rest
      else
        var s := rows[0].value;
        Sums(rest.weighted + (if Counted(s) then Times(s.rate, s.exposure.value) else 0.0),
             rest.people + (if Counted(s) then s.exposure.value else 0.0),
             rest.total + s.rate, rest.painted + 1)
  }

  function FromSums(s: Sums): Option<real> { AverageFromSums(s.weighted, s.people, s.total, s.painted) }

  /** The map's feature for a cell carries its stored row under these names, or neither
      where there is none. */
  predicate Shows(c: Cell, valueKey: string, tierKey: string, row: Option<Stored>) {
    match row
    case None => Prop(c, valueKey).Null? && OrZero(c, tierKey) == 0.0
    case Some(s) =>
      && Prop(c, valueKey) == Number(s.rate)
      && (OrZero(c, tierKey) != 0.0 <==> s.tier != 0)
      && (if Counted(s) then OrZero(c, "exposure") == s.exposure.value else OrZero(c, "exposure") <= 0.0)
  }

  predicate ShowsAll(cells: seq<Cell>, valueKey: string, tierKey: string, rows: seq<Option<Stored>>) {
    |rows| == |cells| && forall i :: 0 <= i < |cells| ==> Shows(cells[i], valueKey, tierKey, rows[i])
  }

  lemma {:induction false} SumsOfSamples(cells: seq<Cell>, valueKey: string, tierKey: string, rows: seq<Option<Stored>>,
                                         ranked: Cell -> bool)
    requires ShowsAll(cells, valueKey, tierKey, rows) && forall c :: ranked(c) == (OrZero(c, tierKey) != 0.0)
    ensures var ss, sums := Samples(cells, valueKey, ranked), SumUp(rows);
      sums == Sums(Weighted(ss), People(ss), Sum(ss), |ss|)
  {
    if cells != [] {
      assert forall i :: 0 <= i < |cells| - 1 ==> cells[1..][i] == cells[i + 1] && rows[1..][i] == rows[i + 1];
      SumsOfSamples(cells[1..], valueKey, tierKey, rows[1..], ranked);
      assert Shows(cells[0], valueKey, tierKey, rows[0]);
      if rows[0].Some? {
        Units(rows[0].value.rate);
      }
    }
  }

  /** What the database sums over the stored rows is the average of the layer that
      shows them. */
  lemma {:induction false} BaselineIsLayerAverage(cells: seq<Cell>, valueKey: string, tierKey: string,
                                                  rows: seq<Option<Stored>>)
    requires ShowsAll(cells, valueKey, tierKey, rows)
    ensures FromSums(SumUp(rows)) == AverageOf(Overall(Fallback(valueKey, tierKey), cells))
  {
    var ranked := (c: Cell) => OrZero(c, tierKey) != 0.0;
    SumsOfSamples(cells, valueKey, tierKey, rows, ranked);
    SamplesSame(cells, valueKey, ranked, c => OrZero(c, tierKey) != 0.0);
  }

  // ---- routes and map agree

  predicate SameNumber(p: Property, n: Option<real>) {
    match p
    case Null => n == None
    case Number(x) => n == Some(x)
  }

  predicate NonZero(tier: Option<int>) { tier.Some? && tier.value != 0 }

  /** The feature the map is given and the row a route is scored by carry the same
      figures for the cell. */
  predicate SameFigures(c: Cell, t: Track, q: RouteScorer.Question) {
    && SameNumber(Prop(c, Rate(t)), q.sm)
    && (NonZero(q.tier) <==> OrZero(c, Tier(t)) != 0.0)
    && (q.hour.Some? ==>
          && SameNumber(Prop(c, "h" + Rate(t)), q.hsm)
          && (NonZero(q.htier) <==> OrZero(c, "h" + Tier(t)) != 0.0))
  }

  /** The baseline the question is compared with at its own time. */
  function OwnBaseline(q: RouteScorer.Question, base: RouteScorer.Baseline): Option<real> {
    if q.hour.None? then base.overall
    else if q.day.Some? then RouteScorer.Get(base.timed, (q.hour.value, q.day.value))
    else RouteScorer.Get(base.hourly, q.hour.value)
  }

  /** `_baselines`: the all-hours rows give the overall average, and those of the
      question's own hour and day its own; a group with no average is left out. */
  predicate BaseFrom(base: RouteScorer.Baseline, q: RouteScorer.Question, allHours: seq<Option<Stored>>,
                     timed: seq<Option<Stored>>) {
    && base.overall == FromSums(SumUp(allHours))
    && (q.hour.Some? ==> OwnBaseline(q, base) == FromSums(SumUp(timed)))
  }

  /** A stretch of a route is rated exactly as the map rates the cell it crosses, at any
      time and neutral where it is: for the same figures of the cell, and baselines
      summed over the rows the layer shows. */
  lemma RatedAsPainted(v: View, cells: seq<Cell>, c: Cell, q: RouteScorer.Question, base: RouteScorer.Baseline,
                       allHours: seq<Option<Stored>>, timed: seq<Option<Stored>>)
    requires v.scale.Safety? && (v.Hourly() <==> q.hour.Some?)
    requires SameFigures(c, v.track, q) && BaseFrom(base, q, allHours, timed)
    requires ShowsAll(cells, Rate(v.track), Tier(v.track), allHours)
    requires v.Hourly() ==> ShowsAll(cells, "h" + Rate(v.track), "h" + Tier(v.track), timed)
    ensures var d := MeasureDomain(PaintedMeasure(v), cells);
      (d.Some? ==> Averaged(d.value)) && RouteScorer.CellRatio(q, base) == CellRatio(c, PaintedMeasure(v), d)
  {
    var m := PaintedMeasure(v);
    DomainAveraged(m, cells);
    BaselineIsLayerAverage(cells, Rate(v.track), Tier(v.track), allHours);
    if v.Hourly() {
      BaselineIsLayerAverage(cells, m.valueProp, m.tier, timed);
      OwnIsAverage(v, cells);
    } else {
      OwnIsOverall(v, cells);
    }
  }

  lemma OwnIsAverage(v: View, cells: seq<Cell>)
    requires v.scale.Safety?
    ensures var m := PaintedMeasure(v); Own(m, cells) == Overall(Fallback(m.valueProp, m.tier), cells)
  {
    var m := PaintedMeasure(v);
    SamplesSame(cells, m.valueProp, c => IsPainted(m, c), c => OrZero(c, m.tier) != 0.0);
  }
}
