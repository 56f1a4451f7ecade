/** The rate a cell is ranked by (safety/ranking_sql.py): its own weighted offences
    per unit of exposure, shrunk toward the city's and blended with its neighbours'. */
module Shrinkage {
  import opened Wrappers
  import opened Reals
  import Ranking

  /** One cell of one track: its denominator and its severity-weighted total. */
  datatype Cell = Cell(exposure: real, w: real)

  type City = s: seq<Cell> | forall i :: 0 <= i < |s| ==> s[i].exposure >= 0.0

  function SumW(cells: seq<Cell>): real {
    if cells == [] then 0.0 else cells[0].w + SumW(cells[1..])
  }

  function SumE(cells: seq<Cell>): real {
    if cells == [] then 0.0 else cells[0].exposure + SumE(cells[1..])
  }

  /** COALESCE(sum(w) / NULLIF(sum(exposure), 0), 0). */
  function CityRate(cells: seq<Cell>): real {
    if SumE(cells) == 0.0 then 0.0 else SumW(cells) / SumE(cells)
  }

  /** The posterior rate; NULL where exposure and prior are both zero. */
  function Posterior(c: Cell, cityRate: real, prior: real): Option<real> {
    if c.exposure + prior == 0.0 then None
    else Some((c.w + Times(cityRate, prior)) / (c.exposure + prior))
  }

  /** The same with a positive prior, which makes every cell rankable. */
  function Adjusted(c: Cell, cityRate: real, prior: real): (r: real)
    requires prior > 0.0 && c.exposure >= 0.0
    ensures Posterior(c, cityRate, prior) == Some(r)
  {
    (c.w + Times(cityRate, prior)) / (c.exposure + prior)
  }

  // ---- the city's exposure

  lemma {:induction false} SumEAtLeast(cells: City, i: nat)
    requires i < |cells|
    ensures SumE(cells) >= cells[i].exposure >= 0.0
  {
    if i > 0 {
      SumEAtLeast(cells[1..], i - 1);
    }
    SumENonnegative(cells[1..]);
  }

  lemma {:induction false} SumENonnegative(cells: City)
    ensures SumE(cells) >= 0.0
  {
    if cells != [] {
      SumENonnegative(cells[1..]);
    }
  }

  // ---- shrinking conserves the city's total

  /** The adjusted rates, each over its exposure plus the prior, summed. */
  function AdjustedTotal(cells: City, rate: real, prior: real): real
    requires prior > 0.0
  {
    if cells == [] then 0.0
    else Times(Adjusted(cells[0], rate, prior), cells[0].exposure + prior) + AdjustedTotal(cells[1..], rate, prior)
  }

  /** The exposures, each with the prior added, summed. */
  function ExposureTotal(cells: City, prior: real): real {
    if cells == [] then 0.0 else cells[0].exposure + prior + ExposureTotal(cells[1..], prior)
  }

  lemma {:induction false} AdjustedTotalIs(cells: City, rate: real, prior: real)
    requires prior > 0.0
    ensures AdjustedTotal(cells, rate, prior) == SumW(cells) + Times(rate, ExposureTotal(cells, prior) - SumE(cells))
  {
    hide Times;
    Units(rate);
    if cells != [] {
      var c, rest := cells[0], cells[1..];
      AdjustedTotalIs(rest, rate, prior);
      Quotient(c.w + Times(rate, prior), c.exposure + prior);
      var x := ExposureTotal(rest, prior) - SumE(rest);
      assert ExposureTotal(cells, prior) - SumE(cells) == prior + x;
      Distribute(rate, prior, x);
    }
  }

  /** Shrinking moves rate between cells without creating any: weighted by exposure
      plus prior, the adjusted rates still average to the city's rate. */
  lemma {:induction false} ShrinkingConserves(cells: City, prior: real)
    requires prior > 0.0 && SumE(cells) > 0.0
    ensures AdjustedTotal(cells, CityRate(cells), prior) == Times(CityRate(cells), ExposureTotal(cells, prior))
  {
    hide Times;
    var rate, t, e := CityRate(cells), ExposureTotal(cells, prior), SumE(cells);
    AdjustedTotalIs(cells, rate, prior);
    Quotient(SumW(cells), e);
    Distribute(rate, t - e, e);
  }

  // ---- each adjusted rate lies between the cell's own and the city's

  predicate Between(x: real, a: real, b: real) {
    (a <= x <= b) || (b <= x <= a)
  }

  lemma Bracketed(c: Cell, rate: real, prior: real)
    requires prior > 0.0 && c.exposure >= 0.0
    ensures c.exposure > 0.0 ==> Between(Adjusted(c, rate, prior), c.w / c.exposure, rate)
    ensures c.exposure == 0.0 ==> Adjusted(c, rate, prior) == rate + c.w / prior
  {
    hide Times;
    var e, n, a := c.exposure, c.exposure + prior, c.w + Times(rate, prior);
    if e > 0.0 {
      var own := c.w / e;
      Quotient(c.w, e);
      Distribute(own, e, prior);
      Distribute(rate, e, prior);
      if own <= rate {
        Scale(own, rate, prior);
        Scale(own, rate, e);
        QuotientBetween(a, n, own, rate);
      } else {
        Scale(rate, own, prior);
        Scale(rate, own, e);
        QuotientBetween(a, n, rate, own);
      }
    } else {
      Quotient(c.w, prior);
      Distribute(prior, rate, c.w / prior);
      QuotientIs(rate + c.w / prior, a, n);
    }
  }

  // ---- more offences in a cell never make it look safer against another

  function Raised(cells: City, c: nat, d: real): City
    requires c < |cells|
  {
    cells[c := cells[c].(w := cells[c].w + d)]
  }

  lemma {:induction false} RaisedSums(cells: City, c: nat, d: real)
    requires c < |cells|
    ensures SumW(Raised(cells, c, d)) == SumW(cells) + d && SumE(Raised(cells, c, d)) == SumE(cells)
  {
    if c > 0 {
      RaisedSums(cells[1..], c - 1, d);
      assert Raised(cells, c, d)[1..] == Raised(cells[1..], c - 1, d);
    } else {
      assert Raised(cells, c, d)[1..] == cells[1..];
    }
  }

  /** What raising the city's rate by `r`, and a cell's own total by `d`, adds to
      the adjusted rate of a cell of exposure `e`. */
  function Rise(e: real, d: real, r: real, prior: real): real
    requires prior > 0.0 && e >= 0.0
  {
    (d + Times(r, prior)) / (e + prior)
  }

  lemma AdjustedRise(c: Cell, c': Cell, rate: real, rate': real, prior: real)
    requires prior > 0.0 && c.exposure >= 0.0 && c'.exposure == c.exposure
    ensures Adjusted(c', rate', prior) == Adjusted(c, rate, prior) + Rise(c.exposure, c'.w - c.w, rate' - rate, prior)
  {
    hide Times;
    Distribute(prior, rate, rate' - rate);
    assert rate + (rate' - rate) == rate';
    QuotientAdds(c.w + Times(rate, prior), (c'.w - c.w) + Times(rate' - rate, prior), c.exposure + prior);
  }

  /** What `d` more weight anywhere adds to the city's rate: nothing where there is no
      exposure to divide by. */
  function CityRise(cells: City, d: real): real {
    if SumE(cells) == 0.0 then 0.0 else d / SumE(cells)
  }

  lemma CityRateRise(cells: City, c: nat, d: real)
    requires c < |cells|
    ensures CityRate(Raised(cells, c, d)) == CityRate(cells) + CityRise(cells, d)
  {
    RaisedSums(cells, c, d);
    SumENonnegative(cells);
    if SumE(cells) > 0.0 {
      QuotientAdds(SumW(cells), d, SumE(cells));
    }
  }

  lemma {:induction false} CityRiseBounds(cells: City, d: real)
    requires d >= 0.0
    ensures CityRise(cells, d) >= 0.0 && Times(CityRise(cells, d), SumE(cells)) <= d
  {
    SumENonnegative(cells);
    Units(SumE(cells));
    if SumE(cells) > 0.0 {
      QuotientSign(d, SumE(cells));
      Quotient(d, SumE(cells));
    }
  }

  /** Raising one cell's weighted total by `d` raises its own adjusted rate by at least
      what the city's rises and any other cell's by at most that: although the city's
      rate moves too, the gap to every other cell never shrinks. */
  lemma RaisingWidensEveryGap(cells: City, c: nat, j: nat, d: real, prior: real)
    requires prior > 0.0 && d >= 0.0
    requires c < |cells| && j < |cells| && c != j
    ensures var cells' := Raised(cells, c, d);
      var rate, rate' := CityRate(cells), CityRate(cells');
      && rate' - rate == CityRise(cells, d)
      && Adjusted(cells'[c], rate', prior) - Adjusted(cells[c], rate, prior) >= rate' - rate
      && 0.0 <= Adjusted(cells'[j], rate', prior) - Adjusted(cells[j], rate, prior) <= rate' - rate
      && Adjusted(cells'[c], rate', prior) - Adjusted(cells'[j], rate', prior)
           >= Adjusted(cells[c], rate, prior) - Adjusted(cells[j], rate, prior)
  {
    hide CityRate, Adjusted, Rise, CityRise, Times;
    var cells' := Raised(cells, c, d);
    var rate, rate' := CityRate(cells), CityRate(cells');
    CityRateRise(cells, c, d);
    CityRiseBounds(cells, d);
    AdjustedRise(cells[c], cells'[c], rate, rate', prior);
    AdjustedRise(cells[j], cells'[j], rate, rate', prior);
    SumEAtLeast(cells, c);
    OwnRise(cells[c].exposure, SumE(cells), d, rate' - rate, prior);
    OtherRise(cells[j].exposure, rate' - rate, prior);
  }

  lemma OwnRise(e: real, total: real, d: real, r: real, prior: real)
    requires prior > 0.0 && 0.0 <= e <= total && r >= 0.0 && Times(r, total) <= d
    ensures Rise(e, d, r, prior) >= r
  {
    hide Times;
    Scale(e, total, r);
    Distribute(r, e, total);
    Distribute(r, e, prior);
    QuotientAtLeast(d + Times(r, prior), e + prior, r);
  }

  lemma OtherRise(e: real, r: real, prior: real)
    requires prior > 0.0 && e >= 0.0 && r >= 0.0
    ensures 0.0 <= Rise(e, 0.0, r, prior) <= r
  {
    hide Times;
    Sign(r, e);
    Sign(r, prior);
    Distribute(r, e, prior);
    QuotientSign(0.0 + Times(r, prior), e + prior);
    QuotientAtMost(0.0 + Times(r, prior), e + prior, r);
  }

  /** The column of adjusted rates. */
  function AdjustedRates(cells: City, rate: real, prior: real): (r: seq<real>)
    requires prior > 0.0
    ensures |r| == |cells| && forall i :: 0 <= i < |cells| ==> r[i] == Adjusted(cells[i], rate, prior)
  {
    if cells == [] then [] else [Adjusted(cells[0], rate, prior)] + AdjustedRates(cells[1..], rate, prior)
  }

  /** The column of adjusted rates of a city, around its own rate. */
  function ShrunkRates(cells: City, prior: real): (r: seq<real>)
    requires prior > 0.0
    ensures |r| == |cells|
  {
    AdjustedRates(cells, CityRate(cells), prior)
  }

  lemma {:induction false} HalvesMonotone(s: seq<real>, t: seq<real>, x: real, y: real)
    requires |s| == |t| && forall i :: 0 <= i < |s| ==> s[i] - x >= t[i] - y
    ensures Ranking.Halves(s, x) >= Ranking.Halves(t, y)
  {
    if s != [] {
      assert forall i :: 0 <= i < |s| - 1 ==> s[1..][i] == s[i + 1] && t[1..][i] == t[i + 1];
      HalvesMonotone(s[1..], t[1..], x, y);
    }
  }

  /** So, ranked on the adjusted rates, a cell with more offences never gets a safer
      percentile. */
  lemma RaisingNeverRanksSafer(cells: City, c: nat, d: real, prior: real)
    requires prior > 0.0 && d >= 0.0 && c < |cells|
    ensures var cells' := Raised(cells, c, d);
      var before, after := ShrunkRates(cells, prior), ShrunkRates(cells', prior);
      Ranking.Midrank(after, after[c]) <= Ranking.Midrank(before, before[c])
  {
    var cells' := Raised(cells, c, d);
    var before, after := ShrunkRates(cells, prior), ShrunkRates(cells', prior);
    forall j: nat | j < |cells| ensures before[j] - before[c] >= after[j] - after[c] {
      if j != c {
        RaisingWidensEveryGap(cells, c, j, d, prior);
      }
    }
    HalvesMonotone(before, after, before[c], after[c]);
    MidrankByHalves(before, after, before[c], after[c]);
  }

  lemma MidrankByHalves(s: seq<real>, t: seq<real>, x: real, y: real)
    requires |s| == |t| && x in s && y in t && Ranking.Halves(s, x) >= Ranking.Halves(t, y)
    ensures Ranking.Midrank(t, y) <= Ranking.Midrank(s, x)
  {
    Ranking.MidrankMeaning(s, x);
    Ranking.MidrankMeaning(t, y);
    Ranking.ShareBounds(Ranking.Halves(t, y), Ranking.Halves(s, x), 2 * |s|);
  }

  lemma AdjustedIs(c: Cell, rate: real, prior: real, x: real)
    requires prior > 0.0 && c.exposure >= 0.0 && Times(x, c.exposure + prior) == c.w + Times(rate, prior)
    ensures Adjusted(c, rate, prior) == x
  {
    QuotientIs(x, c.w + Times(rate, prior), c.exposure + prior);
  }
}
