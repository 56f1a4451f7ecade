/** Date ranges nobody precomputed (safety/api/repository.py): the daily rollup,
    summed over the range, ranked by the stored windows' own statement. */
module RangeQuery {
  import opened Ranking
  import Blending
  import Shrinkage

  type CellId = string
  // A day of the city's calendar.
  type Day = int

  /** A row of silver, with its offence's weight under the active scheme. */
  datatype Incident = Incident(cell: CellId, day: Day, category: Category, weight: real)

  datatype Tally = Tally(all: nat, violent: nat, property: nat, qualityOfLife: nat, other: nat) {
    function Of(c: Category): nat {
      match c
      case All => all
      case Violent => violent
      case Property => property
      case QualityOfLife => qualityOfLife
      case Other => other
    }
  }

  /** The count columns of one gold.cell_daily row; the violent are among all. */
  type Counts = t: Tally | t.violent <= t.all witness Tally(0, 0, 0, 0, 0)

  datatype Daily = Daily(cell: CellId, day: Day, counts: Counts, wViolent: real, wOther: real)

  function OneIf(b: bool): nat { if b then 1 else 0 }

  /** Counting incidents of a cell between two days, both included. */
  function Direct(incidents: seq<Incident>, cell: CellId, c: Category, start: Day, end: Day): nat {
    if incidents == [] then 0
    else
      var i := incidents[0];
      OneIf(i.cell == cell && start <= i.day <= end && (c == All || i.category == c))
        + Direct(incidents[1..], cell, c, start, end)
  }

  /** _RANGE_COUNTS for one cell; zero for a cell with no row, as COALESCE has it. */
  function Range(rows: seq<Daily>, cell: CellId, c: Category, start: Day, end: Day): nat {
    if rows == [] then 0
    else
      (if rows[0].cell == cell && start <= rows[0].day <= end then rows[0].counts.Of(c) else 0)
      + Range(rows[1..], cell, c, start, end)
  }

  // ---- the rollup

  /** One more incident on its cell and day's row. */
  function Bumped(row: Daily, i: Incident): Daily {
    var t, violent := row.counts, i.category == Violent;
    Daily(row.cell, row.day,
      Tally(t.all + 1, t.violent + OneIf(violent), t.property + OneIf(i.category == Property),
            t.qualityOfLife + OneIf(i.category == QualityOfLife), t.other + OneIf(i.category == Other)),
      row.wViolent + (if violent then i.weight else 0.0), row.wOther + (if violent then 0.0 else i.weight))
  }

  /** Grouping by cell and day, an incident at a time. */
  function AddTo(rows: seq<Daily>, i: Incident): seq<Daily> {
    if rows == [] then [Bumped(Daily(i.cell, i.day, Tally(0, 0, 0, 0, 0), 0.0, 0.0), i)]
    else if rows[0].cell == i.cell && rows[0].day == i.day then [Bumped(rows[0], i)] + rows[1..]
    else [rows[0]] + AddTo(rows[1..], i)
  }

  /** gold.cell_daily: one row per cell and day of the days kept. */
  function Rollup(incidents: seq<Incident>, floor: Day, anchor: Day): seq<Daily> {
    if incidents == [] then []
    else if floor <= incidents[0].day <= anchor then AddTo(Rollup(incidents[1..], floor, anchor), incidents[0])
    else Rollup(incidents[1..], floor, anchor)
  }

  predicate OneEach(rows: seq<Daily>) {
    forall i, j :: 0 <= i < j < |rows| ==> rows[i].cell != rows[j].cell || rows[i].day != rows[j].day
  }

  predicate HasRow(rows: seq<Daily>, cell: CellId, day: Day) {
    exists i :: 0 <= i < |rows| && rows[i].cell == cell && rows[i].day == day
  }

  lemma {:induction false} AddHasRow(rows: seq<Daily>, i: Incident, cell: CellId, day: Day)
    ensures HasRow(AddTo(rows, i), cell, day) <==> HasRow(rows, cell, day) || (cell == i.cell && day == i.day)
  {
    hide HasRow;
    var r := AddTo(rows, i);
    HasRowHead(r, cell, day);
    if rows == [] {
      NoRow(cell, day);
      assert r[1..] == [];
    } else {
      HasRowHead(rows, cell, day);
      if rows[0].cell == i.cell && rows[0].day == i.day {
        assert r[1..] == rows[1..];
      } else {
        AddHasRow(rows[1..], i, cell, day);
        assert r[1..] == AddTo(rows[1..], i);
      }
    }
  }

  lemma NoRow(cell: CellId, day: Day)
    ensures !HasRow([], cell, day)
  {
  }

  lemma {:induction false} AddKeepsOne(rows: seq<Daily>, i: Incident)
    requires OneEach(rows)
    ensures OneEach(AddTo(rows, i))
  {
    if rows != [] {
      var r, rest := AddTo(rows, i), rows[1..];
      NotLater(rows);
      OneEachTail(rows);
      if rows[0].cell == i.cell && rows[0].day == i.day {
        assert r[1..] == rest;
      } else {
        AddKeepsOne(rest, i);
        assert r[1..] == AddTo(rest, i);
        AddHasRow(rest, i, rows[0].cell, rows[0].day);
      }
      OneEachCons(r);
    }
  }

  lemma HasRowHead(rows: seq<Daily>, cell: CellId, day: Day)
    requires rows != []
    ensures HasRow(rows, cell, day) <==> (rows[0].cell == cell && rows[0].day == day) || HasRow(rows[1..], cell, day)
  {
    if HasRow(rows[1..], cell, day) {
      var i :| 0 <= i < |rows| - 1 && rows[1..][i].cell == cell && rows[1..][i].day == day;
      assert rows[i + 1].cell == cell && rows[i + 1].day == day;
    }
    if HasRow(rows, cell, day) && !(rows[0].cell == cell && rows[0].day == day) {
      var i :| 0 <= i < |rows| && rows[i].cell == cell && rows[i].day == day;
      assert rows[1..][i - 1].cell == cell && rows[1..][i - 1].day == day;
    }
  }

  lemma NotLater(rows: seq<Daily>)
    requires rows != [] && OneEach(rows)
    ensures !HasRow(rows[1..], rows[0].cell, rows[0].day)
  {
    forall i | 0 <= i < |rows| - 1 ensures rows[1..][i].cell != rows[0].cell || rows[1..][i].day != rows[0].day {
      assert rows[1..][i] == rows[i + 1];
    }
  }

  lemma OneEachTail(rows: seq<Daily>)
    requires rows != [] && OneEach(rows)
    ensures OneEach(rows[1..])
  {
    assert forall k :: 0 <= k < |rows| - 1 ==> rows[1..][k] == rows[k + 1];
  }

  lemma OneEachCons(rows: seq<Daily>)
    requires rows != [] && OneEach(rows[1..]) && !HasRow(rows[1..], rows[0].cell, rows[0].day)
    ensures OneEach(rows)
  {
    forall i, j | 0 <= i < j < |rows| ensures rows[i].cell != rows[j].cell || rows[i].day != rows[j].day {
      assert rows[1..][j - 1] == rows[j];
      if i > 0 {
        assert rows[1..][i - 1] == rows[i];
      }
    }
  }

  /** The rollup has one row for each cell and day with an incident, among the days
      kept, and no other. */
  lemma {:induction false} RollupGroups(incidents: seq<Incident>, floor: Day, anchor: Day, cell: CellId, day: Day)
    ensures OneEach(Rollup(incidents, floor, anchor))
    ensures HasRow(Rollup(incidents, floor, anchor), cell, day)
      <==> floor <= day <= anchor && Direct(incidents, cell, All, day, day) > 0
  {
    if incidents == [] {
      NoRow(cell, day);
    } else {
      RollupGroups(incidents[1..], floor, anchor, cell, day);
      if floor <= incidents[0].day <= anchor {
        AddKeepsOne(Rollup(incidents[1..], floor, anchor), incidents[0]);
        AddHasRow(Rollup(incidents[1..], floor, anchor), incidents[0], cell, day);
      }
    }
  }

  lemma {:induction false} AddRange(rows: seq<Daily>, i: Incident, cell: CellId, c: Category, start: Day, end: Day)
    ensures Range(AddTo(rows, i), cell, c, start, end) == Range(rows, cell, c, start, end)
      + OneIf(i.cell == cell && start <= i.day <= end && (c == All || i.category == c))
  {
    if rows != [] && !(rows[0].cell == i.cell && rows[0].day == i.day) {
      AddRange(rows[1..], i, cell, c, start, end);
      assert AddTo(rows, i)[1..] == AddTo(rows[1..], i);
    } else {
      assert AddTo(rows, i)[1..] == if rows == [] then [] else rows[1..];
    }
  }

  function Later(a: Day, b: Day): Day { if a >= b then a else b }

  function Earlier(a: Day, b: Day): Day { if a <= b then a else b }

  /** Summing the daily rollup over any range counts exactly the incidents of the
      range's days that the rollup keeps. */
  lemma {:induction false} RangeIsDirect(incidents: seq<Incident>, floor: Day, anchor: Day, cell: CellId, c: Category,
                                         start: Day, end: Day)
    ensures Range(Rollup(incidents, floor, anchor), cell, c, start, end)
      == Direct(incidents, cell, c, Later(start, floor), Earlier(end, anchor))
  {
    if incidents != [] {
      RangeIsDirect(incidents[1..], floor, anchor, cell, c, start, end);
      if floor <= incidents[0].day <= anchor {
        AddRange(Rollup(incidents[1..], floor, anchor), incidents[0], cell, c, start, end);
      }
    }
  }

  /** Adjoining ranges add up, so a long range may be read as shorter ones. */
  lemma {:induction false} RangeSplits(rows: seq<Daily>, cell: CellId, c: Category, start: Day, mid: Day, end: Day)
    requires start <= mid + 1 && mid <= end
    ensures Range(rows, cell, c, start, end) == Range(rows, cell, c, start, mid) + Range(rows, cell, c, mid + 1, end)
  {
    if rows != [] {
      RangeSplits(rows[1..], cell, c, start, mid, end);
    }
  }

  // ---- the severity-weighted columns

  datatype Track = ViolentTrack | OtherTrack

  predicate On(t: Track, i: Incident) { (i.category == Violent) == t.ViolentTrack? }

  function DirectNumber(incidents: seq<Incident>, cell: CellId, t: Track, start: Day, end: Day): nat {
    if incidents == [] then 0
    else
      var i := incidents[0];
      OneIf(i.cell == cell && start <= i.day <= end && On(t, i)) + DirectNumber(incidents[1..], cell, t, start, end)
  }

  function DirectWeight(incidents: seq<Incident>, cell: CellId, t: Track, start: Day, end: Day): real {
    if incidents == [] then 0.0
    else
      var i := incidents[0];
      (if i.cell == cell && start <= i.day <= end && On(t, i) then i.weight else 0.0)
        + DirectWeight(incidents[1..], cell, t, start, end)
  }

  /** _RANGE_WEIGHTED for one cell and track: `n`, */
  function RangeNumber(rows: seq<Daily>, cell: CellId, t: Track, start: Day, end: Day): nat {
    if rows == [] then 0
    else
      var k := rows[0].counts;
      (if rows[0].cell != cell || !(start <= rows[0].day <= end) then 0
       else if t.ViolentTrack? then k.violent else k.all - k.violent)
      + RangeNumber(rows[1..], cell, t, start, end)
  }

  /** and `w`. */
  function RangeWeight(rows: seq<Daily>, cell: CellId, t: Track, start: Day, end: Day): real {
    if rows == [] then 0.0
    else
      (if rows[0].cell != cell || !(start <= rows[0].day <= end) then 0.0
       else if t.ViolentTrack? then rows[0].wViolent else rows[0].wOther)
      + RangeWeight(rows[1..], cell, t, start, end)
  }

  lemma {:induction false} AddWeighted(rows: seq<Daily>, i: Incident, cell: CellId, t: Track, start: Day, end: Day)
    ensures RangeNumber(AddTo(rows, i), cell, t, start, end) == RangeNumber(rows, cell, t, start, end)
      + OneIf(i.cell == cell && start <= i.day <= end && On(t, i))
    ensures RangeWeight(AddTo(rows, i), cell, t, start, end) == RangeWeight(rows, cell, t, start, end)
      + (if i.cell == cell && start <= i.day <= end && On(t, i) then i.weight else 0.0)
  {
    if rows != [] && !(rows[0].cell == i.cell && rows[0].day == i.day) {
      AddWeighted(rows[1..], i, cell, t, start, end);
      assert AddTo(rows, i)[1..] == AddTo(rows[1..], i);
    } else {
      assert AddTo(rows, i)[1..] == if rows == [] then [] else rows[1..];
    }
  }

  /** So do the weighted columns: each track's incidents and their weight. */
  lemma {:induction false} RangeWeighsDirectly(incidents: seq<Incident>, floor: Day, anchor: Day, cell: CellId,
                                               t: Track, start: Day, end: Day)
    ensures var rows, from, to := Rollup(incidents, floor, anchor), Later(start, floor), Earlier(end, anchor);
      && RangeNumber(rows, cell, t, start, end) == DirectNumber(incidents, cell, t, from, to)
      && RangeWeight(rows, cell, t, start, end) == DirectWeight(incidents, cell, t, from, to)
  {
    if incidents != [] {
      RangeWeighsDirectly(incidents[1..], floor, anchor, cell, t, start, end);
      if floor <= incidents[0].day <= anchor {
        AddWeighted(Rollup(incidents[1..], floor, anchor), incidents[0], cell, t, start, end);
      }
    }
  }

  // ---- the ranking of a range

  datatype Place = Place(cell: CellId, area: real)

  type Universe = s: seq<Place> | forall i :: 0 <= i < |s| ==> s[i].area > 0.0

  const CATEGORIES: seq<Category> := [All, Violent, Property, QualityOfLife, Other]

  /** One cell's five `unpivoted` rows. */
  function Unpivot(p: Place, count: (CellId, Category) -> nat, categories: seq<Category>): seq<ActivityRow>
    requires p.area > 0.0
  {
    if categories == [] then []
    else [Activity(p.cell, p.area, categories[0], count(p.cell, categories[0]))] + Unpivot(p, count, categories[1..])
  }

  /** `unpivoted`: every cell of the universe, whether counted or not. */
  function Rows(universe: Universe, count: (CellId, Category) -> nat): seq<ActivityRow> {
    if universe == [] then [] else Unpivot(universe[0], count, CATEGORIES) + Rows(universe[1..], count)
  }

  lemma {:induction false} UnpivotAt(p: Place, count: (CellId, Category) -> nat, categories: seq<Category>, k: nat)
    requires p.area > 0.0 && k < |categories|
    ensures |Unpivot(p, count, categories)| == |categories|
    ensures Unpivot(p, count, categories)[k] == Activity(p.cell, p.area, categories[k], count(p.cell, categories[k]))
  {
    if k > 0 {
      UnpivotAt(p, count, categories[1..], k - 1);
    } else if categories != [] && |categories| > 1 {
      UnpivotAt(p, count, categories[1..], 0);
    }
  }

  /** What is ranked: for every cell of the universe, counted or not, five rows, one for
      each category, each with the cell's own area and its own count of that category. */
  lemma {:induction false} RowsAt(universe: Universe, count: (CellId, Category) -> nat, i: nat, k: nat)
    requires i < |universe| && k < 5
    ensures |Rows(universe, count)| == 5 * |universe|
    ensures var place, category := universe[i], [All, Violent, Property, QualityOfLife, Other][k];
      Rows(universe, count)[5 * i + k] == Activity(place.cell, place.area, category, count(place.cell, category))
  {
    UnpivotAt(universe[0], count, CATEGORIES, k);
    if i > 0 {
      RowsAt(universe[1..], count, i - 1, k);
    } else if |universe| > 1 {
      RowsAt(universe[1..], count, 0, k);
    }
  }

  lemma {:induction false} UnpivotSame(p: Place, f: (CellId, Category) -> nat, g: (CellId, Category) -> nat,
                                       categories: seq<Category>)
    requires p.area > 0.0 && forall cell, c :: f(cell, c) == g(cell, c)
    ensures Unpivot(p, f, categories) == Unpivot(p, g, categories)
  {
    if categories != [] {
      UnpivotSame(p, f, g, categories[1..]);
    }
  }

  lemma {:induction false} RowsSame(universe: Universe, f: (CellId, Category) -> nat, g: (CellId, Category) -> nat)
    requires forall cell, c :: f(cell, c) == g(cell, c)
    ensures Rows(universe, f) == Rows(universe, g)
  {
    if universe != [] {
      UnpivotSame(universe[0], f, g, CATEGORIES);
      RowsSame(universe[1..], f, g);
    }
  }

  /** A range ranks every cell exactly as a window built over the same days would:
      same counts, densities, percentiles, ranks and tiers. */
  lemma RangeRanksAsWindow(universe: Universe, incidents: seq<Incident>, floor: Day, anchor: Day, start: Day, end: Day,
                           categories: set<Category>)
    ensures var rows, from, to := Rollup(incidents, floor, anchor), Later(start, floor), Earlier(end, anchor);
      RankActivity(Rows(universe, (cell, c) => Range(rows, cell, c, start, end)), categories)
        == RankActivity(Rows(universe, (cell, c) => Direct(incidents, cell, c, from, to)), categories)
  {
    var rows, from, to := Rollup(incidents, floor, anchor), Later(start, floor), Earlier(end, anchor);
    var f := (cell, c) => Range(rows, cell, c, start, end);
    var g := (cell, c) => Direct(incidents, cell, c, from, to);
    forall cell, c ensures f(cell, c) == g(cell, c) {
      RangeIsDirect(incidents, floor, anchor, cell, c, start, end);
    }
    RowsSame(universe, f, g);
  }

  datatype Site = Site(cell: CellId, exposure: real)

  type Sites = s: seq<Site> | forall i :: 0 <= i < |s| ==> s[i].exposure >= 0.0

  /** Every cell of the universe with what one track reported there. */
  function Rated(sites: Sites, number: CellId -> nat, weight: CellId -> real): (r: Blending.Universe)
    ensures |r| == |sites|
    ensures forall i :: 0 <= i < |r| ==>
      r[i] == Blending.Place(sites[i].cell, number(sites[i].cell),
        Shrinkage.Cell(sites[i].exposure, weight(sites[i].cell)))
  {
    seq(|sites|, i requires 0 <= i < |sites| =>
      Blending.Place(sites[i].cell, number(sites[i].cell), Shrinkage.Cell(sites[i].exposure, weight(sites[i].cell))))
  }

  /** As a range sums them off the rollup, */
  function RatedByRange(sites: Sites, rows: seq<Daily>, t: Track, start: Day, end: Day): (r: Blending.Universe)
    ensures |r| == |sites|
  {
    Rated(sites, cell => RangeNumber(rows, cell, t, start, end), cell => RangeWeight(rows, cell, t, start, end))
  }

  /** or a window off the incidents themselves. */
  function RatedDirectly(sites: Sites, incidents: seq<Incident>, t: Track, from: Day, to: Day): (r: Blending.Universe)
    ensures |r| == |sites|
  {
    Rated(sites, cell => DirectNumber(incidents, cell, t, from, to), cell => DirectWeight(incidents, cell, t, from, to))
  }

  /** And its safety ranking is the window's too, through shrinkage, blend and midrank. */
  lemma {:induction false} RangeRatesAsWindow(sites: Sites, near: Blending.Adjacency, prior: real, selfWeight: real,
                                              t: Track, incidents: seq<Incident>, floor: Day, anchor: Day,
                                              start: Day, end: Day)
    requires prior > 0.0 && |near| == |sites|
    ensures var ranged := RatedByRange(sites, Rollup(incidents, floor, anchor), t, start, end);
      var direct := RatedDirectly(sites, incidents, t, Later(start, floor), Earlier(end, anchor));
      Blending.SafetyRanked(ranged, near, prior, selfWeight) == Blending.SafetyRanked(direct, near, prior, selfWeight)
  {
    var ranged := RatedByRange(sites, Rollup(incidents, floor, anchor), t, start, end);
    var direct := RatedDirectly(sites, incidents, t, Later(start, floor), Earlier(end, anchor));
    forall i | 0 <= i < |sites| ensures ranged[i] == direct[i] {
      RangeWeighsDirectly(incidents, floor, anchor, sites[i].cell, t, start, end);
    }
    assert ranged == direct;
  }

  // ---- citywide totals

  /** city_totals: every row of the range, whatever its cell. */
  function CityTotal(rows: seq<Daily>, c: Category, start: Day, end: Day): nat {
    if rows == [] then 0
    else (if start <= rows[0].day <= end then rows[0].counts.Of(c) else 0) + CityTotal(rows[1..], c, start, end)
  }

  /** The layer's counts, added up over the cells it shows. */
  function LayerTotal(cells: seq<CellId>, rows: seq<Daily>, c: Category, start: Day, end: Day): nat {
    if cells == [] then 0 else Range(rows, cells[0], c, start, end) + LayerTotal(cells[1..], rows, c, start, end)
  }

  /** What the range counts in cells the layer does not show. */
  function Elsewhere(cells: seq<CellId>, rows: seq<Daily>, c: Category, start: Day, end: Day): nat {
    if rows == [] then 0
    else
      (if rows[0].cell !in cells && start <= rows[0].day <= end then rows[0].counts.Of(c) else 0)
      + Elsewhere(cells, rows[1..], c, start, end)
  }

  predicate NoRepeats(cells: seq<CellId>) {
    forall i, j :: 0 <= i < j < |cells| ==> cells[i] != cells[j]
  }

  lemma {:induction false} OneRowLayer(cells: seq<CellId>, row: Daily, rest: seq<Daily>, c: Category, start: Day,
                                       end: Day)
    requires NoRepeats(cells)
    ensures LayerTotal(cells, [row] + rest, c, start, end) == LayerTotal(cells, rest, c, start, end)
      + if row.cell in cells && start <= row.day <= end then row.counts.Of(c) else 0
  {
    if cells != [] {
      OneRowLayer(cells[1..], row, rest, c, start, end);
      assert ([row] + rest)[1..] == rest;
    }
  }

  lemma {:induction false} NoRowsLayer(cells: seq<CellId>, c: Category, start: Day, end: Day)
    ensures LayerTotal(cells, [], c, start, end) == 0
  {
    if cells != [] {
      NoRowsLayer(cells[1..], c, start, end);
    }
  }

  /** The city's total is the layer's counts plus what falls outside the layer, so
      the two agree exactly when nothing in the range does. */
  lemma {:induction false} CityTotalIsLayerPlusElsewhere(cells: seq<CellId>, rows: seq<Daily>, c: Category, start: Day,
                                                         end: Day)
    requires NoRepeats(cells)
    ensures CityTotal(rows, c, start, end)
      == LayerTotal(cells, rows, c, start, end) + Elsewhere(cells, rows, c, start, end)
    ensures CityTotal(rows, c, start, end) == LayerTotal(cells, rows, c, start, end)
      <==> forall row :: row in rows && row.cell !in cells && start <= row.day <= end ==> row.counts.Of(c) == 0
  {
    if rows == [] {
      NoRowsLayer(cells, c, start, end);
    } else {
      CityTotalIsLayerPlusElsewhere(cells, rows[1..], c, start, end);
      OneRowLayer(cells, rows[0], rows[1..], c, start, end);
      assert rows == [rows[0]] + rows[1..];
      assert forall i :: 0 <= i < |rows| - 1 ==> rows[1..][i] == rows[i + 1];
      assert forall i :: 1 <= i < |rows| ==> rows[i] == rows[1..][i - 1];
    }
  }
}
