/** The route scorer's row cache (class `_Scorer` in safety/api/directions.py): rows
    fetched a few cells and hours at a time, merged, and read as if fetched whole. */
module RouteScorer {
  import opened Wrappers
  import opened Reals

  type Cell = string
  type Track = string
  type HourBlock = int
  type Weekday = int

  // When a stretch is passed; None where the window has no hourly layer.
  type Time = Option<(HourBlock, Weekday)>

  /** One cell's row of one track: all hours, and what was fetched per hour block
      (`hsm.<h>`, `htier.<h>`) and per weekday (`df.<d>`). */
  datatype Row = Row(
    sm: Option<real>, tier: Option<int>,
    hsm: map<HourBlock, real>, htier: map<HourBlock, int>, df: map<Weekday, real>)

  const EMPTY := Row(None, None, map[], map[], map[])

  /** `dict.update`. */
  function Updated(have: Row, more: Row): Row {
    Row(if more.sm.Some? then more.sm else have.sm,
        if more.tier.Some? then more.tier else have.tier,
        have.hsm + more.hsm, have.htier + more.htier, have.df + more.df)
  }

  type Rows = map<Cell, Row>

  /** gold.cell_safety, gold.cell_hour_safety and gold.cell_dow_factor, for one city,
      window and scheme. */
  datatype Database = Database(
    safety: map<(Track, Cell), (real, int)>,
    hours: map<(Track, Cell, HourBlock), (real, int)>,
    factors: map<(Track, Cell, Weekday), real>)

  /** What repo.route_cells reads of one cell, None for no row at all. */
  function ReadCell(db: Database, track: Track, cell: Cell, hours: set<HourBlock>, days: set<Weekday>): Option<Row> {
    var hsm := map h | h in hours && (track, cell, h) in db.hours :: db.hours[(track, cell, h)].0;
    var htier := map h | h in hours && (track, cell, h) in db.hours :: db.hours[(track, cell, h)].1;
    var df := map d | d in days && (track, cell, d) in db.factors :: db.factors[(track, cell, d)];
    if (track, cell) !in db.safety && hsm == map[] && df == map[] then None
    else if (track, cell) in db.safety then
      Some(Row(Some(db.safety[(track, cell)].0), Some(db.safety[(track, cell)].1), hsm, htier, df))
    else Some(Row(None, None, hsm, htier, df))
  }

  /** repo.route_cells for one track. */
  function RouteCells(db: Database, track: Track, cells: set<Cell>, hours: set<HourBlock>, days: set<Weekday>): Rows {
    map cell | cell in cells && ReadCell(db, track, cell, hours, days).Some? ::
      ReadCell(db, track, cell, hours, days).value
  }

  /** have.setdefault(cell, {}).update(row), for every fetched row. */
  function Merged(have: Rows, fetched: Rows): Rows {
    map cell | cell in have.Keys + fetched.Keys ::
      if cell !in fetched then have[cell]
      else Updated(if cell in have then have[cell] else EMPTY, fetched[cell])
  }

  datatype Baseline = Baseline(overall: Option<real>, hourly: map<HourBlock, real>,
                               timed: map<(HourBlock, Weekday), real>)

  /** What scoring.cell_ratio is asked about a cell: its row with `hsm` and `htier`
      picked for the hour, and the hour and day to compare at. */
  datatype Question = Question(
    sm: Option<real>, tier: Option<int>, hsm: Option<real>, htier: Option<int>,
    hour: Option<HourBlock>, day: Option<Weekday>)

  function Get<K, V>(m: map<K, V>, k: K): Option<V> { if k in m then Some(m[k]) else None }

  /** The body of `ratios` for one stretch, up to the call of cell_ratio; None when
      the cell has no row. */
  function Ask(row: Option<Row>, base: Baseline, time: Time): Option<Question> {
    if row.None? then None
    else if time.None? then Some(Question(row.value.sm, row.value.tier, None, None, None, None))
    else
      var (hour, day) := time.value;
      var r := row.value;
      var hsm, factor := Get(r.hsm, hour), Get(r.df, day);
      if factor.Some? && (hour, day) in base.timed && hsm.Some?
      then Some(Question(r.sm, r.tier, Some(Times(hsm.value, factor.value)), Get(r.htier, hour), Some(hour), Some(day)))
      else Some(Question(r.sm, r.tier, hsm, Get(r.htier, hour), Some(hour), None))
  }

  /** A stretch's ratio; None when the cell has no row. */
  function Ratio(row: Option<Row>, base: Baseline, time: Time): Option<real> {
    var q := Ask(row, base, time);
    if q.None? then None else CellRatio(q.value, base)
  }

  /** scoring.cell_ratio: the map's own comparison. A cell with something reported
      in the hour is compared at that hour, any other borrows its all-hours rate. */
  function CellRatio(q: Question, base: Baseline): Option<real> {
    var own :=
      if q.hour.None? then base.overall
      else if q.day.Some? then Get(base.timed, (q.hour.value, q.day.value))
      else Get(base.hourly, q.hour.value);
    var tier := if q.hour.Some? then q.htier else q.tier;
    var value := if q.hour.Some? then q.hsm else q.sm;
    if tier.Some? && tier.value != 0 then
      if own.Some? && own.value != 0.0 then Some((if value.Some? then value.value else 0.0) / own.value) else None
    else if base.overall.Some? && base.overall.value != 0.0 && q.sm.Some? then Some(q.sm.value / base.overall.value)
    else None
  }

  // ---- the complete read

  /** The row a single read of every hour and day there is would give. */
  function Complete(db: Database, track: Track, cell: Cell): Option<Row> {
    ReadCell(db, track, cell,
             set k | k in db.hours :: k.2,
             set k | k in db.factors :: k.2)
  }

  /** What the scorer holds of a cell agrees with the database as far as it goes: all
      of the all-hours row once known, and, for each time loaded, that hour and day. */
  ghost predicate Agrees(db: Database, track: Track, cell: Cell, row: Option<Row>) {
    var r := if row.Some? then row.value else EMPTY;
    && (forall h :: h in r.hsm <==> h in r.htier)
    && (forall h :: h in r.hsm ==> (track, cell, h) in db.hours && db.hours[(track, cell, h)] == (r.hsm[h], r.htier[h]))
    && (forall d :: d in r.df ==> (track, cell, d) in db.factors && db.factors[(track, cell, d)] == r.df[d])
    && (r.sm.Some? <==> r.tier.Some?)
    && (r.sm.Some? ==> (track, cell) in db.safety && db.safety[(track, cell)] == (r.sm.value, r.tier.value))
  }

  /** The all-hours part has been fetched. */
  ghost predicate KnowsCell(db: Database, track: Track, cell: Cell, row: Option<Row>) {
    (track, cell) in db.safety ==> row.Some? && row.value.sm.Some?
  }

  /** The hour and, where day factors are used, the day have been fetched. */
  ghost predicate KnowsTime(db: Database, track: Track, cell: Cell, row: Option<Row>, t: (HourBlock, Weekday),
                            daily: bool) {
    && ((track, cell, t.0) in db.hours ==> row.Some? && t.0 in row.value.hsm)
    && (daily && (track, cell, t.1) in db.factors ==> row.Some? && t.1 in row.value.df)
  }

  function RowOf(rows: Rows, cell: Cell): Option<Row> { Get(rows, cell) }

  lemma ReadAgrees(db: Database, track: Track, cell: Cell, hours: set<HourBlock>, days: set<Weekday>)
    ensures Agrees(db, track, cell, ReadCell(db, track, cell, hours, days))
    ensures KnowsCell(db, track, cell, ReadCell(db, track, cell, hours, days))
  {
  }

  lemma ReadKnows(db: Database, track: Track, cell: Cell, hours: set<HourBlock>, days: set<Weekday>,
                  t: (HourBlock, Weekday), daily: bool)
    requires (track, cell, t.0) in db.hours ==> t.0 in hours
    requires daily && (track, cell, t.1) in db.factors ==> t.1 in days
    ensures KnowsTime(db, track, cell, ReadCell(db, track, cell, hours, days), t, daily)
  {
    var hsm := map h | h in hours && (track, cell, h) in db.hours :: db.hours[(track, cell, h)].0;
    var df := map d | d in days && (track, cell, d) in db.factors :: db.factors[(track, cell, d)];
    if (track, cell, t.0) in db.hours {
      assert t.0 in hsm;
    }
    if daily && (track, cell, t.1) in db.factors {
      assert t.1 in df;
    }
  }

  /** A cell's row after a fetch of its hours and days is merged in. */
  function MergedRow(have: Option<Row>, fetched: Option<Row>): Option<Row> {
    if fetched.None? then have else Some(Updated(if have.Some? then have.value else EMPTY, fetched.value))
  }

  /** Merging a fetch into what is held keeps agreement and loses nothing. */
  lemma MergeAgrees(db: Database, track: Track, cell: Cell, have: Option<Row>, fetched: Option<Row>)
    requires Agrees(db, track, cell, have) && Agrees(db, track, cell, fetched)
    ensures Agrees(db, track, cell, MergedRow(have, fetched))
    ensures KnowsCell(db, track, cell, have) || KnowsCell(db, track, cell, fetched)
      ==> KnowsCell(db, track, cell, MergedRow(have, fetched))
  {
  }

  lemma MergeKnows(db: Database, track: Track, cell: Cell, have: Option<Row>, fetched: Option<Row>,
                   t: (HourBlock, Weekday), daily: bool)
    requires KnowsTime(db, track, cell, have, t, daily) || KnowsTime(db, track, cell, fetched, t, daily)
    ensures KnowsTime(db, track, cell, MergedRow(have, fetched), t, daily)
  {
  }

  /** At a known cell and time, what is held answers as the complete read does, though
      it may hold fewer hours, more hours, or no row where that has one. */
  lemma HeldAnswersAsComplete(db: Database, track: Track, cell: Cell, row: Option<Row>, base: Baseline, time: Time,
                              daily: bool)
    requires Agrees(db, track, cell, row) && KnowsCell(db, track, cell, row)
    requires time.Some? ==> KnowsTime(db, track, cell, row, time.value, daily)
    requires !daily ==> base.timed == map[]
    ensures Ratio(row, base, time) == Ratio(Complete(db, track, cell), base, time)
  {
    var hours, days := set k | k in db.hours :: k.2, set k | k in db.factors :: k.2;
    ReadAgrees(db, track, cell, hours, days);
    if time.Some? {
      var (h, d) := time.value;
      assert (track, cell, h) in db.hours ==> (track, cell, h).2 in hours;
      assert (track, cell, d) in db.factors ==> (track, cell, d).2 in days;
      ReadKnows(db, track, cell, hours, days, (h, d), daily);
    }
    SameParts(db, track, cell, row, Complete(db, track, cell), base, time, daily);
  }

  lemma SameParts(db: Database, track: Track, cell: Cell, a: Option<Row>, b: Option<Row>, base: Baseline, time: Time,
                  daily: bool)
    requires Agrees(db, track, cell, a) && KnowsCell(db, track, cell, a)
    requires Agrees(db, track, cell, b) && KnowsCell(db, track, cell, b)
    requires time.Some? ==>
        KnowsTime(db, track, cell, a, time.value, daily) && KnowsTime(db, track, cell, b, time.value, daily)
    requires !daily ==> base.timed == map[]
    ensures Ratio(a, base, time) == Ratio(b, base, time)
  {
    HeldParts(db, track, cell, a, time, daily);
    HeldParts(db, track, cell, b, time, daily);
    NoRowIsEmptyRow(base, time);
    var r, q := if a.Some? then a.value else EMPTY, if b.Some? then b.value else EMPTY;
    assert Ask(Some(r), base, time) == Ask(Some(q), base, time);
  }

  /** The parts of a held row that a time reads are the database's own. */
  lemma HeldParts(db: Database, track: Track, cell: Cell, row: Option<Row>, time: Time, daily: bool)
    requires Agrees(db, track, cell, row) && KnowsCell(db, track, cell, row)
    requires time.Some? ==> KnowsTime(db, track, cell, row, time.value, daily)
    ensures var r, all := if row.Some? then row.value else EMPTY, Get(db.safety, (track, cell));
      && r.sm == (if all.Some? then Some(all.value.0) else None)
      && r.tier == (if all.Some? then Some(all.value.1) else None)
      && (time.Some? ==>
            var hour := Get(db.hours, (track, cell, time.value.0));
            && Get(r.hsm, time.value.0) == (if hour.Some? then Some(hour.value.0) else None)
            && Get(r.htier, time.value.0) == (if hour.Some? then Some(hour.value.1) else None)
            && (daily ==> Get(r.df, time.value.1) == Get(db.factors, (track, cell, time.value.1))))
  {
    var r := if row.Some? then row.value else EMPTY;
    if time.Some? {
      var (h, d) := time.value;
      assert h in r.hsm <==> (track, cell, h) in db.hours;
      assert daily ==> (d in r.df <==> (track, cell, d) in db.factors);
    }
  }

  /** A missing row and a row with nothing in it read the same. */
  lemma NoRowIsEmptyRow(base: Baseline, time: Time)
    ensures Ratio(None, base, time) == Ratio(Some(EMPTY), base, time)
  {
  }

  // ---- the scorer

  const TRACKS: set<Track> := {"violent", "non_violent"}

  ghost predicate AllAgree(db: Database, cells: map<Track, Rows>) {
    cells.Keys == TRACKS && forall t :: t in TRACKS ==> TrackAgrees(db, t, cells[t])
  }

  ghost predicate TrackAgrees(db: Database, t: Track, rows: Rows) {
    forall c :: Agrees(db, t, c, RowOf(rows, c))
  }

  ghost predicate KnowsCells(db: Database, cells: map<Track, Rows>, known: set<Cell>) {
    cells.Keys == TRACKS && forall t :: t in TRACKS ==> TrackKnows(db, t, cells[t], known)
  }

  ghost predicate TrackKnows(db: Database, t: Track, rows: Rows, known: set<Cell>) {
    forall c :: c in known ==> KnowsCell(db, t, c, RowOf(rows, c))
  }

  ghost predicate KnowsTimes(db: Database, daily: bool, cells: map<Track, Rows>,
                             knownTimes: set<(Cell, (HourBlock, Weekday))>) {
    cells.Keys == TRACKS
    && forall t, p :: t in TRACKS && p in knownTimes ==> KnowsTime(db, t, p.0, RowOf(cells[t], p.0), p.1, daily)
  }

  /** What the scorer holds agrees with the database, and answers for every cell and
      time marked as fetched. */
  ghost predicate Consistent(db: Database, daily: bool, cells: map<Track, Rows>, known: set<Cell>,
                             knownTimes: set<(Cell, (HourBlock, Weekday))>) {
    && AllAgree(db, cells) && KnowsCells(db, cells, known) && KnowsTimes(db, daily, cells, knownTimes)
    && forall p :: p in knownTimes ==> p.0 in known
  }

  /** The rows held after a fetch. */
  function Fetched(db: Database, cells: map<Track, Rows>, missing: set<Cell>, hours: set<HourBlock>,
                   days: set<Weekday>): map<Track, Rows>
    requires cells.Keys == TRACKS
  {
    map t | t in TRACKS :: Merged(cells[t], RouteCells(db, t, missing, hours, days))
  }

  lemma FetchedRow(db: Database, t: Track, c: Cell, have: Rows, missing: set<Cell>, hours: set<HourBlock>,
                   days: set<Weekday>)
    ensures RowOf(Merged(have, RouteCells(db, t, missing, hours, days)), c)
      == if c in missing then MergedRow(RowOf(have, c), ReadCell(db, t, c, hours, days)) else RowOf(have, c)
  {
  }

  lemma FetchAgrees(db: Database, t: Track, c: Cell, have: Rows, missing: set<Cell>, hours: set<HourBlock>,
                    days: set<Weekday>)
    requires Agrees(db, t, c, RowOf(have, c))
    ensures var row := RowOf(Merged(have, RouteCells(db, t, missing, hours, days)), c);
      Agrees(db, t, c, row) && (KnowsCell(db, t, c, RowOf(have, c)) || c in missing ==> KnowsCell(db, t, c, row))
  {
    FetchedRow(db, t, c, have, missing, hours, days);
    ReadAgrees(db, t, c, hours, days);
    MergeAgrees(db, t, c, RowOf(have, c), ReadCell(db, t, c, hours, days));
  }

  lemma FetchKnows(db: Database, daily: bool, t: Track, c: Cell, have: Rows, missing: set<Cell>, hours: set<HourBlock>,
                   days: set<Weekday>, k: (HourBlock, Weekday))
    requires KnowsTime(db, t, c, RowOf(have, c), k, daily) || (c in missing && k.0 in hours && (daily ==> k.1 in days))
    ensures KnowsTime(db, t, c, RowOf(Merged(have, RouteCells(db, t, missing, hours, days)), c), k, daily)
  {
    FetchedRow(db, t, c, have, missing, hours, days);
    if c in missing {
      if k.0 in hours && (daily ==> k.1 in days) {
        ReadKnows(db, t, c, hours, days, k, daily);
      }
      MergeKnows(db, t, c, RowOf(have, c), ReadCell(db, t, c, hours, days), k, daily);
    }
  }

  lemma FetchTrackAgrees(db: Database, t: Track, have: Rows, missing: set<Cell>, hours: set<HourBlock>,
                         days: set<Weekday>)
    requires TrackAgrees(db, t, have)
    ensures TrackAgrees(db, t, Merged(have, RouteCells(db, t, missing, hours, days)))
  {
    forall c ensures Agrees(db, t, c, RowOf(Merged(have, RouteCells(db, t, missing, hours, days)), c)) {
      FetchAgrees(db, t, c, have, missing, hours, days);
    }
  }

  lemma FetchTrackKnows(db: Database, t: Track, have: Rows, known: set<Cell>, missing: set<Cell>, hours: set<HourBlock>,
                        days: set<Weekday>)
    requires TrackAgrees(db, t, have) && TrackKnows(db, t, have, known)
    ensures TrackKnows(db, t, Merged(have, RouteCells(db, t, missing, hours, days)), known + missing)
  {
    forall c | c in known + missing
      ensures KnowsCell(db, t, c, RowOf(Merged(have, RouteCells(db, t, missing, hours, days)), c)) {
      FetchAgrees(db, t, c, have, missing, hours, days);
    }
  }

  lemma FetchAllAgree(db: Database, cells: map<Track, Rows>, known: set<Cell>, missing: set<Cell>,
                      hours: set<HourBlock>, days: set<Weekday>)
    requires AllAgree(db, cells) && KnowsCells(db, cells, known)
    ensures AllAgree(db, Fetched(db, cells, missing, hours, days))
    ensures KnowsCells(db, Fetched(db, cells, missing, hours, days), known + missing)
  {
    forall t | t in TRACKS
      ensures TrackAgrees(db, t, Merged(cells[t], RouteCells(db, t, missing, hours, days)))
      ensures TrackKnows(db, t, Merged(cells[t], RouteCells(db, t, missing, hours, days)), known + missing)
    {
      FetchTrackAgrees(db, t, cells[t], missing, hours, days);
      FetchTrackKnows(db, t, cells[t], known, missing, hours, days);
    }
  }

  lemma FetchKnowsTimes(db: Database, daily: bool, cells: map<Track, Rows>,
                        knownTimes: set<(Cell, (HourBlock, Weekday))>,
                        missing: set<Cell>, wanted: set<(HourBlock, Weekday)>,
                        hours: set<HourBlock>, days: set<Weekday>)
    requires KnowsTimes(db, daily, cells, knownTimes)
    requires forall k :: k in wanted ==> k.0 in hours && (daily ==> k.1 in days)
    ensures KnowsTimes(db, daily, Fetched(db, cells, missing, hours, days), knownTimes + Pairs(missing, wanted))
  {
    var after := Fetched(db, cells, missing, hours, days);
    forall t, p | t in TRACKS && p in knownTimes + Pairs(missing, wanted)
      ensures KnowsTime(db, t, p.0, RowOf(after[t], p.0), p.1, daily)
    {
      FetchKnows(db, daily, t, p.0, cells[t], missing, hours, days, p.1);
    }
  }

  lemma FetchConsistent(db: Database, daily: bool, cells: map<Track, Rows>, known: set<Cell>,
                        knownTimes: set<(Cell, (HourBlock, Weekday))>,
                        missing: set<Cell>, wanted: set<(HourBlock, Weekday)>,
                        hours: set<HourBlock>, days: set<Weekday>)
    requires Consistent(db, daily, cells, known, knownTimes)
    requires forall k :: k in wanted ==> k.0 in hours && (daily ==> k.1 in days)
    ensures Consistent(db, daily, Fetched(db, cells, missing, hours, days), known + missing,
                       knownTimes + Pairs(missing, wanted))
  {
    FetchAllAgree(db, cells, known, missing, hours, days);
    FetchKnowsTimes(db, daily, cells, knownTimes, missing, wanted, hours, days);
    forall p | p in knownTimes + Pairs(missing, wanted) ensures p.0 in known + missing {
      if p !in knownTimes {
        assert p in Pairs(missing, wanted);
      }
    }
  }

  /** The cells a load has to fetch: not known, or not for one of the times. */
  function Missing(want: set<Cell>, wanted: set<(HourBlock, Weekday)>, known: set<Cell>,
                   knownTimes: set<(Cell, (HourBlock, Weekday))>): set<Cell> {
    set c | c in want && (c !in known || exists t :: t in wanted && (c, t) !in knownTimes)
  }

  function Pairs(missing: set<Cell>, wanted: set<(HourBlock, Weekday)>): set<(Cell, (HourBlock, Weekday))> {
    set c, t | c in missing && t in wanted :: (c, t)
  }

  /** The times worth fetching for: none where there is no hourly layer. */
  function Wanted(times: set<Time>, hourly: bool): set<(HourBlock, Weekday)> {
    if hourly then set t | t in times && t.Some? :: t.value else {}
  }

  predicate Covers(known: set<Cell>, knownTimes: set<(Cell, (HourBlock, Weekday))>, hourly: bool, cell: Cell,
                   time: Time) {
    cell in known && (time.Some? ==> hourly && (cell, time.value) in knownTimes)
  }

  /** Once what is missing is fetched, every wanted cell is covered at every time. */
  lemma LoadCompletes(want: set<Cell>, times: set<Time>, hourly: bool, known: set<Cell>,
                      knownTimes: set<(Cell, (HourBlock, Weekday))>)
    ensures var wanted := Wanted(times, hourly);
      var missing := Missing(want, wanted, known, knownTimes);
      && (forall c, t :: c in want && t in times && (hourly || t.None?) ==>
            Covers(known + missing, knownTimes + Pairs(missing, wanted), hourly, c, t))
      && (missing == {} ==> known + missing == known && knownTimes + Pairs(missing, wanted) == knownTimes)
  {
    var wanted := Wanted(times, hourly);
    var missing := Missing(want, wanted, known, knownTimes);
    forall c, t | c in want && t in times && (hourly || t.None?)
      ensures Covers(known + missing, knownTimes + Pairs(missing, wanted), hourly, c, t)
    {
      if t.Some? {
        assert t.value in wanted;
      }
    }
  }

  /** Everything asked for is there already. */
  predicate Held(want: set<Cell>, times: set<Time>, hourly: bool, known: set<Cell>,
                 knownTimes: set<(Cell, (HourBlock, Weekday))>) {
    want <= known && forall c, t :: c in want && t in times && (hourly || t.None?) ==>
      Covers(known, knownTimes, hourly, c, t)
  }

  /** A load fetches nothing it was not asked for, no times without an hourly layer, and
      nothing at all where everything is held. */
  lemma LoadAsksOnly(want: set<Cell>, times: set<Time>, hourly: bool, known: set<Cell>,
                     knownTimes: set<(Cell, (HourBlock, Weekday))>)
    ensures var wanted := Wanted(times, hourly);
      var missing := Missing(want, wanted, known, knownTimes);
      && missing <= want
      && (forall p :: p in Pairs(missing, wanted) ==> p.0 in want && Some(p.1) in times && hourly)
      && (Held(want, times, hourly, known, knownTimes) ==> missing == {})
  {
    var wanted := Wanted(times, hourly);
    if Held(want, times, hourly, known, knownTimes) {
      forall c, t | c in want && t in wanted ensures (c, t) in knownTimes {
        assert Covers(known, knownTimes, hourly, c, Some(t));
      }
    }
  }

  lemma {:induction false} ConsistentTracks(db: Database, daily: bool, cells: map<Track, Rows>, known: set<Cell>,
                                            knownTimes: set<(Cell, (HourBlock, Weekday))>)
    requires Consistent(db, daily, cells, known, knownTimes)
    ensures cells.Keys == TRACKS
  {
  }

  /** Wherever a cell and time are covered, the held rows answer as complete ones. */
  lemma {:induction false} CoveredAnswers(db: Database, daily: bool, cells: map<Track, Rows>, known: set<Cell>,
                                          knownTimes: set<(Cell, (HourBlock, Weekday))>, hourly: bool, track: Track,
                                          cell: Cell, time: Time, base: Baseline)
    requires Consistent(db, daily, cells, known, knownTimes) && track in TRACKS
    requires Covers(known, knownTimes, hourly, cell, time)
    requires hourly && !daily ==> base.timed == map[]
    ensures track in cells
    ensures Ratio(RowOf(cells[track], cell), base, time) == Ratio(Complete(db, track, cell), base, time)
  {
    hide Ratio, Complete, Agrees, KnowsCell, KnowsTime;
    assert TrackAgrees(db, track, cells[track]) && TrackKnows(db, track, cells[track], known);
    var row := RowOf(cells[track], cell);
    assert Agrees(db, track, cell, row) && KnowsCell(db, track, cell, row);
    if time.Some? {
      assert (cell, time.value) in knownTimes;
      HeldAnswersAsComplete(db, track, cell, row, base, time, daily);
    } else {
      AllHoursAnswer(db, track, cell, row, base);
    }
  }

  class Scorer {
    const db: Database
    // Whether the request means a served window with a safety ranking.
    const window: bool
    const hourly: bool
    const baselines: map<Track, Baseline>
    const daily: bool
    var cells: map<Track, Rows>
    var known: set<Cell>
    var knownTimes: set<(Cell, (HourBlock, Weekday))>

    constructor (db: Database, window: bool, hourly: bool, baselines: map<Track, Baseline>)
      ensures Valid() && known == {} && knownTimes == {}
      ensures this.db == db && this.window == window && this.hourly == hourly && this.baselines == baselines
    {
      this.db, this.window, this.hourly, this.baselines := db, window, hourly, baselines;
      daily := hourly && exists t :: t in baselines && baselines[t].timed != map[];
      cells := map t | t in TRACKS :: map[];
      known, knownTimes := {}, {};
    }

    ghost predicate Valid()
      reads this
    {
      && (daily <==> hourly && exists t :: t in baselines && baselines[t].timed != map[])
      && Consistent(db, daily, cells, known, knownTimes)
    }

    function Base(track: Track): Baseline {
      if track in baselines then baselines[track] else Baseline(None, map[], map[])
    }

    /** Whether a stretch through `cell` at `time` has been loaded for. */
    predicate Covered(cell: Cell, time: Time)
      reads this
    {
      Covers(known, knownTimes, hourly, cell, time)
    }

    /** `load`: fetches what is missing, all of it, and forgets nothing. */
    method Load(want: set<Cell>, times: set<Time>)
      requires Valid()
      modifies this
      ensures Valid()
      ensures old(known) <= known && old(knownTimes) <= knownTimes
      ensures window ==> forall c, t :: c in want && t in times && (hourly || t.None?) ==> Covered(c, t)
      ensures !window ==> known == old(known) && knownTimes == old(knownTimes) && cells == old(cells)
      ensures known <= old(known) + want
      ensures forall p :: p in knownTimes - old(knownTimes) ==> p.0 in want && Some(p.1) in times && hourly
      ensures Held(want, times, hourly, old(known), old(knownTimes)) ==>
        known == old(known) && knownTimes == old(knownTimes) && cells == old(cells)
    {
      hide Wanted, Missing, Pairs, Consistent, Held, Covers;
      if !window {
        return;
      }
      var wanted := Wanted(times, hourly);
      var missing := Missing(want, wanted, known, knownTimes);
      LoadCompletes(want, times, hourly, known, knownTimes);
      LoadAsksOnly(want, times, hourly, known, knownTimes);
      if missing != {} {
        Fetch(missing, wanted);
      }
    }

    /** The one borrowed connection of `load`, and the merge of what it read. */
    method Fetch(missing: set<Cell>, wanted: set<(HourBlock, Weekday)>)
      requires Valid()
      modifies this
      ensures Valid()
      ensures known == old(known) + missing && knownTimes == old(knownTimes) + Pairs(missing, wanted)
    {
      var hours := set t | t in wanted :: t.0;
      var days := if daily then set t | t in wanted :: t.1 else {};
      FetchConsistent(db, daily, cells, known, knownTimes, missing, wanted, hours, days);
      cells := Fetched(db, cells, missing, hours, days);
      knownTimes := knownTimes + Pairs(missing, wanted);
      known := known + missing;
    }

    /** `ratios`, for the cells and times of a route's stretches: wherever they have
        been loaded, the answer is the one a complete read of the database gives. */
    method Ratios(track: Track, runs: seq<Cell>, times: seq<Time>) returns (out: seq<Option<real>>)
      requires Valid() && track in TRACKS
      ensures |out| == if |runs| <= |times| then |runs| else |times|
      ensures track in baselines ==> forall i :: 0 <= i < |out| && Covered(runs[i], times[i]) ==>
        out[i] == Ratio(Complete(db, track, runs[i]), baselines[track], times[i])
      ensures track !in baselines ==> forall i :: 0 <= i < |out| ==> out[i] == None
    {
      hide Ratio, Consistent, Complete, Covers;
      ConsistentTracks(db, daily, cells, known, knownTimes);
      var base, byCell := Base(track), cells[track];
      out := [];
      var i := 0;
      while i < |runs| && i < |times|
        invariant 0 <= i <= |runs| && i <= |times| && |out| == i
        invariant forall k :: 0 <= k < i ==> out[k] == Ratio(RowOf(byCell, runs[k]), base, times[k])
      {
        out := out + [Ratio(RowOf(byCell, runs[i]), base, times[i])];
        i := i + 1;
      }
      if track !in baselines {
        forall k | 0 <= k < |out| ensures out[k] == None {
          NoBaselineNoRatio(RowOf(byCell, runs[k]), times[k]);
        }
      }
      forall k | 0 <= k < |out| && Covered(runs[k], times[k])
        ensures out[k] == Ratio(Complete(db, track, runs[k]), base, times[k])
      {
        CoveredAnswers(db, daily, cells, known, knownTimes, hourly, track, runs[k], times[k], base);
      }
    }
  }

  /** A track the city has no averages for rates nothing. */
  lemma NoBaselineNoRatio(row: Option<Row>, time: Time)
    ensures Ratio(row, Baseline(None, map[], map[]), time) == None
  {
  }

  /** Without an hour, only the all-hours part of a row matters. */
  lemma AllHoursAnswer(db: Database, track: Track, cell: Cell, row: Option<Row>, base: Baseline)
    requires Agrees(db, track, cell, row) && KnowsCell(db, track, cell, row)
    ensures Ratio(row, base, None) == Ratio(Complete(db, track, cell), base, None)
  {
    HeldAnswersAsComplete(db, track, cell, row, base, None, true);
  }
}
