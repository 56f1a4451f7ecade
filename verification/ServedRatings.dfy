/** The map layer and the route scorer over one database: the features of
    _CELLS_GEOJSON_SQL (safety/api/repository.py) on one side, a route's rows and
    baselines on the other, and exactly when they rate a cell alike. */
module ServedRatings {
  import opened Wrappers
  import opened Reals
  import opened Paint
  import opened RouteRating
  import opened RouteScorer
  import Ranking

  type Feature = map<string, Property>

  /** A cell of the city, with the denominator it is ranked against. */
  datatype Site = Site(cell: string, exposure: Option<real>)

  function Name(t: Paint.Track): string { if t.Violent? then "violent" else "non_violent" }

  predicate Rated(db: Database, t: Paint.Track, s: Site) { (Name(t), s.cell) in db.safety }

  function AllHours(db: Database, t: Paint.Track, s: Site): (real, int)
    requires Rated(db, t, s)
  {
    db.safety[(Name(t), s.cell)]
  }

  function AtHour(db: Database, t: Paint.Track, s: Site, h: HourBlock): Option<(real, int)> {
    RouteScorer.Get(db.hours, (Name(t), s.cell, h))
  }

  function Factor(db: Database, t: Paint.Track, s: Site, d: Weekday): Option<real> {
    RouteScorer.Get(db.factors, (Name(t), s.cell, d))
  }

  // ---- the layer

  function Properties(t: Paint.Track, sm: Property, tier: Property, hsm: Property, htier: Property,
                      exposure: Property): Feature {
    map[Rate(t) := sm, Tier(t) := tier, "h" + Rate(t) := hsm, "h" + Tier(t) := htier, "exposure" := exposure]
  }

  lemma PropertiesAre(t: Paint.Track, sm: Property, tier: Property, hsm: Property, htier: Property, exposure: Property)
    ensures var c := Properties(t, sm, tier, hsm, htier, exposure);
      && Prop(c, Rate(t)) == sm && Prop(c, Tier(t)) == tier && Prop(c, "exposure") == exposure
      && Prop(c, "h" + Rate(t)) == hsm && Prop(c, "h" + Tier(t)) == htier
  {
    KeysDiffer(Rate(t), Tier(t));
  }

  /** No two of the five names are the same. */
  lemma KeysDiffer(rate: string, tier: string)
    requires rate == "sm_violent" || rate == "sm_nonviolent"
    requires tier == "stier_violent" || tier == "stier_nonviolent"
    ensures rate != tier && rate != "h" + rate && rate != "h" + tier && rate != "exposure"
    ensures tier != "h" + rate && tier != "h" + tier && tier != "exposure"
    ensures "h" + rate != "h" + tier && "h" + rate != "exposure" && "h" + tier != "exposure"
  {
    var hr, ht := "h" + rate, "h" + tier;
    assert hr[0] == ht[0] == 'h' && hr[2] == 'm' && ht[2] == 't';
    assert rate[0] == tier[0] == 's' && rate[1] == 'm' && tier[1] == 't' && "exposure"[0] == 'e';
  }

  function OrNull(x: Option<real>): Property { if x.None? then Null else Number(x.value) }

  /** `timed`'s rate and `timed_tiered`'s tier, for an hour and a day: the hour's rate,
      or else the all-hours one, times the day's factor, or else one. `pct` is the
      cell's standing among those rates. */
  function Timed(db: Database, t: Paint.Track, s: Site, h: HourBlock, d: Weekday, pct: string -> real): (real, nat)
    requires Rated(db, t, s)
  {
    var hour, factor := AtHour(db, t, s, h), Factor(db, t, s, d);
    (Times(if hour.Some? then hour.value.0 else AllHours(db, t, s).0, if factor.Some? then factor.value else 1.0),
     if AllHours(db, t, s).1 == 0 then 0 else Ranking.SafetyTier(1, pct(s.cell)))
  }

  /** The feature of a cell, for all hours or for an hour and a day. */
  function FeatureOf(db: Database, t: Paint.Track, s: Site, time: Time, pct: string -> real): Feature {
    if !Rated(db, t, s) then Properties(t, Null, Null, Null, Null, Null)
    else
      var (sm, tier) := AllHours(db, t, s);
      if time.None? then Properties(t, Number(sm), Number(tier as real), Null, Null, OrNull(s.exposure))
      else
        var (hsm, htier) := Timed(db, t, s, time.value.0, time.value.1, pct);
        Properties(t, Number(sm), Number(tier as real), Number(hsm), Number(htier as real), OrNull(s.exposure))
  }

  function Layer(db: Database, t: Paint.Track, sites: seq<Site>, time: Time, pct: string -> real): (r: seq<Feature>)
    ensures |r| == |sites| && forall i :: 0 <= i < |r| ==> r[i] == FeatureOf(db, t, sites[i], time, pct)
  {
    seq(|sites|, i requires 0 <= i < |sites| => FeatureOf(db, t, sites[i], time, pct))
  }

  // ---- the baselines

  function AllHoursRow(db: Database, t: Paint.Track, s: Site): Option<Stored> {
    if Rated(db, t, s) then Some(Stored(AllHours(db, t, s).0, AllHours(db, t, s).1, s.exposure)) else None
  }

  /** The hourly rows take each cell's exposure from its all-hours row. */
  function Exposure(db: Database, t: Paint.Track, s: Site): Option<real> {
    if Rated(db, t, s) then s.exposure else None
  }

  function HourRow(db: Database, t: Paint.Track, s: Site, h: HourBlock): Option<Stored> {
    var hour := AtHour(db, t, s, h);
    if hour.Some? then Some(Stored(hour.value.0, hour.value.1, Exposure(db, t, s))) else None
  }

  function DayRow(db: Database, t: Paint.Track, s: Site, h: HourBlock, d: Weekday): Option<Stored> {
    var hour, factor := AtHour(db, t, s, h), Factor(db, t, s, d);
    if hour.Some? && factor.Some? then
      Some(Stored(Times(hour.value.0, factor.value), hour.value.1, Exposure(db, t, s)))
    else None
  }

  function AllHoursRows(db: Database, t: Paint.Track, sites: seq<Site>): (r: seq<Option<Stored>>)
    ensures |r| == |sites| && forall i :: 0 <= i < |r| ==> r[i] == AllHoursRow(db, t, sites[i])
  {
    seq(|sites|, i requires 0 <= i < |sites| => AllHoursRow(db, t, sites[i]))
  }

  function HourRows(db: Database, t: Paint.Track, sites: seq<Site>, h: HourBlock): (r: seq<Option<Stored>>)
    ensures |r| == |sites| && forall i :: 0 <= i < |r| ==> r[i] == HourRow(db, t, sites[i], h)
  {
    seq(|sites|, i requires 0 <= i < |sites| => HourRow(db, t, sites[i], h))
  }

  function DayRows(db: Database, t: Paint.Track, sites: seq<Site>, h: HourBlock, d: Weekday): (r: seq<Option<Stored>>)
    ensures |r| == |sites| && forall i :: 0 <= i < |r| ==> r[i] == DayRow(db, t, sites[i], h, d)
  {
    seq(|sites|, i requires 0 <= i < |sites| => DayRow(db, t, sites[i], h, d))
  }

  /** `_baselines` of route_baseline's rows, for the whole city: a group whose average
      is not positive is left out. */
  ghost predicate IsBaseline(base: Baseline, db: Database, t: Paint.Track, sites: seq<Site>) {
    && base.overall == FromSums(SumUp(AllHoursRows(db, t, sites)))
    && (forall h :: RouteScorer.Get(base.hourly, h) == FromSums(SumUp(HourRows(db, t, sites, h))))
    && (forall h, d :: RouteScorer.Get(base.timed, (h, d)) == FromSums(SumUp(DayRows(db, t, sites, h, d))))
  }

  // ---- what a route is told

  lemma NotEmpty<K, V>(m: map<K, V>, k: K)
    requires k in m
    ensures m != map[]
  {
  }

  /** What a complete row holds of an hour and a day. */
  lemma CompleteHolds(db: Database, t: Paint.Track, s: Site, h: HourBlock, d: Weekday)
    ensures var row := Complete(db, Name(t), s.cell);
      && (row.None? ==> !Rated(db, t, s) && AtHour(db, t, s, h).None? && Factor(db, t, s, d).None?)
      && (row.Some? ==>
            && row.value.sm == (if Rated(db, t, s) then Some(AllHours(db, t, s).0) else None)
            && row.value.tier == (if Rated(db, t, s) then Some(AllHours(db, t, s).1) else None)
            && RouteScorer.Get(row.value.hsm, h) ==
                (if AtHour(db, t, s, h).Some? then Some(AtHour(db, t, s, h).value.0) else None)
            && RouteScorer.Get(row.value.htier, h) ==
                (if AtHour(db, t, s, h).Some? then Some(AtHour(db, t, s, h).value.1) else None)
            && RouteScorer.Get(row.value.df, d) == Factor(db, t, s, d))
  {
    var n, hours, days := Name(t), set k | k in db.hours :: k.2, set k | k in db.factors :: k.2;
    var hk, dk := (n, s.cell, h), (n, s.cell, d);
    assert hk in db.hours ==> h in hours;
    assert dk in db.factors ==> d in days;
    var hsm := map x | x in hours && (n, s.cell, x) in db.hours :: db.hours[(n, s.cell, x)].0;
    var df := map x | x in days && (n, s.cell, x) in db.factors :: db.factors[(n, s.cell, x)];
    if hk in db.hours {
      NotEmpty(hsm, h);
    }
    if dk in db.factors {
      NotEmpty(df, d);
    }
  }

  /** The question `ratios` asks of a complete row, at an hour and a day. */
  lemma CompleteAsks(db: Database, t: Paint.Track, s: Site, base: Baseline, h: HourBlock, d: Weekday)
    ensures var q := Ask(Complete(db, Name(t), s.cell), base, Some((h, d)));
      var hour, factor := AtHour(db, t, s, h), Factor(db, t, s, d);
      && (q.None? ==> !Rated(db, t, s) && hour.None? && factor.None?)
      && (q.Some? ==>
            var dayed := hour.Some? && factor.Some? && (h, d) in base.timed;
            && q.value.sm == (if Rated(db, t, s) then Some(AllHours(db, t, s).0) else None)
            && q.value.tier == (if Rated(db, t, s) then Some(AllHours(db, t, s).1) else None)
            && q.value.hsm ==
                (if hour.None? then None else Some(if dayed then Times(hour.value.0, factor.value) else hour.value.0))
            && q.value.htier == (if hour.None? then None else Some(hour.value.1))
            && q.value.hour == Some(h) && q.value.day == if dayed then Some(d) else None)
  {
    hide Times, Complete, AtHour, Factor, AllHours, Rated;
    CompleteHolds(db, t, s, h, d);
  }

  lemma CompleteAsksUntimed(db: Database, t: Paint.Track, s: Site, base: Baseline)
    ensures var q := Ask(Complete(db, Name(t), s.cell), base, None);
      && (q.None? ==> !Rated(db, t, s))
      && (q.Some? ==>
            && q.value.sm == (if Rated(db, t, s) then Some(AllHours(db, t, s).0) else None)
            && q.value.tier == (if Rated(db, t, s) then Some(AllHours(db, t, s).1) else None)
            && q.value.hour == None)
  {
  }

  // ---- the layer shows the rows

  lemma ShowsAllHours(db: Database, t: Paint.Track, sites: seq<Site>, time: Time, pct: string -> real)
    ensures ShowsAll(Layer(db, t, sites, time, pct), Rate(t), Tier(t), AllHoursRows(db, t, sites))
  {
    hide Properties, Times;
    forall i | 0 <= i < |sites|
      ensures Shows(FeatureOf(db, t, sites[i], time, pct), Rate(t), Tier(t), AllHoursRow(db, t, sites[i]))
    {
      FeatureIs(db, t, sites[i], time, pct);
    }
  }

  lemma FeatureIs(db: Database, t: Paint.Track, s: Site, time: Time, pct: string -> real)
    ensures var c := FeatureOf(db, t, s, time, pct);
      if !Rated(db, t, s) then
        Prop(c, Rate(t)) == Prop(c, Tier(t)) == Prop(c, "h" + Rate(t)) == Prop(c, "h" + Tier(t)) ==
          Prop(c, "exposure") == Null
      else
        && Prop(c, Rate(t)) == Number(AllHours(db, t, s).0) && Prop(c, Tier(t)) == Number(AllHours(db, t, s).1 as real)
        && Prop(c, "exposure") == OrNull(s.exposure)
        && (time.Some? ==> var timed := Timed(db, t, s, time.value.0, time.value.1, pct);
              Prop(c, "h" + Rate(t)) == Number(timed.0) && Prop(c, "h" + Tier(t)) == Number(timed.1 as real))
  {
    hide Properties, Times;
    if !Rated(db, t, s) {
      PropertiesAre(t, Null, Null, Null, Null, Null);
    } else {
      var (sm, tier) := AllHours(db, t, s);
      PropertiesAre(t, Number(sm), Number(tier as real), Null, Null, OrNull(s.exposure));
      if time.Some? {
        var (hsm, htier) := Timed(db, t, s, time.value.0, time.value.1, pct);
        PropertiesAre(t, Number(sm), Number(tier as real), Number(hsm), Number(htier as real), OrNull(s.exposure));
      }
    }
  }

  /** The hourly layer is built from the all-hours one: the same cells, the same ones
      with nothing reported. */
  ghost predicate HoursBuilt(db: Database, t: Paint.Track, sites: seq<Site>, h: HourBlock) {
    forall i :: 0 <= i < |sites| ==>
      && (Rated(db, t, sites[i]) <==> AtHour(db, t, sites[i], h).Some?)
      && (Rated(db, t, sites[i]) ==> (AllHours(db, t, sites[i]).1 == 0 <==> AtHour(db, t, sites[i], h).value.1 == 0))
  }

  /** The day's factors are built for every rated cell, */
  ghost predicate DayBuilt(db: Database, t: Paint.Track, sites: seq<Site>, d: Weekday) {
    forall i :: 0 <= i < |sites| && Rated(db, t, sites[i]) ==> Factor(db, t, sites[i], d).Some?
  }

  /** or for none. */
  ghost predicate DayUnbuilt(db: Database, t: Paint.Track, sites: seq<Site>, d: Weekday) {
    forall i :: 0 <= i < |sites| && Rated(db, t, sites[i]) ==> Factor(db, t, sites[i], d).None?
  }

  lemma ShowsDay(db: Database, t: Paint.Track, sites: seq<Site>, h: HourBlock, d: Weekday, pct: string -> real)
    requires HoursBuilt(db, t, sites, h)
    ensures var layer := Layer(db, t, sites, Some((h, d)), pct);
      && (DayBuilt(db, t, sites, d) ==> ShowsAll(layer, "h" + Rate(t), "h" + Tier(t), DayRows(db, t, sites, h, d)))
      && (DayUnbuilt(db, t, sites, d) ==> ShowsAll(layer, "h" + Rate(t), "h" + Tier(t), HourRows(db, t, sites, h)))
  {
    hide Times, Properties;
    forall i | 0 <= i < |sites|
      ensures DayBuilt(db, t, sites, d) ==>
        Shows(FeatureOf(db, t, sites[i], Some((h, d)), pct), "h" + Rate(t), "h" + Tier(t),
              DayRow(db, t, sites[i], h, d))
      ensures DayUnbuilt(db, t, sites, d) ==>
        Shows(FeatureOf(db, t, sites[i], Some((h, d)), pct), "h" + Rate(t), "h" + Tier(t), HourRow(db, t, sites[i], h))
    {
      FeatureIs(db, t, sites[i], Some((h, d)), pct);
      if Rated(db, t, sites[i]) {
        Units(AtHour(db, t, sites[i], h).value.0);
      }
    }
  }

  /** Where the day has no factors, no row of it has an average. */
  lemma {:induction false} NoDayRows(rows: seq<Option<Stored>>)
    requires forall i :: 0 <= i < |rows| ==> rows[i].None?
    ensures FromSums(SumUp(rows)) == None && SumUp(rows).painted == 0
  {
    if rows != [] {
      NoDayRows(rows[1..]);
    }
  }

  // ---- the two agree

  function UntimedView(t: Paint.Track): View { View(t, Safety, None, None) }

  function TimedView(t: Paint.Track, h: nat, d: nat): View { View(t, Safety, Some(h), Some(d)) }

  /** What the map makes of a cell of the layer. */
  function MapRatio(v: View, layer: seq<Feature>, c: Feature): Option<real> {
    DomainAveraged(PaintedMeasure(v), layer);
    Paint.CellRatio(c, PaintedMeasure(v), MeasureDomain(PaintedMeasure(v), layer))
  }

  /** What a route makes of it. */
  function RouteRatio(db: Database, t: Paint.Track, s: Site, base: Baseline, time: Time): Option<real> {
    Ratio(Complete(db, Name(t), s.cell), base, time)
  }

  /** The two databases hold the same of one track. */
  ghost predicate SameOf(a: Database, b: Database, track: string) {
    && (forall c: string :: RouteScorer.Get(a.safety, (track, c)) == RouteScorer.Get(b.safety, (track, c)))
    && (forall c: string, h: HourBlock ::
          RouteScorer.Get(a.hours, (track, c, h)) == RouteScorer.Get(b.hours, (track, c, h)))
    && (forall c: string, d: Weekday ::
          RouteScorer.Get(a.factors, (track, c, d)) == RouteScorer.Get(b.factors, (track, c, d)))
  }

  lemma {:induction false} SameFactsOf(a: Database, b: Database, t: Paint.Track, s: Site, h: HourBlock, d: Weekday)
    requires SameOf(a, b, if t.Violent? then "violent" else "non_violent")
    ensures Rated(a, t, s) == Rated(b, t, s) && (Rated(a, t, s) ==> AllHours(a, t, s) == AllHours(b, t, s))
    ensures AtHour(a, t, s, h) == AtHour(b, t, s, h) && Factor(a, t, s, d) == Factor(b, t, s, d)
  {
    var name := if t.Violent? then "violent" else "non_violent";
    assert RouteScorer.Get(a.safety, (name, s.cell)) == RouteScorer.Get(b.safety, (name, s.cell));
  }

  /** Each track is rated on its own rows: what the database holds of the other moves
      neither the layer nor a route's ratio. */
  lemma {:induction false} OneTrackEach(a: Database, b: Database, t: Paint.Track, s: Site, base: Baseline, h: HourBlock,
                                        d: Weekday, pct: string -> real)
    requires SameOf(a, b, if t.Violent? then "violent" else "non_violent")
    ensures FeatureOf(a, t, s, None, pct) == FeatureOf(b, t, s, None, pct)
    ensures FeatureOf(a, t, s, Some((h, d)), pct) == FeatureOf(b, t, s, Some((h, d)), pct)
    ensures RouteRatio(a, t, s, base, None) == RouteRatio(b, t, s, base, None)
    ensures RouteRatio(a, t, s, base, Some((h, d))) == RouteRatio(b, t, s, base, Some((h, d)))
  {
    hide SameOf, Properties, Times, Complete, Ask, RouteScorer.CellRatio, Rated, AllHours, AtHour, Factor;
    SameFactsOf(a, b, t, s, h, d);
    CompleteAsks(a, t, s, base, h, d);
    CompleteAsks(b, t, s, base, h, d);
    CompleteAsksUntimed(a, t, s, base);
    CompleteAsksUntimed(b, t, s, base);
    SameAnswers(Ask(Complete(a, Name(t), s.cell), base, None), Ask(Complete(b, Name(t), s.cell), base, None), base);
    SameAnswers(Ask(Complete(a, Name(t), s.cell), base, Some((h, d))),
                Ask(Complete(b, Name(t), s.cell), base, Some((h, d))), base);
  }

  predicate Nothing(q: Question) { q.sm == None && q.tier == None && (q.hour.Some? ==> q.htier == None) }

  /** Two questions with the same figures, of which one may be that of a missing row. */
  lemma {:induction false} SameAnswers(q: Option<Question>, r: Option<Question>, base: Baseline)
    requires q.Some? && r.Some? ==>
      && q.value.sm == r.value.sm && q.value.tier == r.value.tier && q.value.hour == r.value.hour
      && (q.value.hour.Some? ==> q.value.hsm == r.value.hsm && q.value.htier == r.value.htier)
      && (q.value.hour.Some? ==> q.value.day == r.value.day)
    requires q.None? && r.Some? ==> Nothing(r.value)
    requires r.None? && q.Some? ==> Nothing(q.value)
    ensures (if q.None? then None else RouteScorer.CellRatio(q.value, base))
      == (if r.None? then None else RouteScorer.CellRatio(r.value, base))
  {
  }

  /** A cell with no rate at all is neutral on the map. */
  lemma UnratedIsNeutral(v: View, layer: seq<Feature>, c: Feature)
    requires v.scale.Safety?
    requires Prop(c, Rate(v.track)).Null? && OrZero(c, PaintedMeasure(v).tier) == 0.0
    ensures MapRatio(v, layer, c) == None
  {
  }

  /** Over all hours a route rates every cell as the map does. */
  lemma AgreeUntimed(db: Database, t: Paint.Track, sites: seq<Site>, i: nat, base: Baseline, pct: string -> real)
    requires i < |sites| && IsBaseline(base, db, t, sites)
    ensures var layer := Layer(db, t, sites, None, pct);
      RouteRatio(db, t, sites[i], base, None) == MapRatio(UntimedView(t), layer, layer[i])
  {
    hide Properties, Paint.CellRatio, RouteScorer.CellRatio, SumUp;
    var v, layer, q := UntimedView(t), Layer(db, t, sites, None, pct),
      Ask(Complete(db, Name(t), sites[i].cell), base, None);
    ShowsAllHours(db, t, sites, None, pct);
    FeatureIs(db, t, sites[i], None, pct);
    CompleteAsksUntimed(db, t, sites[i], base);
    if q.None? {
      UnratedIsNeutral(v, layer, layer[i]);
    } else {
      RatedAsPainted(v, layer, layer[i], q.value, base, AllHoursRows(db, t, sites), []);
    }
  }

  /** The one way they part in a built database: the day's factors leave no positive
      average, so a route compares by the hour alone, while the map has nothing to
      compare a painted cell with. */
  predicate FactorsVanish(db: Database, t: Paint.Track, s: Site, base: Baseline, h: HourBlock, d: Weekday) {
    && Rated(db, t, s) && AllHours(db, t, s).1 != 0
    && Factor(db, t, s, d).Some? && (h, d) !in base.timed && h in base.hourly
  }

  /** The layer's feature of a rated cell and a route's question about it carry the
      same figures, unless the route drops the day. */
  lemma SameFiguresAt(db: Database, t: Paint.Track, s: Site, base: Baseline, h: nat, d: nat, pct: string -> real,
                      q: Question)
    requires Ask(Complete(db, Name(t), s.cell), base, Some((h, d))) == Some(q)
    requires Rated(db, t, s) && AtHour(db, t, s, h).Some?
    requires AllHours(db, t, s).1 == 0 <==> AtHour(db, t, s, h).value.1 == 0
    requires Factor(db, t, s, d).None? || (h, d) in base.timed
    ensures SameFigures(FeatureOf(db, t, s, Some((h, d)), pct), t, q)
    ensures q.hour == Some(h) && q.day == if Factor(db, t, s, d).Some? then Some(d) else None
  {
    hide FeatureOf, Ask, Times;
    FeatureIs(db, t, s, Some((h, d)), pct);
    CompleteAsks(db, t, s, base, h, d);
    Units(AtHour(db, t, s, h).value.0);
  }

  lemma AgreeAtTime(db: Database, t: Paint.Track, sites: seq<Site>, i: nat, base: Baseline, h: nat, d: nat,
                    pct: string -> real)
    requires i < |sites| && IsBaseline(base, db, t, sites) && HoursBuilt(db, t, sites, h)
    requires DayUnbuilt(db, t, sites, d) || (DayBuilt(db, t, sites, d) && (h, d) in base.timed)
    ensures var layer := Layer(db, t, sites, Some((h, d)), pct);
      RouteRatio(db, t, sites[i], base, Some((h, d))) == MapRatio(TimedView(t, h, d), layer, layer[i])
  {
    hide FeatureOf, Ask, Paint.CellRatio, RouteScorer.CellRatio, SumUp, FromSums, ShowsAll, SameFigures;
    var s, v, layer := sites[i], TimedView(t, h, d), Layer(db, t, sites, Some((h, d)), pct);
    var q := Ask(Complete(db, Name(t), s.cell), base, Some((h, d)));
    CompleteAsks(db, t, s, base, h, d);
    if !Rated(db, t, s) {
      FeatureIs(db, t, s, Some((h, d)), pct);
      UnratedIsNeutral(v, layer, layer[i]);
      if q.Some? {
        UnratedIsUnrated(q.value, base);
      }
    } else {
      ShowsAllHours(db, t, sites, Some((h, d)), pct);
      ShowsDay(db, t, sites, h, d, pct);
      SameFiguresAt(db, t, s, base, h, d, pct, q.value);
      var rows := if Factor(db, t, s, d).Some? then DayRows(db, t, sites, h, d) else HourRows(db, t, sites, h);
      RatedAsPainted(v, layer, layer[i], q.value, base, AllHoursRows(db, t, sites), rows);
    }
  }

  lemma UnratedIsUnrated(q: Question, base: Baseline)
    requires q.sm == None && q.tier == None && q.htier == None
    ensures RouteScorer.CellRatio(q, base) == None
  {
  }

  /** At an hour and a day, over a database whose layers are built, a route rates a cell
      as the map does exactly when the day's factors do not vanish there. */
  lemma AgreeIff(db: Database, t: Paint.Track, sites: seq<Site>, i: nat, base: Baseline, h: nat, d: nat,
                 pct: string -> real)
    requires i < |sites| && IsBaseline(base, db, t, sites) && HoursBuilt(db, t, sites, h)
    requires DayBuilt(db, t, sites, d) || DayUnbuilt(db, t, sites, d)
    ensures var layer := Layer(db, t, sites, Some((h, d)), pct);
      (RouteRatio(db, t, sites[i], base, Some((h, d))) == MapRatio(TimedView(t, h, d), layer, layer[i]))
      <==> !FactorsVanish(db, t, sites[i], base, h, d)
  {
    if DayUnbuilt(db, t, sites, d) || (h, d) in base.timed {
      AgreeAtTime(db, t, sites, i, base, h, d, pct);
    } else {
      Vanished(db, t, sites, i, base, h, d, pct);
    }
  }

  /** A route that drops the day compares by the hour, or borrows. */
  lemma DaylessRoute(db: Database, t: Paint.Track, s: Site, base: Baseline, h: nat, d: nat)
    requires (h, d) !in base.timed && (Rated(db, t, s) <==> AtHour(db, t, s, h).Some?)
    requires Rated(db, t, s) ==> (AllHours(db, t, s).1 == 0 <==> AtHour(db, t, s, h).value.1 == 0)
    requires base.overall.Some? ==> base.overall.value > 0.0
    requires h in base.hourly ==> base.hourly[h] > 0.0
    ensures RouteRatio(db, t, s, base, Some((h, d))) ==
      if !Rated(db, t, s) then None
      else if AllHours(db, t, s).1 != 0 then
        if h in base.hourly then Some(AtHour(db, t, s, h).value.0 / base.hourly[h]) else None
      else if base.overall.Some? then Some(AllHours(db, t, s).0 / base.overall.value) else None
  {
    hide Complete, Ask, Times;
    CompleteAsks(db, t, s, base, h, d);
  }

  /** A map whose timed layer has no average paints nothing by it, and borrows. */
  lemma NoOwnMap(db: Database, t: Paint.Track, sites: seq<Site>, i: nat, h: nat, d: nat, pct: string -> real)
    requires i < |sites| && FromSums(SumUp(DayRows(db, t, sites, h, d))) == None
    requires HoursBuilt(db, t, sites, h) && DayBuilt(db, t, sites, d)
    ensures var layer, overall := Layer(db, t, sites, Some((h, d)), pct), FromSums(SumUp(AllHoursRows(db, t, sites)));
      MapRatio(TimedView(t, h, d), layer, layer[i]) ==
        if !Rated(db, t, sites[i]) || AllHours(db, t, sites[i]).1 != 0 || overall.None? then None
        else Some(AllHours(db, t, sites[i]).0 / overall.value)
    ensures var overall := FromSums(SumUp(AllHoursRows(db, t, sites))); overall.Some? ==> overall.value > 0.0
  {
    hide FeatureOf, ShowsAll, SumUp, FromSums, Own, Overall;
    var s, v, layer := sites[i], TimedView(t, h, d), Layer(db, t, sites, Some((h, d)), pct);
    var m := PaintedMeasure(v);
    ShowsAllHours(db, t, sites, Some((h, d)), pct);
    ShowsDay(db, t, sites, h, d, pct);
    FeatureIs(db, t, s, Some((h, d)), pct);
    BaselineIsLayerAverage(layer, Rate(t), Tier(t), AllHoursRows(db, t, sites));
    BaselineIsLayerAverage(layer, m.valueProp, m.tier, DayRows(db, t, sites, h, d));
    OwnIsAverage(v, layer);
    BaselinePositive(AllHoursRows(db, t, sites));
  }

  lemma Vanished(db: Database, t: Paint.Track, sites: seq<Site>, i: nat, base: Baseline, h: nat, d: nat,
                 pct: string -> real)
    requires i < |sites| && IsBaseline(base, db, t, sites) && HoursBuilt(db, t, sites, h)
    requires DayBuilt(db, t, sites, d) && (h, d) !in base.timed
    ensures var layer := Layer(db, t, sites, Some((h, d)), pct);
      (RouteRatio(db, t, sites[i], base, Some((h, d))) == MapRatio(TimedView(t, h, d), layer, layer[i]))
      <==> !FactorsVanish(db, t, sites[i], base, h, d)
  {
    hide RouteRatio, MapRatio, SumUp, FromSums, Layer;
    assert RouteScorer.Get(base.timed, (h, d)) == FromSums(SumUp(DayRows(db, t, sites, h, d)));
    assert RouteScorer.Get(base.hourly, h) == FromSums(SumUp(HourRows(db, t, sites, h)));
    BaselinePositive(HourRows(db, t, sites, h));
    NoOwnMap(db, t, sites, i, h, d, pct);
    DaylessRoute(db, t, sites[i], base, h, d);
  }

  /** Where a layer is not built for a painted cell, the two compare different things,
      so they agree exactly when these come out the same. Without an hour's row the map
      scales the all-hours rate by the day and a route borrows it as it stands; without
      a day's factor a route compares by the hour alone. */
  lemma UnbuiltCell(db: Database, t: Paint.Track, s: Site, layer: seq<Feature>, base: Baseline, h: nat, d: nat,
                    pct: string -> real)
    requires Rated(db, t, s) && AllHours(db, t, s).1 != 0
    requires base.overall.Some? ==> base.overall.value > 0.0
    requires h in base.hourly ==> base.hourly[h] > 0.0
    ensures var (sm, own) := (AllHours(db, t, s).0, Own(PaintedMeasure(TimedView(t, h, d)), layer));
      var hour, factor := AtHour(db, t, s, h), Factor(db, t, s, d);
      && MapRatio(TimedView(t, h, d), layer, FeatureOf(db, t, s, Some((h, d)), pct)) ==
           (if own.None? then None else Some(Timed(db, t, s, h, d, pct).0 / own.value.average))
      && (hour.None? ==>
            RouteRatio(db, t, s, base, Some((h, d))) ==
              (if base.overall.None? then None else Some(sm / base.overall.value)))
      && (hour.Some? && hour.value.1 != 0 && factor.None? ==>
            RouteRatio(db, t, s, base, Some((h, d))) ==
              (if h in base.hourly then Some(hour.value.0 / base.hourly[h]) else None))
  {
    hide FeatureOf, Complete, Ask, Times, Own, Overall;
    FeatureIs(db, t, s, Some((h, d)), pct);
    CompleteAsks(db, t, s, base, h, d);
  }

  lemma {:induction false} BaselinePositive(rows: seq<Option<Stored>>)
    ensures FromSums(SumUp(rows)).Some? ==> FromSums(SumUp(rows)).value > 0.0
  {
  }

  // ---- an input at which they part

  const C: Site := Site("c", Some(100.0))

  /** One cell, whose factor for Mondays is zero. */
  function StillMonday(): Database {
    Database(map[("violent", "c") := (2.0, 3)], map[("violent", "c", 8) := (2.0, 3)], map[("violent", "c", 0) := 0.0])
  }

  lemma OneRow(row: Stored)
    ensures row.tier == 0 ==> SumUp([Some(row)]) == SumUp([None]) == Sums(0.0, 0.0, 0.0, 0)
    ensures row.tier != 0 && row.exposure == Some(100.0) ==>
      SumUp([Some(row)]) == Sums(Times(row.rate, 100.0), 100.0, row.rate, 1)
  {
    var none: seq<Option<Stored>> := [None];
    assert [Some(row)][1..] == [] && none[1..] == [];
  }

  lemma StillBaseline()
    ensures IsBaseline(Baseline(Some(2.0), map[8 := 2.0], map[]), StillMonday(), Paint.Violent, [C])
  {
    var db, base := StillMonday(), Baseline(Some(2.0), map[8 := 2.0], map[]);
    OneRow(Stored(2.0, 3, Some(100.0)));
    OneRow(Stored(Times(2.0, 0.0), 3, Some(100.0)));
    Units(2.0);
    Units(100.0);
    assert Times(2.0, 100.0) == 200.0;
    assert AllHoursRows(db, Paint.Violent, [C]) == [Some(Stored(2.0, 3, Some(100.0)))];
    forall h ensures RouteScorer.Get(base.hourly, h) == FromSums(SumUp(HourRows(db, Paint.Violent, [C], h))) {
      if h == 8 {
        assert HourRows(db, Paint.Violent, [C], h) == [Some(Stored(2.0, 3, Some(100.0)))];
      } else {
        NoDayRows(HourRows(db, Paint.Violent, [C], h));
      }
    }
    forall h, d ensures RouteScorer.Get(base.timed, (h, d)) == FromSums(SumUp(DayRows(db, Paint.Violent, [C], h, d))) {
      if h == 8 && d == 0 {
        assert DayRows(db, Paint.Violent, [C], h, d) == [Some(Stored(Times(2.0, 0.0), 3, Some(100.0)))];
      } else {
        NoDayRows(DayRows(db, Paint.Violent, [C], h, d));
      }
    }
  }

  /** At eight on a Monday the map leaves the cell neutral and a route rates it. */
  lemma FactorsVanishHere(pct: string -> real)
    ensures var base := Baseline(Some(2.0), map[8 := 2.0], map[]);
      var layer := Layer(StillMonday(), Paint.Violent, [C], Some((8, 0)), pct);
      && IsBaseline(base, StillMonday(), Paint.Violent, [C])
      && RouteRatio(StillMonday(), Paint.Violent, C, base, Some((8, 0)))
           != MapRatio(TimedView(Paint.Violent, 8, 0), layer, layer[0])
  {
    hide RouteRatio, MapRatio, Layer;
    StillBaseline();
    AgreeIff(StillMonday(), Paint.Violent, [C], 0, Baseline(Some(2.0), map[8 := 2.0], map[]), 8, 0, pct);
  }
}
