/** Ambient population by areal apportionment (safety/etl/census.py): census blocks
    split over cells, cell by cell as the city's universe grows, from polygons that
    are dropped once they are no longer needed. */
module Census {
  import opened Wrappers
  import opened Reals

  type Cell = string
  // A block's polygon.
  type Shape = nat

  datatype Block = Block(pop: nat, jobs: Option<nat>, geom: Option<Shape>)

  /** PostGIS, as far as the apportionment asks: whether a polygon's box meets a
      cell's, and the share of its area inside the cell (NULL for no area). */
  datatype Geometry = Geometry(touches: (Shape, Cell) -> bool, frac: (Shape, Cell) -> Option<real>)

  datatype Exposure = Exposure(residents: real, jobs: real, blockCount: nat)

  datatype Measure = Residents | Jobs

  function People(b: Block, m: Measure): nat {
    match m
    case Residents => b.pop
    case Jobs => if b.jobs.Some? then b.jobs.value else 0
  }

  predicate Joins(g: Geometry, b: Block, cell: Cell) {
    b.geom.Some? && g.touches(b.geom.value, cell)
  }

  /** The share of a block's people a cell gets. */
  function Share(g: Geometry, b: Block, cell: Cell): real {
    if Joins(g, b, cell) && g.frac(b.geom.value, cell).Some? then g.frac(b.geom.value, cell).value else 0.0
  }

  /** COALESCE(sum(people * frac), 0). */
  function Apportioned(g: Geometry, blocks: seq<Block>, cell: Cell, m: Measure): real {
    if blocks == [] then 0.0
    else Times(People(blocks[0], m) as real, Share(g, blocks[0], cell)) + Apportioned(g, blocks[1..], cell, m)
  }

  function Joined(g: Geometry, blocks: seq<Block>, cell: Cell): nat {
    if blocks == [] then 0 else (if Joins(g, blocks[0], cell) then 1 else 0) + Joined(g, blocks[1..], cell)
  }

  /** The row _EXPOSURE_SQL writes for a cell. */
  function Apportion(g: Geometry, blocks: seq<Block>, cell: Cell): Exposure {
    Exposure(Apportioned(g, blocks, cell, Residents), Apportioned(g, blocks, cell, Jobs), Joined(g, blocks, cell))
  }

  // ---- people are conserved

  /** A block's shares over some cells, summed. */
  function ShareSum(g: Geometry, b: Block, cells: seq<Cell>): real {
    if cells == [] then 0.0 else Share(g, b, cells[0]) + ShareSum(g, b, cells[1..])
  }

  function CellTotal(g: Geometry, blocks: seq<Block>, cells: seq<Cell>, m: Measure): real {
    if cells == [] then 0.0 else Apportioned(g, blocks, cells[0], m) + CellTotal(g, blocks, cells[1..], m)
  }

  function BlockTotal(blocks: seq<Block>, m: Measure): nat {
    if blocks == [] then 0 else People(blocks[0], m) + BlockTotal(blocks[1..], m)
  }

  /** What one block gives the cells in all. */
  lemma {:induction false} CellTotalHead(g: Geometry, b: Block, rest: seq<Block>, cells: seq<Cell>, m: Measure)
    ensures CellTotal(g, [b] + rest, cells, m) ==
        Times(People(b, m) as real, ShareSum(g, b, cells)) + CellTotal(g, rest, cells, m)
  {
    Units(People(b, m) as real);
    if cells != [] {
      CellTotalHead(g, b, rest, cells[1..], m);
      Distribute(People(b, m) as real, Share(g, b, cells[0]), ShareSum(g, b, cells[1..]));
      assert ([b] + rest)[1..] == rest;
    }
  }

  lemma {:induction false} NoBlocks(g: Geometry, cells: seq<Cell>, m: Measure)
    ensures CellTotal(g, [], cells, m) == 0.0
  {
    if cells != [] {
      NoBlocks(g, cells[1..], m);
    }
  }

  /** Over cells that do not overlap, no block gives out more than itself. */
  ghost predicate Disjoint(g: Geometry, blocks: seq<Block>, cells: seq<Cell>) {
    forall i :: 0 <= i < |blocks| ==> ShareSum(g, blocks[i], cells) <= 1.0
  }

  /** The cells cover the blocks: each gives out exactly itself. */
  ghost predicate Covered(g: Geometry, blocks: seq<Block>, cells: seq<Cell>) {
    forall i :: 0 <= i < |blocks| ==> ShareSum(g, blocks[i], cells) == 1.0
  }

  /** Apportionment never creates people, and loses none when the cells cover the
      blocks: the retained share the build reports is at most one. */
  lemma {:induction false} PeopleConserved(g: Geometry, blocks: seq<Block>, cells: seq<Cell>, m: Measure)
    requires Disjoint(g, blocks, cells)
    ensures CellTotal(g, blocks, cells, m) <= BlockTotal(blocks, m) as real
    ensures Covered(g, blocks, cells) ==> CellTotal(g, blocks, cells, m) == BlockTotal(blocks, m) as real
  {
    if blocks == [] {
      NoBlocks(g, cells, m);
    } else {
      var b, rest := blocks[0], blocks[1..];
      assert blocks == [b] + rest;
      forall i | 0 <= i < |rest| ensures ShareSum(g, rest[i], cells) <= 1.0 {
        assert rest[i] == blocks[i + 1];
      }
      PeopleConserved(g, rest, cells, m);
      CellTotalHead(g, b, rest, cells, m);
      var n, s := People(b, m) as real, ShareSum(g, b, cells);
      Distribute(n, 1.0, s);
      Sign(n, 1.0 - s);
      Units(n);
      assert Covered(g, blocks, cells) ==> s == 1.0;
      if Covered(g, blocks, cells) {
        assert forall i :: 0 <= i < |rest| ==> rest[i] == blocks[i + 1];
      }
    }
  }

  // ---- the tables and what happens to them

  /** reference.census_block, the cell universe and gold.cell_exposure, for one city.
      `loaded` is the blocks as last loaded and `stale` whether they were loaded since
      the last rebuild; no operation reads either. */
  datatype Tables = Tables(blocks: seq<Block>, universe: set<Cell>, exposure: map<Cell, Exposure>, loaded: seq<Block>,
                           stale: bool)

  datatype Outcome = Done | PolygonsReleased | StillPending | NoCells

  datatype Operation =
    | Grow(cells: set<Cell>)        // build_cell_universe never drops a cell
    | Reload(blocks: seq<Block>)    // a census load, of blocks or of jobs
    | Build(rebuild: bool)          // build_cell_exposure
    | Release                       // release_block_geometry

  function Pending(t: Tables): set<Cell> { t.universe - t.exposure.Keys }

  /** geometry_released: any missing polygon counts. */
  predicate Released(blocks: seq<Block>) {
    exists i :: 0 <= i < |blocks| && blocks[i].geom.None?
  }

  function WithoutGeometry(blocks: seq<Block>): (r: seq<Block>)
    ensures |r| == |blocks| && forall i :: 0 <= i < |r| ==> r[i] == blocks[i].(geom := None)
  {
    seq(|blocks|, i requires 0 <= i < |blocks| => blocks[i].(geom := None))
  }

  /** The rows a build leaves: those it keeps, and one for every cell without. */
  function Filled(g: Geometry, t: Tables, keep: map<Cell, Exposure>): map<Cell, Exposure> {
    map c | c in keep.Keys + t.universe :: if c in keep then keep[c] else Apportion(g, t.blocks, c)
  }

  function Apply(g: Geometry, t: Tables, op: Operation): (Tables, Outcome) {
    match op
    case Grow(cells) => (t.(universe := t.universe + cells), Done)
    case Reload(blocks) => (t.(blocks := blocks, loaded := blocks, stale := true), Done)
    case Build(rebuild) =>
      if Released(t.blocks) && (Pending(t) != {} || rebuild) then (t, PolygonsReleased)
      else
        var exposure := Filled(g, t, if rebuild then map[] else t.exposure);
        (t.(exposure := exposure, stale := t.stale && !rebuild), if exposure == map[] then NoCells else Done)
    case Release =>
      if Pending(t) != {} then (t, StillPending) else (t.(blocks := WithoutGeometry(t.blocks)), Done)
  }

  const EMPTY := Tables([], {}, map[], [], false)

  function Run(g: Geometry, ops: seq<Operation>): Tables {
    if ops == [] then EMPTY else Apply(g, Run(g, ops[..|ops| - 1]), ops[|ops| - 1]).0
  }

  // ---- the incremental figures are the full ones

  /** The blocks are as loaded, but for polygons that were dropped. */
  ghost predicate SameBlocks(t: Tables) {
    && |t.blocks| == |t.loaded|
    && forall i :: 0 <= i < |t.blocks| ==> t.blocks[i] == t.loaded[i] || t.blocks[i] == t.loaded[i].(geom := None)
  }

  /** Unless blocks were loaded since the last rebuild, every stored row is the full
      apportionment of the blocks as loaded. */
  ghost predicate Faithful(g: Geometry, t: Tables) {
    && SameBlocks(t)
    && t.exposure.Keys <= t.universe
    && (!t.stale ==> forall c :: c in t.exposure ==> t.exposure[c] == Apportion(g, t.loaded, c))
  }

  /** A build that goes ahead still has the polygons, or has no row to write. */
  lemma BuiltFromLoaded(g: Geometry, t: Tables, rebuild: bool, cell: Cell)
    requires SameBlocks(t) && t.exposure.Keys <= t.universe && cell in t.universe
    requires !Released(t.blocks) || (Pending(t) == {} && !rebuild)
    ensures (cell in t.exposure && !rebuild) || Apportion(g, t.blocks, cell) == Apportion(g, t.loaded, cell)
  {
    if Released(t.blocks) {
      assert cell !in Pending(t);
    } else {
      forall i | 0 <= i < |t.blocks| ensures t.blocks[i] == t.loaded[i] {
        assert t.blocks[i].geom.Some?;
      }
      assert t.blocks == t.loaded;
    }
  }

  lemma ApplyFaithful(g: Geometry, t: Tables, op: Operation)
    requires Faithful(g, t)
    ensures Faithful(g, Apply(g, t, op).0)
  {
    var t' := Apply(g, t, op).0;
    if op.Build? && Apply(g, t, op).1 != PolygonsReleased {
      if !t'.stale {
        forall c | c in t'.exposure ensures t'.exposure[c] == Apportion(g, t'.loaded, c) {
          BuiltFromLoaded(g, t, op.rebuild, c);
        }
      }
    }
  }

  /** Incremental equals full: after any interleaving of universe growth, loads,
      builds, rebuilds and releases, each row is what a rebuild from the loaded
      blocks would write, polygons or no polygons. */
  lemma {:induction false} IncrementalIsFull(g: Geometry, ops: seq<Operation>)
    ensures Faithful(g, Run(g, ops))
  {
    if ops != [] {
      IncrementalIsFull(g, ops[..|ops| - 1]);
      ApplyFaithful(g, Run(g, ops[..|ops| - 1]), ops[|ops| - 1]);
    }
  }

  /** So, while the polygons are there, filling in the missing cells and rebuilding
      the whole city leave the same table. */
  lemma {:induction false} IncrementalMatchesRebuild(g: Geometry, ops: seq<Operation>)
    requires !Run(g, ops).stale && !Released(Run(g, ops).blocks)
    ensures Apply(g, Run(g, ops), Build(false)).0.exposure == Apply(g, Run(g, ops), Build(true)).0.exposure
  {
    var t := Run(g, ops);
    IncrementalIsFull(g, ops);
    var filled, rebuilt := Filled(g, t, t.exposure), Filled(g, t, map[]);
    assert filled.Keys == t.universe == rebuilt.Keys;
    forall c | c in filled ensures filled[c] == rebuilt[c] {
      BuiltFromLoaded(g, t, true, c);
    }
  }

  /** Whatever came before, a build either changes nothing, exactly when it would need
      polygons that are gone, or leaves every cell of the universe with a row and the
      rows it keeps untouched. */
  lemma {:induction false} BuildAllOrNothing(g: Geometry, ops: seq<Operation>, rebuild: bool)
    ensures var t := Run(g, ops);
      var (t', outcome) := Apply(g, t, Build(rebuild));
      && (outcome == PolygonsReleased <==> Released(t.blocks) && (Pending(t) != {} || rebuild))
      && (outcome == PolygonsReleased ==> t' == t)
      && (outcome != PolygonsReleased ==> Pending(t') == {} && t'.exposure.Keys == t.universe)
      && (outcome == NoCells <==> outcome != PolygonsReleased && t.universe == {})
      && (!rebuild ==> forall c :: c in t.exposure ==> c in t'.exposure && t'.exposure[c] == t.exposure[c])
      && (rebuild && outcome != PolygonsReleased ==>
            !t'.stale && forall c :: c in t'.exposure ==> t'.exposure[c] == Apportion(g, t.loaded, c))
  {
    var t := Run(g, ops);
    IncrementalIsFull(g, ops);
    var (t', outcome) := Apply(g, t, Build(rebuild));
    if outcome != PolygonsReleased {
      assert t'.exposure.Keys == t.universe;
      assert t'.exposure == map[] <==> t'.exposure.Keys == {};
      if rebuild {
        forall c | c in t'.exposure ensures t'.exposure[c] == Apportion(g, t.loaded, c) {
          BuiltFromLoaded(g, t, rebuild, c);
        }
      }
    }
  }

  /** Polygons are only ever released when no cell is waiting for them, and counts and
      rows stay. Where there were blocks, a city that then grows is refused until they
      are reloaded. */
  lemma {:induction false} ReleaseIsSafe(g: Geometry, ops: seq<Operation>, more: set<Cell>)
    ensures var t := Run(g, ops);
      var (t', outcome) := Apply(g, t, Release);
      && (outcome == Done <==> Pending(t) == {})
      && (outcome != Done ==> t' == t)
      && (outcome == Done ==>
            && (Released(t'.blocks) <==> t.blocks != []) && t'.exposure == t.exposure
            && (forall m :: BlockTotal(t'.blocks, m) == BlockTotal(t.blocks, m))
            && var grown := Apply(g, t', Grow(more)).0;
               (Apply(g, grown, Build(false)).1 == PolygonsReleased) <==> (t.blocks != [] && !(more <= t.universe)))
  {
    var t := Run(g, ops);
    IncrementalIsFull(g, ops);
    var (t', outcome) := Apply(g, t, Release);
    if outcome == Done {
      if t.blocks != [] {
        assert t'.blocks[0].geom.None?;
      }
      forall m ensures BlockTotal(t'.blocks, m) == BlockTotal(t.blocks, m) {
        CountsStay(t.blocks, m);
      }
      var grown := Apply(g, t', Grow(more)).0;
      assert forall c :: c in t.universe ==> c !in Pending(t);
      assert t.exposure.Keys == t.universe;
      assert Pending(grown) == more - t.universe;
      assert Pending(grown) == {} <==> forall c :: c in more ==> c !in Pending(grown);
    }
  }

  lemma {:induction false} CountsStay(blocks: seq<Block>, m: Measure)
    ensures BlockTotal(WithoutGeometry(blocks), m) == BlockTotal(blocks, m)
  {
    if blocks != [] {
      CountsStay(blocks[1..], m);
      assert WithoutGeometry(blocks)[1..] == WithoutGeometry(blocks[1..]);
    }
  }

  // ---- what the stored rows add up to

  /** The city's counts as loaded, a missing job count as none. */
  function PopLoaded(blocks: seq<Block>): nat {
    if blocks == [] then 0 else blocks[0].pop + PopLoaded(blocks[1..])
  }

  function JobsLoaded(blocks: seq<Block>): nat {
    if blocks == [] then 0
    else (match blocks[0].jobs case Some(n) => n case None => 0) + JobsLoaded(blocks[1..])
  }

  /** The columns of the stored rows of `cells`, summed. */
  function ResidentsStored(rows: map<Cell, Exposure>, cells: seq<Cell>): real
    requires forall c :: c in cells ==> c in rows
  {
    if cells == [] then 0.0 else rows[cells[0]].residents + ResidentsStored(rows, cells[1..])
  }

  function JobsStored(rows: map<Cell, Exposure>, cells: seq<Cell>): real
    requires forall c :: c in cells ==> c in rows
  {
    if cells == [] then 0.0 else rows[cells[0]].jobs + JobsStored(rows, cells[1..])
  }

  lemma {:induction false} TotalsAre(blocks: seq<Block>)
    ensures BlockTotal(blocks, Residents) == PopLoaded(blocks) && BlockTotal(blocks, Jobs) == JobsLoaded(blocks)
  {
    if blocks != [] {
      TotalsAre(blocks[1..]);
    }
  }

  lemma {:induction false} ColumnsAre(g: Geometry, blocks: seq<Block>, rows: map<Cell, Exposure>, cells: seq<Cell>)
    requires forall c :: c in cells ==> c in rows && rows[c] == Apportion(g, blocks, c)
    ensures ResidentsStored(rows, cells) == CellTotal(g, blocks, cells, Residents)
    ensures JobsStored(rows, cells) == CellTotal(g, blocks, cells, Jobs)
  {
    if cells != [] {
      ColumnsAre(g, blocks, rows, cells[1..]);
    }
  }

  /** The stored rows conserve people and jobs, each in its own column: after any
      interleaving of growth, loads, builds and releases, unless blocks were loaded since
      the last rebuild, the rows of a city's cells hold in all at most the residents and at
      most the jobs that were loaded, and exactly those where the cells cover the blocks. */
  lemma {:induction false} RowsConserve(g: Geometry, ops: seq<Operation>, cells: seq<Cell>)
    requires !Run(g, ops).stale && forall c :: c in cells ==> c in Run(g, ops).exposure
    requires Disjoint(g, Run(g, ops).loaded, cells)
    ensures var t := Run(g, ops);
      && ResidentsStored(t.exposure, cells) <= PopLoaded(t.loaded) as real
      && JobsStored(t.exposure, cells) <= JobsLoaded(t.loaded) as real
      && (Covered(g, t.loaded, cells) ==>
            && ResidentsStored(t.exposure, cells) == PopLoaded(t.loaded) as real
            && JobsStored(t.exposure, cells) == JobsLoaded(t.loaded) as real)
  {
    hide Apportion, Disjoint, Covered;
    var t := Run(g, ops);
    IncrementalIsFull(g, ops);
    ColumnsAre(g, t.loaded, t.exposure, cells);
    TotalsAre(t.loaded);
    PeopleConserved(g, t.loaded, cells, Residents);
    PeopleConserved(g, t.loaded, cells, Jobs);
  }

  /** The blocks whose box meets a cell's. */
  ghost function Meeting(g: Geometry, blocks: seq<Block>, cell: Cell): set<int> {
    set i | 0 <= i < |blocks| && blocks[i].geom.Some? && g.touches(blocks[i].geom.value, cell)
  }

  lemma MeetingAppend(g: Geometry, blocks: seq<Block>, b: Block, cell: Cell)
    ensures |Meeting(g, blocks + [b], cell)| == |Meeting(g, blocks, cell)| + if Joins(g, b, cell) then 1 else 0
  {
    var before, after := Meeting(g, blocks, cell), Meeting(g, blocks + [b], cell);
    if Joins(g, b, cell) {
      assert after == before + {|blocks|};
    } else {
      assert after == before;
    }
  }

  lemma {:induction false} CountIsMeeting(g: Geometry, blocks: seq<Block>, cell: Cell)
    ensures Joined(g, blocks, cell) == |Meeting(g, blocks, cell)|
  {
    hide Joins;
    if blocks == [] {
      assert Meeting(g, blocks, cell) == {};
    } else {
      hide Meeting, Joined;
      var n := |blocks| - 1;
      CountIsMeeting(g, blocks[..n], cell);
      JoinedAppend(g, blocks[..n], blocks[n], cell);
      MeetingAppend(g, blocks[..n], blocks[n], cell);
      assert blocks == blocks[..n] + [blocks[n]];
    }
  }

  lemma {:induction false} JoinedAppend(g: Geometry, blocks: seq<Block>, b: Block, cell: Cell)
    ensures Joined(g, blocks + [b], cell) == Joined(g, blocks, cell) + if Joins(g, b, cell) then 1 else 0
  {
    if blocks == [] {
      assert blocks + [b] == [b] && [b][1..] == [];
    } else {
      JoinedAppend(g, blocks[1..], b, cell);
      assert (blocks + [b])[1..] == blocks[1..] + [b];
    }
  }

  lemma {:induction false} NobodyThere(g: Geometry, blocks: seq<Block>, cell: Cell, m: Measure)
    requires forall i :: i in Meeting(g, blocks, cell) ==> People(blocks[i], m) == 0
    ensures Apportioned(g, blocks, cell, m) == 0.0
  {
    if blocks != [] {
      forall i | i in Meeting(g, blocks[1..], cell) ensures People(blocks[1..][i], m) == 0 {
        assert i + 1 in Meeting(g, blocks, cell);
      }
      NobodyThere(g, blocks[1..], cell, m);
      assert Joins(g, blocks[0], cell) <==> 0 in Meeting(g, blocks, cell);
      Units(People(blocks[0], m) as real);
      Units(Share(g, blocks[0], cell));
    }
  }

  /** What a stored row says of its own cell: `blockCount` counts the blocks that meet it,
      and where none of those has residents the row has none, likewise for jobs. */
  lemma {:induction false} RowTellsItsCell(g: Geometry, ops: seq<Operation>, cell: Cell)
    requires !Run(g, ops).stale && cell in Run(g, ops).exposure
    ensures var t := Run(g, ops);
      var row, meeting := t.exposure[cell], Meeting(g, t.loaded, cell);
      && row.blockCount == |meeting|
      && ((forall i :: i in meeting ==> t.loaded[i].pop == 0) ==> row.residents == 0.0)
      && ((forall i :: i in meeting ==> t.loaded[i].jobs in {None, Some(0)}) ==> row.jobs == 0.0)
  {
    hide Apportioned, Meeting, Joined, Run;
    var t := Run(g, ops);
    IncrementalIsFull(g, ops);
    CountIsMeeting(g, t.loaded, cell);
    var meeting := Meeting(g, t.loaded, cell);
    MeetingBounds(g, t.loaded, cell);
    if forall i :: i in meeting ==> t.loaded[i].pop == 0 {
      NobodyThere(g, t.loaded, cell, Residents);
    }
    if forall i :: i in meeting ==> t.loaded[i].jobs in {None, Some(0)} {
      NobodyThere(g, t.loaded, cell, Jobs);
    }
  }

  lemma MeetingBounds(g: Geometry, blocks: seq<Block>, cell: Cell)
    ensures forall i :: i in Meeting(g, blocks, cell) ==> 0 <= i < |blocks|
  {
  }

  // ---- the functions that update the tables

  class Database {
    const g: Geometry
    var blocks: seq<Block>
    var universe: set<Cell>
    var exposure: map<Cell, Exposure>
    ghost var loaded: seq<Block>
    ghost var stale: bool

    ghost function State(): Tables
      reads this
    {
      Tables(blocks, universe, exposure, loaded, stale)
    }

    constructor (g: Geometry)
      ensures State() == EMPTY && this.g == g
    {
      this.g := g;
      blocks, universe, exposure, loaded, stale := [], {}, map[], [], false;
    }

    /** `build_cell_exposure`, which writes nothing until it knows it can. */
    method BuildCellExposure(rebuild: bool) returns (outcome: Outcome)
      modifies this
      ensures (State(), outcome) == Apply(g, old(State()), Build(rebuild))
    {
      var pending := universe - exposure.Keys;
      if (exists i :: 0 <= i < |blocks| && blocks[i].geom.None?) && (pending != {} || rebuild) {
        return PolygonsReleased;
      }
      if rebuild {
        exposure := map[];
        stale := false;
      }
      ghost var keep := exposure;
      exposure := map c | c in exposure.Keys + universe ::
        if c in exposure then exposure[c] else Apportion(g, blocks, c);
      assert exposure == Filled(g, old(State()), keep);
      outcome := if exposure == map[] then NoCells else Done;
    }

    /** `release_block_geometry`. */
    method ReleaseBlockGeometry() returns (outcome: Outcome)
      modifies this
      ensures (State(), outcome) == Apply(g, old(State()), Release)
    {
      if universe - exposure.Keys != {} {
        return StillPending;
      }
      if forall i :: 0 <= i < |blocks| ==> blocks[i].geom.None? {
        assert blocks == WithoutGeometry(blocks);
        return Done;
      }
      blocks := WithoutGeometry(blocks);
      outcome := Done;
    }
  }
}
