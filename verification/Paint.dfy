/** How the map is coloured (web/app.js): a cell's multiple of its city average,
    compiled to a MapLibre expression for the fill and computed directly, by
    cellRatio, for the compass. */
module Paint {
  import opened Wrappers
  import opened Reals

  // ---- a layer and what a view measures on it

  /** A feature's numeric properties. */
  datatype Property = Null | Number(n: real)
  type Cell = map<string, Property>

  function Prop(c: Cell, prop: string): Property {
    if prop in c then c[prop] else Null
  }

  /** `p[prop] ?? 0`. */
  function OrZero(c: Cell, prop: string): real {
    match Prop(c, prop)
    case Null => 0.0
    case Number(n) => n
  }

  datatype Track = Violent | NonViolent
  datatype Scale = Safety | Count
  datatype View = View(track: Track, scale: Scale, hour: Option<nat>, day: Option<nat>) {
    predicate Hourly() { hour.Some? || day.Some? }
  }

  function Rate(t: Track): string { if t.Violent? then "sm_violent" else "sm_nonviolent" }
  function Tier(t: Track): string { if t.Violent? then "stier_violent" else "stier_nonviolent" }

  datatype Fallback = Fallback(valueProp: string, tier: string)
  datatype Measure = Measure(valueProp: string, tier: string, scale: Scale, fallback: Option<Fallback>)

  function PaintedMeasure(v: View): Measure {
    var tier := if v.Hourly() then "h" + Tier(v.track) else Tier(v.track);
    match v.scale
    case Safety =>
      var rate := if v.Hourly() then "h" + Rate(v.track) else Rate(v.track);
      Measure(rate, tier, Safety, Some(Fallback(Rate(v.track), Tier(v.track))))
    case Count => Measure(if v.Hourly() then "hcount" else "count", tier, Count, None)
  }

  /** paintedMeasure's `isPainted`. */
  predicate IsPainted(m: Measure, c: Cell) {
    if m.scale.Safety? then OrZero(c, m.tier) != 0.0 else OrZero(c, m.valueProp) > 0.0
  }

  // ---- city averages

  /** A painted cell's value, and the people it speaks for when averaging by person. */
  datatype Sample = Sample(value: real, people: real)

  function Sampled(c: Cell, prop: string): Sample
    requires Prop(c, prop).Number?
  {
    Sample(Prop(c, prop).n, if OrZero(c, "exposure") > 0.0 then OrZero(c, "exposure") else 0.0)
  }

  function Samples(cells: seq<Cell>, prop: string, isPainted: Cell -> bool): seq<Sample> {
    if cells == [] then []
    else if isPainted(cells[0]) && Prop(cells[0], prop).Number? then
      [Sampled(cells[0], prop)] + Samples(cells[1..], prop, isPainted)
    else Samples(cells[1..], prop, isPainted)
  }

  function Sum(ss: seq<Sample>): real {
    if ss == [] then 0.0 else ss[0].value + Sum(ss[1..])
  }

  function People(ss: seq<Sample>): real {
    if ss == [] then 0.0 else ss[0].people + People(ss[1..])
  }

  function Weighted(ss: seq<Sample>): real {
    if ss == [] then 0.0 else Times(ss[0].value, ss[0].people) + Weighted(ss[1..])
  }

  function Average(ss: seq<Sample>, perPerson: bool): real
    requires ss != []
  {
    if perPerson && People(ss) > 0.0 then Weighted(ss) / People(ss) else Sum(ss) / |ss| as real
  }

  datatype City = City(average: real, painted: nat)

  function CityOf(ss: seq<Sample>, perPerson: bool): Option<City> {
    if ss != [] && Average(ss, perPerson) > 0.0 then Some(City(Average(ss, perPerson), |ss|)) else None
  }

  method ValueDomain(cells: seq<Cell>, prop: string, isPainted: Cell -> bool, perPerson: bool)
    returns (city: Option<City>)
    ensures city == CityOf(Samples(cells, prop, isPainted), perPerson)
  {
    var sum, painted, weighted, people := 0.0, 0, 0.0, 0.0;
    ghost var all := Samples(cells, prop, isPainted);
    for i := 0 to |cells|
      invariant sum + Sum(Samples(cells[i..], prop, isPainted)) == Sum(all)
      invariant painted >= 0 && painted + |Samples(cells[i..], prop, isPainted)| == |all|
      invariant if perPerson then
        && weighted + Weighted(Samples(cells[i..], prop, isPainted)) == Weighted(all)
        && people + People(Samples(cells[i..], prop, isPainted)) == People(all)
        else people == 0.0
    {
      assert cells[i..][1..] == cells[i + 1..];
      var c := cells[i];
      if !isPainted(c) || Prop(c, prop).Null? {
        continue;
      }
      var value := Prop(c, prop).n;
      Units(value);
      assert Samples(cells[i..], prop, isPainted) == [Sampled(c, prop)] + Samples(cells[i + 1..], prop, isPainted);
      sum := sum + value;
      painted := painted + 1;
      if perPerson && OrZero(c, "exposure") > 0.0 {
        weighted := weighted + Times(value, OrZero(c, "exposure"));
        people := people + OrZero(c, "exposure");
      }
    }
    if painted == 0 {
      return None;
    }
    var average := if people > 0.0 then weighted / people else sum / painted as real;
    city := if average > 0.0 then Some(City(average, painted)) else None;
  }

  /** Every value lies between `lo` and `hi`. */
  predicate Between(ss: seq<Sample>, lo: real, hi: real) {
    forall i :: 0 <= i < |ss| ==> lo <= ss[i].value <= hi && ss[i].people >= 0.0
  }

  lemma {:induction false} SumsBetween(ss: seq<Sample>, lo: real, hi: real)
    requires Between(ss, lo, hi)
    ensures Times(lo, |ss| as real) <= Sum(ss) <= Times(hi, |ss| as real)
    ensures Times(lo, People(ss)) <= Weighted(ss) <= Times(hi, People(ss)) && People(ss) >= 0.0
  {
    Units(lo);
    Units(hi);
    if ss != [] {
      var s, rest := ss[0], ss[1..];
      SumsBetween(rest, lo, hi);
      Distribute(lo, 1.0, |rest| as real);
      Distribute(hi, 1.0, |rest| as real);
      assert |ss| as real == 1.0 + |rest| as real;
      Distribute(lo, s.people, People(rest));
      Distribute(hi, s.people, People(rest));
      Distribute(s.people, s.value, lo);
      Distribute(s.people, hi, s.value);
      Sign(s.people, s.value - lo);
      Sign(s.people, hi - s.value);
    }
  }

  /** A city average is an average: by person or by cell, it lies within the values of
      the cells painted. */
  lemma AverageBracketed(ss: seq<Sample>, perPerson: bool, lo: real, hi: real)
    requires ss != [] && Between(ss, lo, hi)
    ensures lo <= Average(ss, perPerson) <= hi
  {
    SumsBetween(ss, lo, hi);
    if perPerson && People(ss) > 0.0 {
      QuotientBetween(Weighted(ss), People(ss), lo, hi);
    } else {
      QuotientBetween(Sum(ss), |ss| as real, lo, hi);
    }
  }

  // ---- the domain and the direct ratio

  datatype Domain = Domain(own: Option<City>, overall: Option<City>)

  function Own(m: Measure, cells: seq<Cell>): Option<City> {
    CityOf(Samples(cells, m.valueProp, c => IsPainted(m, c)), m.scale.Safety?)
  }

  /** Over the cells with reports of their own at any hour. */
  function Overall(f: Fallback, cells: seq<Cell>): Option<City> {
    CityOf(Samples(cells, f.valueProp, c => OrZero(c, f.tier) != 0.0), true)
  }

  function MeasureDomain(m: Measure, cells: seq<Cell>): Option<Domain> {
    var own := Own(m, cells);
    if m.fallback.None? then
      if own.None? then None else Some(Domain(own, None))
    else
      var overall := Overall(m.fallback.value, cells);
      if own.None? && overall.None? then None else Some(Domain(own, overall))
  }

  /** A cell's multiple of its city average, or nothing for the neutral fill. */
  function CellRatio(c: Cell, m: Measure, d: Option<Domain>): Option<real>
    requires d.Some? ==> Averaged(d.value)
  {
    if d.None? then None
    else if IsPainted(m, c) then
      if d.value.own.None? then None else Some(OrZero(c, m.valueProp) / d.value.own.value.average)
    else if m.fallback.Some? && d.value.overall.Some? && Prop(c, m.fallback.value.valueProp).Number? then
      Some(Prop(c, m.fallback.value.valueProp).n / d.value.overall.value.average)
    else None
  }

  predicate Averaged(d: Domain) {
    && (d.own.Some? ==> d.own.value.average > 0.0)
    && (d.overall.Some? ==> d.overall.value.average > 0.0)
  }

  // ---- expressions

  /** What MapLibre evaluates. Shade is a colour of the ramp: its step, and the share
      of the way to the next as a fraction. Fault is a runtime error. */
  datatype Value = Nil | Num(n: real) | Bool(b: bool) | Text(s: string) | Neutral | Shade(step: real) | Fault

  datatype Operator = Equal | NotEqual | Greater | Less | Divide

  datatype Branch = Branch(test: Expr, value: Expr)

  datatype Expr =
    | Literal(value: Value)
    | Get(prop: string)
    | Coalesce(first: Expr, otherwise: Expr)
    | Binary(op: Operator, a: Expr, b: Expr)
    | TypeOf(a: Expr)
    | Case(branches: seq<Branch>, otherwise: Expr)
    | Let(bound: Expr, body: Expr)      // the one variable, "ratio"
    | Var
    | Interpolate(input: Expr, stops: seq<real>)

  function Operate(op: Operator, x: Value, y: Value): Value {
    match op
    case Equal => Bool(x == y)
    case NotEqual => Bool(x != y)
    case Greater => if x.Num? && y.Num? then Bool(x.n > y.n) else Fault
    case Less => if x.Num? && y.Num? then Bool(x.n < y.n) else Fault
    case Divide => if x.Num? && y.Num? && y.n != 0.0 then Num(x.n / y.n) else Fault
  }

  function TypeName(v: Value): Value {
    match v
    case Nil => Text("null")
    case Num(_) => Text("number")
    case Bool(_) => Text("boolean")
    case Text(_) => Text("string")
    case Fault => Fault
    case _ => Text("color")
  }

  function Eval(e: Expr, c: Cell, ratio: Value): Value
    decreases e
  {
    match e
    case Literal(v) => v
    case Get(prop) => if Prop(c, prop).Number? then Num(Prop(c, prop).n) else Nil
    case Coalesce(first, otherwise) =>
      if Eval(first, c, ratio) == Nil then Eval(otherwise, c, ratio) else Eval(first, c, ratio)
    case Binary(op, a, b) => Operate(op, Eval(a, c, ratio), Eval(b, c, ratio))
    case TypeOf(a) => TypeName(Eval(a, c, ratio))
    case Case(branches, otherwise) =>
      var taken := EvalBranches(branches, c, ratio);
      if taken.Some? then taken.value else Eval(otherwise, c, ratio)
    case Let(bound, body) => Eval(body, c, Eval(bound, c, ratio))
    case Var => ratio
    case Interpolate(input, stops) =>
      Interpolated(stops, Eval(input, c, ratio))
  }

  /** The value of the first branch whose test holds. */
  function EvalBranches(branches: seq<Branch>, c: Cell, ratio: Value): Option<Value>
    decreases branches
  {
    if branches == [] then None
    else
      var branch := branches[0];
      assert branch.test < branch && branch.value < branch;
      var test := Eval(branch.test, c, ratio);
      if test == Bool(true) then Some(Eval(branch.value, c, ratio))
      else if test == Bool(false) then EvalBranches(branches[1..], c, ratio)
      else Some(Fault)
  }

  /** MapLibre takes only strictly ascending stops. */
  predicate Rising(stops: seq<real>) {
    stops != [] && forall i, j :: 0 <= i < j < |stops| ==> stops[i] < stops[j]
  }

  /** Linear between stops, and the first or last stop outside them. */
  function Position(stops: seq<real>, x: real): real
    requires Rising(stops)
    decreases |stops|
  {
    if |stops| == 1 || x <= stops[0] then 0.0
    else if x < stops[1] then
      assert stops[0] < stops[1];
      (x - stops[0]) / (stops[1] - stops[0])
    else 1.0 + Position(stops[1..], x)
  }

  function Interpolated(stops: seq<real>, x: Value): Value {
    if x.Num? && Rising(stops) then Shade(Position(stops, x.n)) else Fault
  }

  // ---- the ramp

  /** [step, multiple of the city average]. */
  const RAMP_HINGES: seq<(nat, real)> := [(0, 0.0), (10, 1.5), (15, 2.0), (20, 3.0)]

  /** Step `i` of the ramp: 0.15 apart to one and a half times the average, then 0.1
      to double and 0.2 to triple. */
  function RampAt(i: nat): real {
    if i <= 10 then 0.15 * i as real
    else if i <= 15 then 1.5 + 0.1 * (i - 10) as real
    else 2.0 + 0.2 * (i - 15) as real
  }

  /** The multiple valueRampStops gives step `i`, spread between hinges `k - 1` and `k`. */
  function Spread(i: nat, k: nat): real
    requires k < |RAMP_HINGES|
  {
    var (i1, r1) := RAMP_HINGES[k];
    var (i0, r0) := RAMP_HINGES[if k == 0 then 0 else k - 1];
    if i1 == i0 then r1 else r0 + ((i - i0) as real / (i1 - i0) as real) * (r1 - r0)
  }

  lemma SpreadIsRamp(i: nat, k: nat)
    requires k < 4 && i <= RAMP_HINGES[k].0 && (k > 0 ==> RAMP_HINGES[k - 1].0 < i)
    ensures Spread(i, k) == RampAt(i)
  {
    if k == 1 {
      assert Spread(i, k) == 0.0 + ((i - 0) as real / 10.0) * 1.5;
    } else if k == 2 {
      assert Spread(i, k) == 1.5 + ((i - 10) as real / 5.0) * 0.5;
    } else if k == 3 {
      assert Spread(i, k) == 2.0 + ((i - 15) as real / 5.0) * 1.0;
    }
  }

  /** The stops of a ramp of at most 21 colours; the source fails beyond its last hinge. */
  method ValueRampStops(colors: seq<string>) returns (stops: seq<(real, string)>)
    requires |colors| <= 21
    ensures |stops| == |colors|
    ensures forall i :: 0 <= i < |colors| ==> stops[i] == (RampAt(i), colors[i])
  {
    stops := [];
    for i := 0 to |colors|
      invariant |stops| == i
      invariant forall j :: 0 <= j < i ==> stops[j] == (RampAt(j), colors[j])
    {
      var k := 0;
      while RAMP_HINGES[k].0 < i
        invariant 0 <= k < 4
        invariant k > 0 ==> RAMP_HINGES[k - 1].0 < i
        decreases 4 - k
      {
        k := k + 1;
      }
      SpreadIsRamp(i, k);
      stops := stops + [(Spread(i, k), colors[i])];
    }
  }

  function ValueRamp(): (stops: seq<real>)
    ensures |stops| == 21 && forall i :: 0 <= i < 21 ==> stops[i] == RampAt(i)
  {
    seq(21, i requires 0 <= i < 21 => RampAt(i))
  }

  /** The ramp is one MapLibre accepts, and each hinge sits on its step. */
  lemma RampRises()
    ensures Rising(ValueRamp())
    ensures forall h :: h in RAMP_HINGES ==> ValueRamp()[h.0] == h.1
  {
  }

  // ---- the compiler

  function GetOrZero(prop: string): Expr { Coalesce(Get(prop), Literal(Num(0.0))) }

  function OwnBranch(m: Measure, city: City): Branch {
    Branch(
      if m.scale.Safety? then Binary(NotEqual, GetOrZero(m.tier), Literal(Num(0.0)))
        else Binary(Greater, GetOrZero(m.valueProp), Literal(Num(0.0))),
      Binary(Divide, GetOrZero(m.valueProp), Literal(Num(city.average))))
  }

  function OverallBranch(f: Fallback, city: City): Branch {
    Branch(
      Binary(Equal, TypeOf(Get(f.valueProp)), Literal(Text("number"))),
      Binary(Divide, GetOrZero(f.valueProp), Literal(Num(city.average))))
  }

  /** The ratio of fillColorExpression; -1 marks the neutral fill. Only a measure with
      a fallback has an overall average. */
  function RatioExpression(m: Measure, d: Domain): Expr {
    var own := if d.own.None? then [] else [OwnBranch(m, d.own.value)];
    var overall :=
      if d.overall.None? || m.fallback.None? then [] else [OverallBranch(m.fallback.value, d.overall.value)];
    Case(own + overall, Literal(Num(-1.0)))
  }

  function FillColorExpression(m: Measure, d: Option<Domain>): Expr {
    if d.None? then Literal(Neutral)
    else Let(RatioExpression(m, d.value),
      Case([Branch(Binary(Less, Var, Literal(Num(0.0))), Literal(Neutral))], Interpolate(Var, ValueRamp())))
  }

  // ---- what the compiled expression means

  lemma {:induction false} EvalLeaf(c: Cell, ratio: Value, v: Value, prop: string)
    ensures Eval(Literal(v), c, ratio) == v && Eval(Var, c, ratio) == ratio
    ensures Eval(Get(prop), c, ratio) == if Prop(c, prop).Number? then Num(Prop(c, prop).n) else Nil
  {
  }

  lemma {:induction false} EvalBinary(c: Cell, ratio: Value, op: Operator, a: Expr, b: Expr)
    ensures Eval(Binary(op, a, b), c, ratio) == Operate(op, Eval(a, c, ratio), Eval(b, c, ratio))
  {
  }

  lemma {:induction false} EvalCoalesce(c: Cell, ratio: Value, a: Expr, b: Expr)
    ensures Eval(Coalesce(a, b), c, ratio) == if Eval(a, c, ratio) == Nil then Eval(b, c, ratio) else Eval(a, c, ratio)
  {
  }

  lemma {:induction false} EvalTypeOf(c: Cell, ratio: Value, a: Expr)
    ensures Eval(TypeOf(a), c, ratio) == TypeName(Eval(a, c, ratio))
  {
  }

  lemma {:induction false} EvalLet(c: Cell, ratio: Value, bound: Expr, body: Expr, inner: Value)
    requires inner == Eval(bound, c, ratio)
    ensures Eval(Let(bound, body), c, ratio) == Eval(body, c, inner)
  {
  }

  lemma {:induction false} EvalInterpolate(c: Cell, ratio: Value, input: Expr, stops: seq<real>)
    ensures Eval(Interpolate(input, stops), c, ratio) == Interpolated(stops, Eval(input, c, ratio))
  {
  }

  lemma {:induction false} EvalCase(c: Cell, ratio: Value, bs: seq<Branch>, otherwise: Expr)
    ensures Eval(Case(bs, otherwise), c, ratio) ==
      if EvalBranches(bs, c, ratio).Some? then EvalBranches(bs, c, ratio).value else Eval(otherwise, c, ratio)
  {
  }

  lemma {:induction false} GetOrZeroMeans(c: Cell, prop: string, ratio: Value)
    ensures Eval(GetOrZero(prop), c, ratio) == Num(OrZero(c, prop))
  {
    hide Eval, EvalBranches;
    EvalLeaf(c, ratio, Num(0.0), prop);
    EvalCoalesce(c, ratio, Get(prop), Literal(Num(0.0)));
  }

  lemma {:induction false} OwnBranchMeans(m: Measure, city: City, c: Cell, ratio: Value)
    requires city.average > 0.0
    ensures Eval(OwnBranch(m, city).test, c, ratio) == Bool(IsPainted(m, c))
    ensures Eval(OwnBranch(m, city).value, c, ratio) == Num(OrZero(c, m.valueProp) / city.average)
  {
    hide Eval, EvalBranches;
    GetOrZeroMeans(c, m.tier, ratio);
    GetOrZeroMeans(c, m.valueProp, ratio);
    EvalLeaf(c, ratio, Num(0.0), "");
    EvalLeaf(c, ratio, Num(city.average), "");
    EvalBinary(c, ratio, NotEqual, GetOrZero(m.tier), Literal(Num(0.0)));
    EvalBinary(c, ratio, Greater, GetOrZero(m.valueProp), Literal(Num(0.0)));
    EvalBinary(c, ratio, Divide, GetOrZero(m.valueProp), Literal(Num(city.average)));
  }

  lemma {:induction false} OverallBranchMeans(f: Fallback, city: City, c: Cell, ratio: Value)
    requires city.average > 0.0
    ensures Eval(OverallBranch(f, city).test, c, ratio) == Bool(Prop(c, f.valueProp).Number?)
    ensures Eval(OverallBranch(f, city).value, c, ratio) == Num(OrZero(c, f.valueProp) / city.average)
  {
    hide Eval, EvalBranches;
    GetOrZeroMeans(c, f.valueProp, ratio);
    EvalLeaf(c, ratio, Text("number"), f.valueProp);
    EvalLeaf(c, ratio, Num(city.average), "");
    EvalTypeOf(c, ratio, Get(f.valueProp));
    EvalBinary(c, ratio, Equal, TypeOf(Get(f.valueProp)), Literal(Text("number")));
    EvalBinary(c, ratio, Divide, GetOrZero(f.valueProp), Literal(Num(city.average)));
    assert |"null"| != |"number"|;
  }

  lemma {:induction false} BranchesStep(b: Branch, rest: seq<Branch>, c: Cell, ratio: Value)
    requires Eval(b.test, c, ratio).Bool?
    ensures EvalBranches([b] + rest, c, ratio) ==
      if Eval(b.test, c, ratio).b then Some(Eval(b.value, c, ratio)) else EvalBranches(rest, c, ratio)
  {
    hide Eval;
    var bs := [b] + rest;
    assert bs[0] == b && bs[1..] == rest;
  }

  /** Branches fall through in order. */
  lemma {:induction false} CaseStep(b: Branch, rest: seq<Branch>, otherwise: Expr, c: Cell, ratio: Value)
    requires Eval(b.test, c, ratio).Bool?
    ensures Eval(Case([b] + rest, otherwise), c, ratio) ==
      if Eval(b.test, c, ratio).b then Eval(b.value, c, ratio) else Eval(Case(rest, otherwise), c, ratio)
  {
    hide Eval, EvalBranches;
    BranchesStep(b, rest, c, ratio);
    EvalCase(c, ratio, [b] + rest, otherwise);
    EvalCase(c, ratio, rest, otherwise);
  }

  lemma {:induction false} CaseDone(otherwise: Expr, c: Cell, ratio: Value)
    ensures Eval(Case([], otherwise), c, ratio) == Eval(otherwise, c, ratio)
  {
    hide Eval;
    EvalCase(c, ratio, [], otherwise);
  }

  /** What the expression makes of a ratio. */
  function Marked(ratio: Option<real>): Value {
    Num(if ratio.None? then -1.0 else ratio.value)
  }

  /** The case the two do not share: no cell of the view has an average to compare
      with, yet this one is painted and has an all-hours rate. The expression falls
      through to that rate; cellRatio gives the neutral fill. */
  predicate BorrowsThough(c: Cell, m: Measure, d: Domain) {
    && d.own.None? && IsPainted(m, c)
    && m.fallback.Some? && d.overall.Some? && Prop(c, m.fallback.value.valueProp).Number?
  }

  /** The expression evaluates to cellRatio, but in that one case. */
  lemma {:induction false} RatioTwin(c: Cell, m: Measure, d: Domain, ratio: Value)
    requires Averaged(d)
    ensures Eval(RatioExpression(m, d), c, ratio) ==
      if BorrowsThough(c, m, d) then Num(OrZero(c, m.fallback.value.valueProp) / d.overall.value.average)
      else Marked(CellRatio(c, m, Some(d)))
  {
    hide Eval, EvalBranches;
    var neutral := Literal(Num(-1.0));
    EvalLeaf(c, ratio, Num(-1.0), "");
    CaseDone(neutral, c, ratio);
    var overall :=
      if d.overall.None? || m.fallback.None? then [] else [OverallBranch(m.fallback.value, d.overall.value)];
    if overall != [] {
      OverallBranchMeans(m.fallback.value, d.overall.value, c, ratio);
      CaseStep(overall[0], [], neutral, c, ratio);
      assert [overall[0]] + [] == overall;
    }
    if d.own.Some? {
      OwnBranchMeans(m, d.own.value, c, ratio);
      CaseStep(OwnBranch(m, d.own.value), overall, neutral, c, ratio);
    }
    assert [] + overall == overall;
  }

  lemma DomainAveraged(m: Measure, cells: seq<Cell>)
    ensures MeasureDomain(m, cells).Some? ==> Averaged(MeasureDomain(m, cells).value)
  {
  }

  /** Rates and counts are never negative. */
  predicate NonNegative(c: Cell, m: Measure) {
    && OrZero(c, m.valueProp) >= 0.0
    && (m.fallback.Some? ==> OrZero(c, m.fallback.value.valueProp) >= 0.0)
  }

  /** Fill and compass agree on a cell exactly when the view has an average of its
      own, or the cell is not painted, or it has no all-hours rate to fall through to. */
  lemma {:induction false} TwinExactly(c: Cell, m: Measure, cells: seq<Cell>, ratio: Value)
    requires MeasureDomain(m, cells).Some? && NonNegative(c, m)
    ensures var d := MeasureDomain(m, cells);
      Averaged(d.value) &&
      (Eval(RatioExpression(m, d.value), c, ratio) == Marked(CellRatio(c, m, d)) <==> !BorrowsThough(c, m, d.value))
  {
    DomainAveraged(m, cells);
    var d := MeasureDomain(m, cells).value;
    RatioTwin(c, m, d, ratio);
    if BorrowsThough(c, m, d) {
      QuotientSign(OrZero(c, m.fallback.value.valueProp), d.overall.value.average);
    }
  }

  lemma {:induction false} SamplesSame(cells: seq<Cell>, prop: string, f: Cell -> bool, g: Cell -> bool)
    requires forall c :: c in cells ==> f(c) == g(c)
    ensures Samples(cells, prop, f) == Samples(cells, prop, g)
  {
    if cells != [] {
      SamplesSame(cells[1..], prop, f, g);
    }
  }

  /** For counts, and for safety over all hours, whose fallback is the measure
      itself, they agree on every cell of every layer. */
  lemma {:induction false} UntimedTwin(v: View, cells: seq<Cell>, c: Cell, ratio: Value)
    requires v.scale.Count? || !v.Hourly()
    requires MeasureDomain(PaintedMeasure(v), cells).Some?
    ensures var m := PaintedMeasure(v);
      var d := MeasureDomain(m, cells);
      Averaged(d.value) && Eval(RatioExpression(m, d.value), c, ratio) == Marked(CellRatio(c, m, d))
  {
    var m := PaintedMeasure(v);
    DomainAveraged(m, cells);
    RatioTwin(c, m, MeasureDomain(m, cells).value, ratio);
    if v.scale.Safety? {
      OwnIsOverall(v, cells);
    }
  }

  lemma OwnIsOverall(v: View, cells: seq<Cell>)
    requires v.scale.Safety? && !v.Hourly()
    ensures var m := PaintedMeasure(v); m.fallback.Some? && Own(m, cells) == Overall(m.fallback.value, cells)
  {
    var m := PaintedMeasure(v);
    SamplesSame(cells, m.valueProp, c => IsPainted(m, c), c => OrZero(c, m.fallback.value.tier) != 0.0);
  }

  /** Over all hours, colours order cells as their rates do: those with reports and
      those that borrow the smoothed rate alike. */
  lemma UntimedOrdersAsRates(v: View, cells: seq<Cell>, a: Cell, b: Cell)
    requires v.scale.Safety? && !v.Hourly() && MeasureDomain(PaintedMeasure(v), cells).Some?
    requires Prop(a, Rate(v.track)).Number? && Prop(b, Rate(v.track)).Number?
    ensures var m := PaintedMeasure(v);
      var d := MeasureDomain(m, cells);
      && Averaged(d.value)
      && CellRatio(a, m, d).Some? && CellRatio(b, m, d).Some?
      && (CellRatio(a, m, d).value < CellRatio(b, m, d).value <==> Prop(a, Rate(v.track)).n < Prop(b, Rate(v.track)).n)
  {
    var m := PaintedMeasure(v);
    DomainAveraged(m, cells);
    OwnIsOverall(v, cells);
    QuotientOrders(OrZero(a, m.valueProp), OrZero(b, m.valueProp), MeasureDomain(m, cells).value.own.value.average);
  }

  /** What the page reads of a cell for a track. */
  function Names(t: Track): set<string> {
    match t
    case Violent =>
      {"sm_violent", "stier_violent", "hsm_violent", "hstier_violent", "exposure", "count", "hcount"}
    case NonViolent =>
      {"sm_nonviolent", "stier_nonviolent", "hsm_nonviolent", "hstier_nonviolent", "exposure", "count", "hcount"}
  }

  predicate Alike(a: Cell, b: Cell, t: Track) {
    forall name :: name in Names(t) ==> Prop(a, name) == Prop(b, name)
  }

  lemma {:induction false} SamplesAlike(cells: seq<Cell>, others: seq<Cell>, t: Track, prop: string,
                                        f: Cell -> bool, g: Cell -> bool)
    requires |cells| == |others| && prop in Names(t)
    requires forall i :: 0 <= i < |cells| ==> Alike(cells[i], others[i], t) && f(cells[i]) == g(others[i])
    ensures Samples(cells, prop, f) == Samples(others, prop, g)
  {
    if cells != [] {
      assert forall i :: 0 <= i < |cells| - 1 ==> cells[1..][i] == cells[i + 1] && others[1..][i] == others[i + 1];
      SamplesAlike(cells[1..], others[1..], t, prop, f, g);
      assert "exposure" in Names(t);
    }
  }

  lemma TrackNames(t: Track)
    ensures {Rate(t), Tier(t), "h" + Rate(t), "h" + Tier(t), "exposure", "count", "hcount"} == Names(t)
  {
    assert "h" + "sm_violent" == "hsm_violent" && "h" + "sm_nonviolent" == "hsm_nonviolent";
    assert "h" + "stier_violent" == "hstier_violent" && "h" + "stier_nonviolent" == "hstier_nonviolent";
  }

  lemma MeasureNames(v: View)
    ensures var m := PaintedMeasure(v);
      && m.valueProp in Names(v.track) && m.tier in Names(v.track)
      && (m.fallback.Some? ==> m.fallback.value.valueProp in Names(v.track) && m.fallback.value.tier in Names(v.track))
  {
    hide Names, Rate, Tier;
    TrackNames(v.track);
  }

  lemma MeasureAlike(v: View, a: Cell, b: Cell)
    requires Alike(a, b, v.track)
    ensures var m := PaintedMeasure(v);
      && IsPainted(m, a) == IsPainted(m, b) && OrZero(a, m.valueProp) == OrZero(b, m.valueProp)
      && (m.fallback.Some? ==>
            && Prop(a, m.fallback.value.valueProp) == Prop(b, m.fallback.value.valueProp)
            && OrZero(a, m.fallback.value.tier) == OrZero(b, m.fallback.value.tier))
  {
    hide PaintedMeasure, Names;
    MeasureNames(v);
  }

  /** The tracks are never mixed: what a cell and the rest of its layer say of the other
      track moves neither the cell's ratio nor the averages it is a multiple of. */
  lemma TracksApart(v: View, cells: seq<Cell>, others: seq<Cell>, i: nat)
    requires |cells| == |others| && i < |cells|
    requires forall k :: 0 <= k < |cells| ==> Alike(cells[k], others[k], v.track)
    ensures var m := PaintedMeasure(v);
      var d := MeasureDomain(m, cells);
      && MeasureDomain(m, others) == d && (d.Some? ==> Averaged(d.value))
      && CellRatio(cells[i], m, d) == CellRatio(others[i], m, d)
  {
    hide PaintedMeasure, Names, Alike, IsPainted, CityOf, Samples;
    var m := PaintedMeasure(v);
    MeasureNames(v);
    forall k | 0 <= k < |cells| ensures IsPainted(m, cells[k]) == IsPainted(m, others[k])
      ensures m.fallback.Some? ==> OrZero(cells[k], m.fallback.value.tier) == OrZero(others[k], m.fallback.value.tier)
    {
      MeasureAlike(v, cells[k], others[k]);
    }
    SamplesAlike(cells, others, v.track, m.valueProp, c => IsPainted(m, c), c => IsPainted(m, c));
    if m.fallback.Some? {
      var f := m.fallback.value;
      SamplesAlike(cells, others, v.track, f.valueProp, c => OrZero(c, f.tier) != 0.0, c => OrZero(c, f.tier) != 0.0);
    }
    DomainAveraged(m, cells);
    MeasureAlike(v, cells[i], others[i]);
  }

  /** At an hour or a day, cells with reports at that time are coloured in the order of
      their rates at that time. */
  lemma TimedOrdersAsRates(v: View, cells: seq<Cell>, a: Cell, b: Cell)
    requires v.scale.Safety? && v.Hourly()
    requires OrZero(a, "h" + Tier(v.track)) != 0.0 && OrZero(b, "h" + Tier(v.track)) != 0.0
    ensures var m := PaintedMeasure(v);
      var d := MeasureDomain(m, cells);
      d.Some? && d.value.own.Some? ==>
        && Averaged(d.value)
        && CellRatio(a, m, d).Some? && CellRatio(b, m, d).Some?
        && (CellRatio(a, m, d).value < CellRatio(b, m, d).value
            <==> OrZero(a, "h" + Rate(v.track)) < OrZero(b, "h" + Rate(v.track)))
  {
    var m := PaintedMeasure(v);
    DomainAveraged(m, cells);
    var d := MeasureDomain(m, cells);
    if d.Some? && d.value.own.Some? {
      QuotientOrders(OrZero(a, m.valueProp), OrZero(b, m.valueProp), d.value.own.value.average);
    }
  }

  lemma {:induction false} NoneSampled(cells: seq<Cell>, prop: string, isPainted: Cell -> bool)
    requires forall c :: c in cells ==> !isPainted(c)
    ensures Samples(cells, prop, isPainted) == []
  {
    if cells != [] {
      NoneSampled(cells[1..], prop, isPainted);
    }
  }

  /** A layer in which nothing was counted has nothing to compare with. */
  lemma {:induction false} NothingToCompare(v: View, cells: seq<Cell>)
    requires v.scale.Count?
    requires forall c :: c in cells ==> OrZero(c, if v.hour.Some? || v.day.Some? then "hcount" else "count") <= 0.0
    ensures MeasureDomain(PaintedMeasure(v), cells) == None
  {
    hide Samples, OrZero;
    var m := PaintedMeasure(v);
    NoneSampled(cells, m.valueProp, c => IsPainted(m, c));
  }

  lemma {:induction false} PaintedIsSampled(cells: seq<Cell>, prop: string, isPainted: Cell -> bool, c: Cell)
    requires c in cells && isPainted(c) && Prop(c, prop).Number?
    ensures Sampled(c, prop) in Samples(cells, prop, isPainted)
  {
    if cells[0] != c {
      PaintedIsSampled(cells[1..], prop, isPainted, c);
    }
  }

  lemma {:induction false} PositiveSum(ss: seq<Sample>)
    requires forall s :: s in ss ==> s.value > 0.0
    ensures Sum(ss) >= 0.0 && (ss != [] ==> Sum(ss) > 0.0)
  {
    if ss != [] {
      assert forall s :: s in ss[1..] ==> s in ss;
      PositiveSum(ss[1..]);
    }
  }

  lemma {:induction false} SampledIsPainted(cells: seq<Cell>, prop: string)
    ensures forall s :: s in Samples(cells, prop, c => OrZero(c, prop) > 0.0) ==> s.value > 0.0
  {
    if cells != [] {
      SampledIsPainted(cells[1..], prop);
    }
  }

  /** The count views: whatever the track, a cell is coloured iff its count is positive,
      the time's own where an hour or a day is asked for, and by its multiple of the plain
      mean over those cells, so that colours order cells as their counts do. */
  lemma {:induction false} CountsOrderAsCounts(v: View, cells: seq<Cell>, a: Cell, b: Cell)
    requires v.scale.Count? && a in cells
    ensures var m, prop := PaintedMeasure(v), if v.hour.Some? || v.day.Some? then "hcount" else "count";
      OrZero(a, prop) > 0.0 ==>
        var ss, d := Samples(cells, prop, c => OrZero(c, prop) > 0.0), MeasureDomain(m, cells);
        && ss != [] && d.Some? && Averaged(d.value) && d.value.own.Some?
        && d.value.own.value.average == Sum(ss) / |ss| as real
        && (CellRatio(b, m, d).Some? <==> OrZero(b, prop) > 0.0)
        && (OrZero(b, prop) > 0.0 ==>
              (CellRatio(a, m, d).value < CellRatio(b, m, d).value <==> OrZero(a, prop) < OrZero(b, prop)))
  {
    hide PaintedMeasure, MeasureDomain, Average, Sum, Samples;
    var m, prop := PaintedMeasure(v), if v.hour.Some? || v.day.Some? then "hcount" else "count";
    CountMeasure(v, prop);
    if OrZero(a, prop) > 0.0 {
      CountDomain(m, cells, a);
      var d := MeasureDomain(m, cells);
      if OrZero(b, prop) > 0.0 {
        QuotientOrders(OrZero(a, prop), OrZero(b, prop), d.value.own.value.average);
      }
    }
  }

  lemma CountMeasure(v: View, prop: string)
    requires v.scale.Count? && prop == if v.hour.Some? || v.day.Some? then "hcount" else "count"
    ensures PaintedMeasure(v).valueProp == prop && PaintedMeasure(v).fallback.None? && PaintedMeasure(v).scale.Count?
  {
  }

  lemma {:induction false} CountDomain(m: Measure, cells: seq<Cell>, a: Cell)
    requires m.scale.Count? && m.fallback.None? && a in cells && OrZero(a, m.valueProp) > 0.0
    ensures var ss, d := Samples(cells, m.valueProp, c => OrZero(c, m.valueProp) > 0.0), MeasureDomain(m, cells);
      && ss != [] && d.Some? && Averaged(d.value)
      && d.value.own.Some? && d.value.own.value.average == Sum(ss) / |ss| as real
  {
    hide Sum, Samples;
    var ss := Samples(cells, m.valueProp, c => OrZero(c, m.valueProp) > 0.0);
    SamplesSame(cells, m.valueProp, c => IsPainted(m, c), c => OrZero(c, m.valueProp) > 0.0);
    PaintedIsSampled(cells, m.valueProp, c => OrZero(c, m.valueProp) > 0.0, a);
    SampledIsPainted(cells, m.valueProp);
    PositiveSum(ss);
    QuotientOrders(0.0, Sum(ss), |ss| as real);
  }

  /** A cell with reports, at an hour its served rate is zero. */
  function QuietHour(): Cell {
    map["sm_violent" := Number(2.0), "stier_violent" := Number(3.0),
        "hsm_violent" := Number(0.0), "hstier_violent" := Number(3.0), "exposure" := Number(100.0)]
  }

  const AT_THREE := View(Violent, Safety, Some(3), None)

  lemma QuietHourDomain()
    ensures MeasureDomain(PaintedMeasure(AT_THREE), [QuietHour()]) == Some(Domain(None, Some(City(2.0, 1))))
  {
    var c, m := QuietHour(), PaintedMeasure(AT_THREE);
    assert m == Measure("hsm_violent", "hstier_violent", Safety, Some(Fallback("sm_violent", "stier_violent")));
    SingleSample(c, m.valueProp, c => IsPainted(m, c));
    SingleSample(c, m.fallback.value.valueProp, c => OrZero(c, m.fallback.value.tier) != 0.0);
    SingleAverage(Sample(0.0, 100.0));
    SingleAverage(Sample(2.0, 100.0));
  }

  /** Where they part: at an hour when every served rate is zero, a cell with reports
      reads "city average" on the map and nothing on the compass. */
  lemma TwinBreaks()
    ensures var m := PaintedMeasure(AT_THREE);
      var d := MeasureDomain(m, [QuietHour()]);
      && d.Some? && Averaged(d.value)
      && CellRatio(QuietHour(), m, d) == None
      && Eval(RatioExpression(m, d.value), QuietHour(), Nil) == Num(1.0)
  {
    hide Eval, EvalBranches, MeasureDomain;
    var m := PaintedMeasure(AT_THREE);
    assert m == Measure("hsm_violent", "hstier_violent", Safety, Some(Fallback("sm_violent", "stier_violent")));
    QuietHourDomain();
    RatioTwin(QuietHour(), m, Domain(None, Some(City(2.0, 1))), Nil);
  }

  lemma {:induction false} SingleSample(c: Cell, prop: string, isPainted: Cell -> bool)
    requires isPainted(c) && Prop(c, prop).Number?
    ensures Samples([c], prop, isPainted) == [Sampled(c, prop)]
  {
    assert Samples([c][1..], prop, isPainted) == [];
  }

  lemma SingleAverage(s: Sample)
    requires s.people > 0.0
    ensures Average([s], true) == s.value
  {
    assert [s][1..] == [];
    assert People([s]) == s.people + People([]) && Weighted([s]) == Times(s.value, s.people) + Weighted([]);
    assert Times(s.value, s.people) / s.people == s.value;
  }

  // ---- the colour a cell gets

  lemma ShareBetween(x: real, a: real, b: real)
    requires a <= x < b
    ensures 0.0 <= (x - a) / (b - a) < 1.0
  {
    QuotientSign(x - a, b - a);
    QuotientOrders(x - a, b - a, b - a);
    assert (b - a) / (b - a) == 1.0;
  }

  /** A higher ratio is never a greener colour, and past the last stop all share it. */
  lemma {:induction false} PositionRises(stops: seq<real>, x: real, y: real)
    requires Rising(stops) && x <= y
    ensures 0.0 <= Position(stops, x) <= Position(stops, y) <= (|stops| - 1) as real
    ensures stops[0] <= x < y <= stops[|stops| - 1] ==> Position(stops, x) < Position(stops, y)
    ensures y >= stops[|stops| - 1] ==> Position(stops, y) == (|stops| - 1) as real
    decreases |stops|
  {
    if |stops| > 1 {
      var rest := stops[1..];
      if x >= stops[1] {
        PositionRises(rest, x, y);
      } else if y >= stops[1] {
        PositionRises(rest, stops[1], y);
        if x > stops[0] {
          ShareBetween(x, stops[0], stops[1]);
        }
      } else {
        if x > stops[0] {
          ShareBetween(x, stops[0], stops[1]);
        }
        if y > stops[0] {
          ShareBetween(y, stops[0], stops[1]);
          QuotientOrders(x - stops[0], y - stops[0], stops[1] - stops[0]);
          QuotientSign(y - stops[0], stops[1] - stops[0]);
          QuotientOrders(0.0, y - stops[0], stops[1] - stops[0]);
        }
      }
    }
  }

  lemma {:induction false} PositionAtStop(stops: seq<real>, i: nat)
    requires Rising(stops) && i < |stops|
    ensures Position(stops, stops[i]) == i as real
    decreases i
  {
    if i > 0 {
      assert stops[1] <= stops[i];
      PositionAtStop(stops[1..], i - 1);
    }
  }

  /** The whole fill expression: neutral exactly for the cells the compass skips, and
      otherwise the ramp at the cell's ratio, which a hinge pins to its own step. */
  lemma {:induction false} FillIsTwin(c: Cell, m: Measure, cells: seq<Cell>)
    requires NonNegative(c, m)
    requires var d := MeasureDomain(m, cells); d.Some? ==> !BorrowsThough(c, m, d.value)
    ensures var d := MeasureDomain(m, cells);
      && (d.Some? ==> Averaged(d.value)) && Rising(ValueRamp())
      && var ratio := CellRatio(c, m, d);
         && Eval(FillColorExpression(m, d), c, Nil) ==
             (if ratio.None? then Neutral else Shade(Position(ValueRamp(), ratio.value)))
         && (ratio.Some? ==> ratio.value >= 0.0)
         && forall h :: h in RAMP_HINGES && ratio == Some(h.1) ==> Position(ValueRamp(), ratio.value) == h.0 as real
  {
    RampRises();
    var d := MeasureDomain(m, cells);
    if d.Some? {
      DomainAveraged(m, cells);
      RatioTwin(c, m, d.value, Nil);
      var ratio := CellRatio(c, m, d);
      if ratio.Some? {
        RatioNonNegative(c, m, d.value);
      }
      FillMeans(c, RatioExpression(m, d.value), Marked(ratio).n);
      forall h | h in RAMP_HINGES && ratio == Some(h.1) ensures Position(ValueRamp(), ratio.value) == h.0 as real {
        PositionAtStop(ValueRamp(), h.0);
      }
    }
  }

  lemma RatioNonNegative(c: Cell, m: Measure, d: Domain)
    requires Averaged(d) && NonNegative(c, m) && CellRatio(c, m, Some(d)).Some?
    ensures CellRatio(c, m, Some(d)).value >= 0.0
  {
    if IsPainted(m, c) {
      QuotientSign(OrZero(c, m.valueProp), d.own.value.average);
    } else {
      QuotientSign(OrZero(c, m.fallback.value.valueProp), d.overall.value.average);
    }
  }

  lemma {:induction false} FillMeans(c: Cell, bound: Expr, n: real)
    requires Eval(bound, c, Nil) == Num(n) && Rising(ValueRamp())
    ensures var body := Case([Branch(Binary(Less, Var, Literal(Num(0.0))), Literal(Neutral))],
        Interpolate(Var, ValueRamp()));
      Eval(Let(bound, body), c, Nil) == if n < 0.0 then Neutral else Shade(Position(ValueRamp(), n))
  {
    hide Eval, EvalBranches, Position, Rising;
    var test := Branch(Binary(Less, Var, Literal(Num(0.0))), Literal(Neutral));
    var ramp := Interpolate(Var, ValueRamp());
    EvalLeaf(c, Num(n), Num(0.0), "");
    EvalLeaf(c, Num(n), Neutral, "");
    EvalBinary(c, Num(n), Less, Var, Literal(Num(0.0)));
    EvalInterpolate(c, Num(n), Var, ValueRamp());
    CaseStep(test, [], ramp, c, Num(n));
    CaseDone(ramp, c, Num(n));
    assert [test] + [] == [test];
    EvalLet(c, Nil, bound, Case([test], ramp), Num(n));
  }

  // ---- when a view has an average

  /** With no negative values, a layer has a city average exactly when some painted
      cell that counts towards it has a positive value. */
  lemma {:induction false} AverageExists(ss: seq<Sample>, perPerson: bool)
    requires ss != [] && forall i :: 0 <= i < |ss| ==> ss[i].value >= 0.0 && ss[i].people >= 0.0
    ensures CityOf(ss, perPerson).Some? <==>
      exists i :: 0 <= i < |ss| && ss[i].value > 0.0 && (perPerson && People(ss) > 0.0 ==> ss[i].people > 0.0)
  {
    SumsPositive(ss);
    QuotientOrders(0.0, Sum(ss), |ss| as real);
    if People(ss) > 0.0 {
      QuotientOrders(0.0, Weighted(ss), People(ss));
    }
  }

  lemma {:induction false} SumsPositive(ss: seq<Sample>)
    requires forall i :: 0 <= i < |ss| ==> ss[i].value >= 0.0 && ss[i].people >= 0.0
    ensures Sum(ss) >= 0.0 && Weighted(ss) >= 0.0
    ensures Sum(ss) > 0.0 <==> exists i :: 0 <= i < |ss| && ss[i].value > 0.0
    ensures Weighted(ss) > 0.0 <==> exists i :: 0 <= i < |ss| && ss[i].value > 0.0 && ss[i].people > 0.0
  {
    if ss != [] {
      var s, rest := ss[0], ss[1..];
      SumsPositive(rest);
      Sign(s.value, s.people);
      Units(s.value);
      Units(s.people);
      assert forall i :: 0 <= i < |rest| ==> rest[i] == ss[i + 1];
      assert forall i :: 0 < i < |ss| ==> ss[i] == rest[i - 1];
    }
  }
}
