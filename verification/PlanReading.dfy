// The program is handed to the builder, and what is read from the solver's answer is a plan
// (crates/planner/src/model.rs:504-518).
module PlanReading {
  import opened Sums
  import opened Qps
  import opened QpMeaning
  import opened Declared
  import opened Plans
  import opened PlanBuild
  import opened Blocks
  import opened PlanShape
  import opened PlanSound

  // One call to the builder.
  method Perform(qp: Qp, d: Declaration)
    requires qp.Valid() && (d.Linear? ==> d.i < Variables(qp.log))
    modifies qp
    ensures qp.Valid() && qp.log == old(qp.log) + [d]
  {
    match d
    case Variable(lo, hi) =>
      var i := qp.Var(lo, hi);
    case Linear(i, c) =>
      qp.Cost(i, c);
    case Equal(terms, rhs) =>
      qp.Eq(terms, rhs);
    case AtMost(terms, rhs) =>
      qp.Le(terms, rhs);
    case AtLeast(terms, rhs) =>
      qp.Ge(terms, rhs);
    case Squared(terms, w) =>
      qp.Square(terms, w);
  }

  // The calls are made in order, and none panics.
  method MakeCalls(calls: seq<Declaration>) returns (qp: Qp)
    requires Sound(calls)
    ensures fresh(qp) && qp.Valid() && qp.log == calls
  {
    qp := new Qp();
    for k := 0 to |calls|
      invariant fresh(qp) && qp.Valid() && qp.log == calls[..k]
    {
      assert calls[..k + 1] == calls[..k] + [calls[k]];
      Perform(qp, calls[k]);
    }
    assert calls[..|calls|] == calls;
  }

  // The builder as `plan` leaves it: its program is the one declared.
  method Program(inp: Input) returns (qp: Qp)
    requires inp.Checked()
    ensures fresh(qp) && Sound(inp.Calls()) && qp.View() == Build(inp.Calls()) && qp.n == inp.Total()
  {
    var calls := PlanSide(inp);
    CallsFit(inp);
    qp := MakeCalls(calls);
  }

  // ---------------------------------------------------------------- reading the answer

  lemma KeepsMember(ds: seq<Declaration>, x: Point, d: Declaration)
    requires Fits(ds, |x|) && KeepsAll(ds, x) && d in ds && !d.Variable?
    ensures Keeps(d, 0, x)
  {
    var k :| 0 <= k < |ds| && ds[k] == d;
    assert KeepsAt(ds, k, x);
  }

  lemma StepMember(inp: Input, k: nat, d: Declaration)
    requires inp.Checked() && k < inp.Steps() && d in inp.StepCalls(k)
    ensures d in inp.Calls()
  {
    var rest := FlatAt(inp.StepParts(inp.Steps()), k);
    FirstOfFour(Flat(inp.StepParts(inp.Steps())[..k]), inp.StepCalls(k), rest, d);
    assert d in inp.FirstSteps(inp.Steps());
  }

  lemma FirstOfFour<T>(a: seq<T>, b: seq<T>, c: seq<T>, d: T)
    requires d in b
    ensures d in a + b + c
  {
  }

  lemma {:induction false} DotAppend(a: Terms, b: Terms, x: Point)
    requires Inside(a, |x|) && Inside(b, |x|)
    ensures Inside(a + b, |x|) && Dot(a + b, x) == Dot(a, x) + Dot(b, x)
  {
    assert forall t :: t in a + b ==> t in a || t in b;
    assert TermValues(a + b, x) == TermValues(a, x) + TermValues(b, x);
    SumAppend(TermValues(a, x), TermValues(b, x));
  }

  // What the grid brings, less what it takes.
  function GridKw(inp: Input, x: Point, k: nat): real
    requires inp.Checked() && k < inp.Steps() && |x| == inp.Total()
  {
    GridIsBelow(inp, k);
    x[inp.At(k)] - x[inp.At(k) + 1]
  }

  // What the battery takes, less what it brings.
  function BatteryKw(inp: Input, x: Point, k: nat): real
    requires inp.Checked() && k < inp.Steps() && |x| == inp.Total()
  {
    AtGrows(inp, k, inp.Steps());
    if inp.battery.None? then 0.0 else x[inp.At(k) + 3] - x[inp.At(k) + 4]
  }

  function HeatPumpKw(inp: Input, x: Point, k: nat): real
    requires inp.Checked() && k < inp.Steps() && |x| == inp.Total()
  {
    AtGrows(inp, k, inp.Steps());
    if inp.heat.None? then 0.0 else x[inp.HeatAt(k)]
  }

  // What the first n cars take.
  function EvsKw(inp: Input, x: Point, k: nat, n: nat): real
    requires inp.Checked() && k < inp.Steps() && |x| == inp.Total() && n <= |inp.evs|
  {
    AtGrows(inp, k, inp.Steps());
    if n == 0 then 0.0 else EvsKw(inp, x, k, n - 1) + x[inp.EvAt(k) + (n - 1)]
  }

  lemma DotOf(i: nat, c: real, x: Point)
    requires i < |x|
    ensures Inside([(i, c)], |x|) && Dot([(i, c)], x) == Weighted(c, x[i])
  {
    DotOne(i, c, x);
  }

  lemma {:induction false} DotOfEvs(inp: Input, x: Point, k: nat, n: nat)
    requires inp.Checked() && k < inp.Steps() && |x| == inp.Total() && n <= |inp.evs|
    ensures Inside(inp.EvTerms(k, n), |x|) && Dot(inp.EvTerms(k, n), x) == -EvsKw(inp, x, k, n)
  {
    AtGrows(inp, k, inp.Steps());
    if n > 0 {
      DotOfEvs(inp, x, k, n - 1);
      DotSnoc(inp.EvTerms(k, n - 1), (inp.EvAt(k) + (n - 1), -1.0), x);
    }
  }

  lemma DotPlusMinus(i: nat, j: nat, x: Point)
    requires i < |x| && j < |x|
    ensures Inside([(i, 1.0), (j, -1.0)], |x|) && Dot([(i, 1.0), (j, -1.0)], x) == x[i] - x[j]
    ensures Inside([(i, -1.0), (j, 1.0)], |x|) && Dot([(i, -1.0), (j, 1.0)], x) == x[j] - x[i]
  {
    var none: Terms := [];
    DotSnoc(none, (i, 1.0), x);
    DotSnoc(none, (i, -1.0), x);
    assert none + [(i, 1.0)] == [(i, 1.0)] && none + [(i, -1.0)] == [(i, -1.0)];
    DotSnoc([(i, 1.0)], (j, -1.0), x);
    DotSnoc([(i, -1.0)], (j, 1.0), x);
    assert [(i, 1.0)] + [(j, -1.0)] == [(i, 1.0), (j, -1.0)] && [(i, -1.0)] + [(j, 1.0)] == [(i, -1.0), (j, 1.0)];
  }

  lemma DotOfLocals(inp: Input, x: Point, k: nat)
    requires inp.Checked() && k < inp.Steps() && |x| == inp.Total()
    ensures Inside(inp.LocalTerms(k), |x|) && inp.At(k) + 2 < |x|
    ensures Dot(inp.LocalTerms(k), x)
            == x[inp.At(k) + 2] - BatteryKw(inp, x, k) - HeatPumpKw(inp, x, k) - EvsKw(inp, x, k, |inp.evs|)
  {
    AtGrows(inp, k, inp.Steps());
    var pv: Terms := [(inp.At(k) + 2, 1.0)];
    DotOf(inp.At(k) + 2, 1.0, x);
    if inp.battery.Some? {
      DotPlusMinus(inp.At(k) + 3, inp.At(k) + 4, x);
    }
    if inp.heat.Some? {
      DotOf(inp.HeatAt(k), -1.0, x);
    }
    DotOfEvs(inp, x, k, |inp.evs|);
    DotAppend(pv, inp.StorageTerms(k), x);
    DotAppend(pv + inp.StorageTerms(k), inp.HeatPumpTerms(k), x);
    DotAppend(pv + inp.StorageTerms(k) + inp.HeatPumpTerms(k), inp.EvTerms(k, |inp.evs|), x);
  }

  lemma DotOfBalance(g: nat, local: Terms, x: Point)
    requires g + 1 < |x| && Inside(local, |x|)
    ensures var terms := [(g, 1.0), (g + 1, -1.0)] + local;
      Inside(terms, |x|) && Dot(terms, x) == x[g] - x[g + 1] + Dot(local, x)
  {
    DotPlusMinus(g, g + 1, x);
    DotAppend([(g, 1.0), (g + 1, -1.0)], local, x);
  }

  lemma BalanceMeans(inp: Input, x: Point, k: nat, d: Declaration)
    requires inp.Checked() && k < inp.Steps() && |x| == inp.Total()
    requires d == inp.BalanceCall(k, inp.LocalTerms(k)) && Scoped(d, |x|) && Keeps(d, 0, x)
    ensures inp.At(k) + 2 < |x|
    ensures GridKw(inp, x, k) + x[inp.At(k) + 2]
            == inp.f.baseKw[k] + BatteryKw(inp, x, k) + HeatPumpKw(inp, x, k) + EvsKw(inp, x, k, |inp.evs|)
  {
    DotOfLocals(inp, x, k);
    DotOfBalance(inp.At(k), inp.LocalTerms(k), x);
  }

  lemma BalanceIsKept(inp: Input, ds: seq<Declaration>, x: Point, k: nat) returns (d: Declaration)
    requires inp.Checked() && k < inp.Steps() && ds == inp.Calls() && Fits(ds, |x|) && KeepsAll(ds, x)
    ensures d == inp.BalanceCall(k, inp.LocalTerms(k)) && Scoped(d, |x|) && Keeps(d, 0, x)
  {
    d := inp.BalanceCall(k, inp.LocalTerms(k));
    StepMember(inp, k, d);
    KeepsMember(ds, x, d);
  }

  // In every step of every plan the solver may return, what is imported and produced is what the base load, the
  // battery, the heat pump and the cars take and what is exported.
  lemma PowerBalances(inp: Input, ds: seq<Declaration>, x: Point, k: nat)
    requires inp.Checked() && k < inp.Steps() && ds == inp.Calls() && |x| == inp.Total()
    requires Sound(ds) && Variables(ds) == |x| && SolverFeasible(Build(ds), x)
    ensures inp.At(k) + 2 < |x|
    ensures GridKw(inp, x, k) + x[inp.At(k) + 2]
            == inp.f.baseKw[k] + BatteryKw(inp, x, k) + HeatPumpKw(inp, x, k) + EvsKw(inp, x, k, |inp.evs|)
  {
    CallsFit(inp);
    ProgramMeansDeclarations(ds, x);
    var d := BalanceIsKept(inp, ds, x, k);
    BalanceMeans(inp, x, k, d);
  }
}
