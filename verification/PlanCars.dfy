// What every plan the solver may return gives the cars (crates/planner/src/model.rs:445-482).
module PlanCars {
  import opened Basics
  import opened Sums
  import opened Qps
  import opened QpMeaning
  import opened Declared
  import opened Plans
  import opened PlanBuild
  import opened PlanShape
  import opened PlanSound
  import opened PlanReading
  import opened PlanMeaning

  function CarKw(inp: Input, x: Point, i: nat, k: nat): real
    requires inp.Checked() && |x| == inp.Total() && i < |inp.evs| && k < inp.Steps()
  {
    CarIsMade(inp, i, k);
    x[inp.EvAt(k) + i]
  }

  // The energy stored in car i in the first n steps.
  function ChargedKwh(inp: Input, x: Point, i: nat, n: nat): real
    requires inp.Checked() && |x| == inp.Total() && i < |inp.evs| && n <= inp.Steps()
  {
    if n == 0 then 0.0
    else ChargedKwh(inp, x, i, n - 1) + Weighted(inp.Charged(i), CarKw(inp, x, i, n - 1))
  }

  function UnmetKwh(inp: Input, x: Point, i: nat): real
    requires inp.Checked() && |x| == inp.Total() && i < |inp.evs|
  {
    x[inp.UnmetAt() + i]
  }

  // ---------------------------------------------------------------- the power of a car

  // Car i has the i-th pair of calls.
  lemma {:induction false} PricedPair(start: nat, most: seq<real>, c: real, i: nat)
    requires i < |most|
    ensures var ds := PricedVars(start, most, c);
      2 * i < |ds| && ds[2 * i] == Variable(Some(0.0), Some(most[i])) && Variables(ds[..2 * i]) == i
    ensures |PricedVars(start, most, c)| == 2 * |most|
    decreases |most|
  {
    var n := |most| - 1;
    var init := PricedVars(start, most[..n], c);
    PricedLength(start, most[..n], c);
    if i < n {
      PricedPair(start, most[..n], c, i);
      assert PricedVars(start, most, c)[..2 * i] == init[..2 * i];
    } else {
      CountsPriced(start, most[..n], c);
      assert PricedVars(start, most, c)[..2 * i] == init;
    }
  }

  lemma {:induction false} PricedLength(start: nat, most: seq<real>, c: real)
    ensures |PricedVars(start, most, c)| == 2 * |most|
    decreases |most|
  {
    if most != [] {
      PricedLength(start, most[..|most| - 1], c);
    }
  }

  lemma CarsStand(inp: Input, k: nat) returns (before: seq<Declaration>, after: seq<Declaration>)
    requires inp.Checked() && k < inp.Steps()
    ensures inp.Calls() == before + inp.EvCalls(k, |inp.evs|) + after && Variables(before) == inp.EvAt(k)
  {
    after := StepStands(inp, k);
    var grid, storage, heat := inp.FirstSteps(k) + inp.GridCalls(k), inp.StorageCalls(k), inp.HeatCalls(k);
    before := grid + storage + heat;
    CountedBeforeDevices(inp, k);
    CountsStorage(inp, k);
    CountsHeat(inp, k);
    VariablesAppend(grid, storage);
    VariablesAppend(grid + storage, heat);
  }

  lemma CarParted(inp: Input, x: Point, k: nat)
    returns (ds: seq<Declaration>, before: seq<Declaration>, after: seq<Declaration>)
    requires Solves(inp, x) && k < inp.Steps()
    ensures Parted(ds, x, before, inp.EvCalls(k, |inp.evs|), after, inp.EvAt(k))
  {
    ds := inp.Calls();
    before, after := CarsStand(inp, k);
  }

  lemma PricedIsKept(ds: seq<Declaration>, x: Point, before: seq<Declaration>, start: nat, most: seq<real>, c: real,
                     after: seq<Declaration>, i: nat)
    requires Parted(ds, x, before, PricedVars(start, most, c), after, start)
    ensures PairKept(x, start, most, i)
  {
    if i < |most| {
      PricedPair(start, most, c, i);
      PartIsKept(ds, before, PricedVars(start, most, c), after, x, start, 2 * i);
    }
  }

  ghost predicate PairKept(x: Point, start: nat, most: seq<real>, i: nat) {
    i < |most| ==> start + i < |x| && 0.0 <= x[start + i] <= most[i]
  }

  lemma CarsAreKept(inp: Input, x: Point, i: nat, k: nat)
    requires Solves(inp, x) && k < inp.Steps()
    ensures PairKept(x, inp.EvAt(k), inp.MostKws(k, |inp.evs|), i)
  {
    var ds, before, after := CarParted(inp, x, k);
    PricedIsKept(ds, x, before, inp.EvAt(k), inp.MostKws(k, |inp.evs|), inp.LaterEur(k), after, i);
  }

  // Every car takes, in every step, from nothing to its power as long as it is there.
  lemma CarKeepsToItsPower(inp: Input, x: Point, i: nat, k: nat)
    requires inp.Checked() && |x| == inp.Total() && i < |inp.evs| && k < inp.Steps()
    requires PairKept(x, inp.EvAt(k), inp.MostKws(k, |inp.evs|), i)
    ensures 0.0 <= CarKw(inp, x, i, k) <= inp.MostKw(i, k)
  {
  }

  // ---------------------------------------------------------------- what a car gets

  lemma {:induction false} DotOfCharged(inp: Input, x: Point, i: nat, n: nat)
    requires inp.Checked() && |x| == inp.Total() && i < |inp.evs| && n <= inp.Steps()
    ensures Inside(inp.ChargedTerms(i, n), |x|) && Dot(inp.ChargedTerms(i, n), x) == ChargedKwh(inp, x, i, n)
  {
    if n > 0 {
      DotOfCharged(inp, x, i, n - 1);
      CarIsMade(inp, i, n - 1);
      DotAndTerm(inp.ChargedTerms(i, n - 1), inp.EvAt(n - 1) + i, inp.Charged(i), x);
    }
  }

  lemma CarIsMade(inp: Input, i: nat, k: nat)
    requires inp.Checked() && i < |inp.evs| && k < inp.Steps()
    ensures inp.EvAt(k) + i < inp.Total()
  {
    AtGrows(inp, k, inp.Steps());
  }

  lemma DotAndTerm(terms: Terms, v: nat, c: real, x: Point)
    requires Inside(terms, |x|) && v < |x|
    ensures Inside(terms + [(v, c)], |x|) && Dot(terms + [(v, c)], x) == Dot(terms, x) + Weighted(c, x[v])
  {
    DotSnoc(terms, (v, c), x);
  }

  // What car i is to get, as a row.
  function NeedRow(inp: Input, i: nat): (Terms, real)
    requires inp.Checked() && i < |inp.evs|
  {
    (inp.ChargedTerms(i, inp.Steps()) + [(inp.UnmetAt() + i, 1.0)], Max(inp.NeedKwh(i), 0.0))
  }

  function NeedRows(inp: Input, n: nat): seq<(Terms, real)>
    requires inp.Checked() && n <= |inp.evs|
  {
    seq(n, i requires 0 <= i < n => NeedRow(inp, i))
  }

  // A priced variable and a row each.
  function PricedRows(start: nat, rows: seq<(Terms, real)>, c: real): seq<Declaration> {
    if rows == [] then []
    else
      var n := |rows| - 1;
      PricedRows(start, rows[..n], c)
      + [Variable(Some(0.0), None), Linear(start + n, c), AtLeast(rows[n].0, rows[n].1)]
  }

  lemma {:induction false} UnmetAreRows(inp: Input, n: nat)
    requires inp.Checked() && n <= |inp.evs|
    ensures inp.UnmetCalls(n) == PricedRows(inp.UnmetAt(), NeedRows(inp, n), inp.w.evUnmet)
  {
    if n > 0 {
      UnmetAreRows(inp, n - 1);
      assert NeedRows(inp, n)[..n - 1] == NeedRows(inp, n - 1);
    }
  }

  lemma {:induction false} RowsLength(start: nat, rows: seq<(Terms, real)>, c: real)
    ensures |PricedRows(start, rows, c)| == 3 * |rows| && Variables(PricedRows(start, rows, c)) == |rows|
    decreases |rows|
  {
    if rows != [] {
      var n := |rows| - 1;
      var ds := [Variable(Some(0.0), None), Linear(start + n, c), AtLeast(rows[n].0, rows[n].1)];
      RowsLength(start, rows[..n], c);
      CountsThree(ds);
      VariablesAppend(PricedRows(start, rows[..n], c), ds);
    }
  }

  // Row i has the i-th three of the calls.
  lemma {:induction false} PricedRow(start: nat, rows: seq<(Terms, real)>, c: real, i: nat)
    requires i < |rows|
    ensures var ds := PricedRows(start, rows, c);
      && |ds| == 3 * |rows| && Variables(ds[..3 * i]) == i
      && ds[3 * i] == Variable(Some(0.0), None) && ds[3 * i + 2] == AtLeast(rows[i].0, rows[i].1)
    decreases |rows|
  {
    var n := |rows| - 1;
    var init := PricedRows(start, rows[..n], c);
    RowsLength(start, rows[..n], c);
    if i < n {
      PricedRow(start, rows[..n], c, i);
      assert PricedRows(start, rows, c)[..3 * i] == init[..3 * i];
    } else {
      assert PricedRows(start, rows, c)[..3 * i] == init;
    }
  }

  lemma RowIsKept(ds: seq<Declaration>, x: Point, before: seq<Declaration>, block: seq<Declaration>,
                  after: seq<Declaration>, start: nat, j: nat)
    requires Parted(ds, x, before, block, after, start) && j < |block| && block[j].AtLeast?
    ensures Inside(block[j].terms, |x|) && Dot(block[j].terms, x) >= block[j].rhs
  {
    assert ds[|before| + j] == block[j];
    KeepsMember(ds, x, block[j]);
  }

  lemma PricedRowIsKept(ds: seq<Declaration>, x: Point, before: seq<Declaration>, start: nat, rows: seq<(Terms, real)>,
                        c: real, after: seq<Declaration>, i: nat)
    requires Parted(ds, x, before, PricedRows(start, rows, c), after, start) && i < |rows|
    ensures start + i < |x| && x[start + i] >= 0.0
    ensures Inside(rows[i].0, |x|) && Dot(rows[i].0, x) >= rows[i].1
  {
    var block := PricedRows(start, rows, c);
    PricedRow(start, rows, c, i);
    PartIsKept(ds, before, block, after, x, start, 3 * i);
    RowIsKept(ds, x, before, block, after, start, 3 * i + 2);
  }

  lemma InThree<T>(a: seq<T>, b: seq<T>, c: seq<T>, d: seq<T>)
    ensures a + b + c + d == a + b + (c + d)
  {
  }

  lemma UnmetParted(inp: Input, x: Point)
    returns (ds: seq<Declaration>, before: seq<Declaration>, after: seq<Declaration>)
    requires Solves(inp, x)
    ensures Parted(ds, x, before, PricedRows(inp.UnmetAt(), NeedRows(inp, |inp.evs|), inp.w.evUnmet), after,
                   inp.UnmetAt())
  {
    ds, before, after := inp.Calls(), inp.FirstSteps(inp.Steps()), inp.PeakCalls() + inp.TerminalCalls();
    CountsSteps(inp, inp.Steps());
    UnmetAreRows(inp, |inp.evs|);
    InThree(before, inp.UnmetCalls(|inp.evs|), inp.PeakCalls(), inp.TerminalCalls());
  }

  // Row i is kept, and so is the bound of its variable.
  ghost predicate RowKept(x: Point, start: nat, rows: seq<(Terms, real)>, i: nat) {
    i < |rows| ==>
      && start + i < |x| && x[start + i] >= 0.0
      && Inside(rows[i].0, |x|) && Dot(rows[i].0, x) >= rows[i].1
  }

  lemma RowsAreKept(ds: seq<Declaration>, x: Point, before: seq<Declaration>, start: nat, rows: seq<(Terms, real)>,
                    c: real, after: seq<Declaration>)
    requires Parted(ds, x, before, PricedRows(start, rows, c), after, start)
    ensures forall i: nat :: RowKept(x, start, rows, i)
  {
    forall i: nat
      ensures RowKept(x, start, rows, i)
    {
      if i < |rows| {
        PricedRowIsKept(ds, x, before, start, rows, c, after, i);
      }
    }
  }

  lemma NeedsAreKept(inp: Input, x: Point, i: nat)
    requires Solves(inp, x)
    ensures RowKept(x, inp.UnmetAt(), NeedRows(inp, |inp.evs|), i)
  {
    var ds, before, after := UnmetParted(inp, x);
    RowsAreKept(ds, x, before, inp.UnmetAt(), NeedRows(inp, |inp.evs|), inp.w.evUnmet, after);
  }

  lemma NeedIsKept(inp: Input, x: Point, i: nat)
    requires inp.Checked() && |x| == inp.Total() && i < |inp.evs|
    requires RowKept(x, inp.UnmetAt(), NeedRows(inp, |inp.evs|), i)
    ensures UnmetKwh(inp, x, i) >= 0.0
    ensures Inside(NeedRow(inp, i).0, |x|) && Dot(NeedRow(inp, i).0, x) >= NeedRow(inp, i).1
  {
  }

  lemma DotOfNeed(inp: Input, x: Point, i: nat)
    requires inp.Checked() && |x| == inp.Total() && i < |inp.evs|
    ensures Inside(NeedRow(inp, i).0, |x|)
    ensures Dot(NeedRow(inp, i).0, x) == ChargedKwh(inp, x, i, inp.Steps()) + UnmetKwh(inp, x, i)
  {
    DotOfCharged(inp, x, i, inp.Steps());
    DotAndOne(inp.ChargedTerms(i, inp.Steps()), inp.UnmetAt() + i, x);
  }

  // In every plan the solver may return, every car gets what it needs until it leaves, up to what is planned as unmet;
  // and in no step more than its power as long as it is there.
  lemma CarIsPlanned(inp: Input, x: Point, i: nat)
    requires Solves(inp, x) && i < |inp.evs|
    ensures ChargedKwh(inp, x, i, inp.Steps()) + UnmetKwh(inp, x, i) >= Max(inp.NeedKwh(i), 0.0)
    ensures UnmetKwh(inp, x, i) >= 0.0
    ensures forall k: nat :: k < inp.Steps() ==> 0.0 <= CarKw(inp, x, i, k) <= inp.MostKw(i, k)
  {
    NeedsAreKept(inp, x, i);
    NeedIsKept(inp, x, i);
    DotOfNeed(inp, x, i);
    forall k: nat | k < inp.Steps()
      ensures 0.0 <= CarKw(inp, x, i, k) <= inp.MostKw(i, k)
    {
      CarsAreKept(inp, x, i, k);
      CarKeepsToItsPower(inp, x, i, k);
    }
  }
}
