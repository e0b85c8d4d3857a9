// Sharing the spare current among the charging cars (crates/control/src/controller.rs:951-967).
// The cars that got their minimum are numbered by rank. They take whole amps, so integers serve.
module WaterFill {
  import opened Basics

  type Amps = seq<int>

  const MIN_A := 6

  function Total(s: Amps): int {
    if s == [] then 0 else Total(s[..|s| - 1]) + s[|s| - 1]
  }

  lemma {:induction false} TotalUpdate(s: Amps, k: nat, v: int)
    requires k < |s|
    ensures Total(s[k := s[k] + v]) == Total(s) + v
    decreases |s|
  {
    var n := |s| - 1;
    var s' := s[k := s[k] + v];
    if k == n {
      assert s'[..n] == s[..n];
    } else {
      assert s'[..n] == s[..n][k := s[..n][k] + v];
      TotalUpdate(s[..n], k, v);
    }
  }

  // ---------------------------------------------------------------- what the water-fill promises

  // Whole amps from the minimum to the cap.
  ghost predicate Possible(caps: seq<real>, cur: Amps) {
    |caps| == |cur| && forall p :: 0 <= p < |cur| ==> MIN_A <= cur[p] <= caps[p].Floor
  }

  ghost predicate AtCap(caps: seq<real>, cur: Amps, p: nat)
    requires p < |caps| == |cur|
  {
    cur[p] == caps[p].Floor
  }

  // A car more than one amp behind another takes all it can.
  ghost predicate Fair(caps: seq<real>, cur: Amps)
    requires |caps| == |cur|
  {
    forall p, q :: 0 <= p < |cur| && 0 <= q < |cur| && cur[p] + 1 < cur[q] ==> AtCap(caps, cur, p)
  }

  // A better-ranked car behind a worse-ranked one takes all it can.
  ghost predicate RankedFirst(caps: seq<real>, cur: Amps)
    requires |caps| == |cur|
  {
    forall p, q :: 0 <= p < q < |cur| && cur[p] < cur[q] ==> AtCap(caps, cur, p)
  }

  ghost predicate AllAtCap(caps: seq<real>, cur: Amps)
    requires |caps| == |cur|
  {
    forall p :: 0 <= p < |cur| ==> AtCap(caps, cur, p)
  }

  // Whole amps from 6 to each car's cap, nothing lost, even to within one amp, the better ranked first, and
  // over only when less than an amp is left or no car takes more.
  ghost predicate Filled(caps: seq<real>, spare0: real, cur: Amps, spare: real) {
    && Possible(caps, cur)
    && Total(cur) as real + spare == Shares(MIN_A, |caps|) as real + spare0 && spare >= 0.0
    && (spare < 1.0 || AllAtCap(caps, cur))
    && Fair(caps, cur) && RankedFirst(caps, cur)
  }

  lemma {:induction false} TotalOrdered(a: Amps, b: Amps)
    requires |a| == |b| && forall k :: 0 <= k < |a| ==> a[k] <= b[k]
    ensures Total(a) <= Total(b)
    ensures Total(a) == Total(b) ==> a == b
    decreases |a|
  {
    if a != [] {
      var n := |a| - 1;
      TotalOrdered(a[..n], b[..n]);
      if Total(a) == Total(b) {
        assert a == a[..n] + [a[n]] && b == b[..n] + [b[n]];
      }
    }
  }

  lemma TotalsAgree(caps: seq<real>, spare0: real, a: Amps, spareA: real, b: Amps, spareB: real)
    requires Filled(caps, spare0, a, spareA) && Filled(caps, spare0, b, spareB)
    ensures Total(a) <= Total(b)
  {
    if AllAtCap(caps, b) {
      forall p | 0 <= p < |a|
        ensures a[p] <= b[p]
      {
        assert AtCap(caps, b, p);
      }
      TotalOrdered(a, b);
    }
  }

  // There is one way to share: nothing in the promise is left open.
  lemma FillIsDetermined(caps: seq<real>, spare0: real, a: Amps, spareA: real, b: Amps, spareB: real)
    requires Filled(caps, spare0, a, spareA) && Filled(caps, spare0, b, spareB)
    ensures a == b && spareA == spareB
  {
    TotalsAgree(caps, spare0, a, spareA, b, spareB);
    TotalsAgree(caps, spare0, b, spareB, a, spareA);
    if p :| 0 <= p < |a| && a[p] > b[p] {
      if q :| 0 <= q < |a| && a[q] < b[q] {
        assert false;
      } else {
        TotalOrdered(b, a);
      }
    } else {
      TotalOrdered(a, b);
    }
  }

  // The most each car takes in whole amps.
  function Tops(caps: seq<real>): Amps {
    seq(|caps|, p requires 0 <= p < |caps| => caps[p].Floor)
  }

  // What all cars together take beyond their minimums.
  function HeadroomA(caps: seq<real>): int {
    Total(Tops(caps)) - Shares(MIN_A, |caps|)
  }

  // What cannot be handed out: what is left of an amp, or what nobody takes.
  function UnusedA(caps: seq<real>, spare0: real): real {
    Max(spare0 - spare0.Floor as real, spare0 - HeadroomA(caps) as real)
  }

  // So what is over is known before anything is shared.
  lemma SpareIs(caps: seq<real>, spare0: real, cur: Amps, spare: real)
    requires Filled(caps, spare0, cur, spare)
    ensures spare == UnusedA(caps, spare0)
  {
    NoMoreThanTops(caps, cur);
    RestOf(spare0, Total(cur) - Shares(MIN_A, |caps|), HeadroomA(caps), spare);
  }

  lemma NoMoreThanTops(caps: seq<real>, cur: Amps)
    requires Possible(caps, cur)
    ensures Total(cur) <= Total(Tops(caps))
    ensures AllAtCap(caps, cur) ==> Total(cur) == Total(Tops(caps))
  {
    TotalOrdered(cur, Tops(caps));
    if AllAtCap(caps, cur) {
      forall p | 0 <= p < |cur|
        ensures cur[p] == Tops(caps)[p]
      {
        assert AtCap(caps, cur, p);
      }
      assert cur == Tops(caps);
    }
  }

  lemma RestOf(spare0: real, given: int, headroom: int, spare: real)
    requires spare == spare0 - given as real && spare >= 0.0 && given <= headroom
    requires spare < 1.0 || given == headroom
    ensures spare == Max(spare0 - spare0.Floor as real, spare0 - headroom as real)
  {
    if spare < 1.0 {
      FloorIs(spare0, given);
    }
  }

  // ---------------------------------------------------------------- rounds

  function Level(top: int, level: int): int {
    if top <= level then top else level
  }

  // Water stands at high for the first b cars and at low for the others, in every car up to its cap.
  ghost predicate Stands(tops: Amps, cur: Amps, low: int, high: int, b: nat) {
    && |tops| == |cur| && low <= high
    && forall p :: 0 <= p < |cur| ==> cur[p] == Level(tops[p], if p < b then high else low)
  }

  lemma StandsIsFair(caps: seq<real>, cur: Amps, low: int, high: int, b: nat)
    requires Stands(Tops(caps), cur, low, high, b) && high <= low + 1
    ensures Fair(caps, cur) && RankedFirst(caps, cur)
  {
    forall p | 0 <= p < |cur|
      ensures AtCap(caps, cur, p) <==> cur[p] == Tops(caps)[p]
    {
    }
  }

  ghost predicate Increasing(open: seq<nat>, n: nat) {
    && (forall k :: 0 <= k < |open| ==> open[k] < n)
    && forall k, l :: 0 <= k < l < |open| ==> open[k] < open[l]
  }

  // Every car that takes more than the level is open.
  ghost predicate Open(tops: Amps, open: seq<nat>, level: int) {
    && Increasing(open, |tops|)
    && (forall p :: 0 <= p < |tops| && tops[p] > level ==> p in open)
    && forall p :: 0 <= p < |tops| && p in open ==> tops[p] >= level
  }

  // What one car gets of a share: no more than it takes, and than there is.
  function Portion(cap: real, cur: int, share: int, spare: real): int {
    var room := (cap - cur as real).Floor;
    var most := if share <= room then share else room;
    if most <= spare.Floor then most else spare.Floor
  }

  lemma FloorIs(x: real, n: int)
    requires n as real <= x < n as real + 1.0
    ensures x.Floor == n
  {
  }

  lemma PortionIs(cap: real, cur: int, share: int, spare: real)
    requires share >= 1 && spare >= 0.0 && cur <= cap.Floor && (spare >= share as real || share == 1)
    ensures var add := Portion(cap, cur, share, spare);
      && 0 <= add <= share && add as real <= spare && (cap - cur as real).Floor == cap.Floor - cur
      && cur + add == if spare < 1.0 then cur else Level(cap.Floor, cur + share)
  {
    FloorIs(cap - cur as real, cap.Floor - cur);
  }

  // The open cars among the first m that take more.
  function Still(tops: Amps, cur: Amps, open: seq<nat>, m: nat): seq<nat>
    requires m <= |open| && |tops| == |cur| && forall k :: 0 <= k < |open| ==> open[k] < |tops|
  {
    if m == 0 then []
    else
      var i := open[m - 1];
      Still(tops, cur, open, m - 1) + (if cur[i] == tops[i] then [] else [i])
  }

  lemma {:induction false} StillSame(tops: Amps, cur: Amps, cur': Amps, open: seq<nat>, m: nat)
    requires m <= |open| && |tops| == |cur| == |cur'| && forall k :: 0 <= k < |open| ==> open[k] < |tops|
    requires forall k :: 0 <= k < m ==> cur'[open[k]] == cur[open[k]]
    ensures Still(tops, cur', open, m) == Still(tops, cur, open, m)
  {
    if m > 0 {
      StillSame(tops, cur, cur', open, m - 1);
    }
  }

  lemma StillNext(tops: Amps, cur: Amps, open: seq<nat>, m: nat, v: int)
    requires m < |open| && |tops| == |cur| && Increasing(open, |tops|)
    ensures var cur' := cur[open[m] := v];
      Still(tops, cur', open, m + 1)
      == Still(tops, cur, open, m) + (if v == tops[open[m]] then [] else [open[m]])
  {
    StillSame(tops, cur, cur[open[m] := v], open, m);
  }

  lemma {:induction false} StillIs(tops: Amps, cur: Amps, open: seq<nat>, m: nat)
    requires m <= |open| && |tops| == |cur| && Increasing(open, |tops|)
    ensures Increasing(Still(tops, cur, open, m), |tops|)
    ensures forall p :: p in Still(tops, cur, open, m) <==> p in open[..m] && cur[p] != tops[p]
    ensures forall p :: p in Still(tops, cur, open, m) ==> p <= open[m - 1]
  {
    if m > 0 {
      StillIs(tops, cur, open, m - 1);
      assert open[..m] == open[..m - 1] + [open[m - 1]];
      var before := Still(tops, cur, open, m - 1);
      forall k | 0 <= k < |before|
        ensures before[k] < open[m - 1]
      {
        assert before[k] in before && (m > 1 ==> open[m - 2] < open[m - 1]);
      }
    }
  }

  // Within a round, m of the open cars have had their turn, and all before b what they were due.
  ghost predicate Serving(tops: Amps, cur: Amps, open: seq<nat>, level: int, share: int, b: nat, m: nat, spare: real) {
    && Stands(tops, cur, level, level + share, b) && Open(tops, open, level) && m <= |open|
    && (m < |open| ==> b <= open[m])
    && (spare < 1.0 || m == 0 || b > open[m - 1])
  }

  lemma ServeOne(tops: Amps, cur: Amps, open: seq<nat>, level: int, share: int, b: nat, m: nat, spare: real, add: int)
    returns (b': nat)
    requires m < |open| && Serving(tops, cur, open, level, share, b, m, spare)
    requires 0 <= add && add as real <= spare
    requires cur[open[m]] + add == if spare < 1.0 then cur[open[m]] else Level(tops[open[m]], cur[open[m]] + share)
    ensures Serving(tops, cur[open[m] := cur[open[m]] + add], open, level, share, b', m + 1, spare - add as real)
    ensures spare >= 1.0 ==> b' > open[m]
  {
    var i := open[m];
    b' := if spare < 1.0 then b else i + 1;
    if spare >= 1.0 {
      forall p | b <= p < i
        ensures tops[p] <= level
      {
        NotOpen(open, |tops|, b, m, p);
      }
    }
  }

  // Between two neighbours nobody is open.
  lemma NotOpen(open: seq<nat>, n: nat, b: nat, m: nat, p: nat)
    requires Increasing(open, n) && m < |open| && b <= p < open[m] && (m == 0 || b > open[m - 1])
    ensures p !in open
  {
    forall k | 0 <= k < |open|
      ensures open[k] != p
    {
      if k < m - 1 {
        assert open[k] < open[m - 1];
      } else if k > m {
        assert open[m] < open[k];
      }
    }
  }

  // Where nobody open takes more, everybody is at the top.
  lemma NobodyLeft(tops: Amps, cur: Amps, open: seq<nat>, level: int, share: int, b: nat)
    requires Stands(tops, cur, level, level + share, b) && Open(tops, open, level) && share >= 1
    requires Still(tops, cur, open, |open|) == []
    ensures forall p :: 0 <= p < |tops| ==> cur[p] == tops[p]
  {
    StillIs(tops, cur, open, |open|);
    assert open[..|open|] == open;
    forall p | 0 <= p < |tops|
      ensures cur[p] == tops[p]
    {
      assert p in open || tops[p] <= level;
    }
  }

  // Where every open car had its share, the water stands one share higher.
  lemma AllServed(tops: Amps, cur: Amps, open: seq<nat>, level: int, share: int, b: nat)
    requires Stands(tops, cur, level, level + share, b) && Open(tops, open, level) && share >= 1
    requires open == [] || b > open[|open| - 1]
    ensures Stands(tops, cur, level + share, level + share + 1, 0)
    ensures Open(tops, Still(tops, cur, open, |open|), level + share)
  {
    StillIs(tops, cur, open, |open|);
    assert open[..|open|] == open;
    forall p | b <= p < |tops|
      ensures tops[p] <= level
    {
      assert p !in open;
    }
  }

  // After a round the water stands one share higher, or, where it ran out, nowhere an amp higher than due.
  lemma RoundDone(tops: Amps, cur: Amps, open: seq<nat>, level: int, share: int, b: nat, spare: real, next: seq<nat>)
    returns (level': int, b': nat)
    requires Serving(tops, cur, open, level, share, b, |open|, spare) && share >= 1
    requires next == Still(tops, cur, open, |open|)
    requires share == 1 || open == [] || b > open[|open| - 1]
    ensures Stands(tops, cur, level', level' + 1, b')
    ensures spare >= 1.0 ==> b' == 0 && Open(tops, next, level')
    ensures level' >= level && (open != [] && next == [] ==> forall p :: 0 <= p < |tops| ==> cur[p] == tops[p])
  {
    if next == [] {
      NobodyLeft(tops, cur, open, level, share, b);
    }
    if share == 1 && spare < 1.0 {
      level', b' := level, b;
    } else {
      AllServed(tops, cur, open, level, share, b);
      level', b' := level + share, 0;
    }
  }

  // n shares.
  function Shares(share: int, n: nat): int {
    if n == 0 then 0 else Shares(share, n - 1) + share
  }

  lemma {:induction false} SharesAre(share: int, n: nat)
    ensures Shares(share, n) == share * n
  {
    if n > 0 {
      SharesAre(share, n - 1);
    }
  }

  lemma {:induction false} SharesNotNegative(share: int, n: nat)
    requires share >= 0
    ensures Shares(share, n) >= 0
  {
    if n > 0 {
      SharesNotNegative(share, n - 1);
    }
  }

  lemma Divided(a: real, n: real)
    requires n > 0.0
    ensures a / n * n == a
  {
  }

  lemma Scaling(a: real, b: real, n: real)
    requires a <= b && n >= 0.0
    ensures a * n <= b * n
  {
  }

  lemma SharesFit(spare: real, n: nat)
    requires n > 0 && spare >= 0.0
    ensures Shares((spare / n as real).Floor, n) as real <= spare
  {
    var each := spare / n as real;
    Divided(spare, n as real);
    Scaling(each.Floor as real, each, n as real);
    SharesAre(each.Floor, n);
    assert (each.Floor * n) as real == each.Floor as real * n as real;
  }

  lemma ServeNext(tops: Amps, cap: real, cur: Amps, open: seq<nat>, level: int, share: int, b: nat, m: nat, spare: real)
    returns (b': nat)
    requires m < |open| && Serving(tops, cur, open, level, share, b, m, spare) && spare >= 0.0
    requires cap.Floor == tops[open[m]] && share >= 1 && (share == 1 || spare >= share as real)
    ensures var i := open[m];
      && i < |cur|
      && var add := Portion(cap, cur[i], share, spare);
      var full := (cap - cur[i] as real).Floor - add < 1;
      && Serving(tops, cur[i := cur[i] + add], open, level, share, b', m + 1, spare - add as real)
      && 0 <= add <= share && add as real <= spare && (full <==> cur[i] + add == tops[i])
      && (spare >= 1.0 ==> (add > 0 || full) && b' > i)
  {
    var i := open[m];
    assert i in open;
    PortionIs(cap, cur[i], share, spare);
    b' := ServeOne(tops, cur, open, level, share, b, m, spare, Portion(cap, cur[i], share, spare));
  }

  // An amp was given, or nobody may get more.
  ghost predicate AmpGiven(spare: real, spare0: real, next: seq<nat>) {
    spare <= spare0 - 1.0 || (spare == spare0 && next == [])
  }

  lemma AmpGivenNext(spare: real, spare0: real, next: seq<nat>, add: int, next': seq<nat>)
    requires AmpGiven(spare, spare0, next) && add >= 0 && spare0 >= 1.0
    requires spare >= 1.0 ==> add > 0 || next' == next
    ensures AmpGiven(spare - add as real, spare0, next')
  {
  }

  // A share of more than an amp is there for everybody who is still to come.
  ghost predicate SharesLeft(share: int, open: seq<nat>, b: nat, m: nat, spare: real)
    requires m <= |open|
  {
    share == 1 || (spare >= Shares(share, |open| - m) as real && (m == 0 || b > open[m - 1]))
  }

  lemma OneShareIsLeft(share: int, open: seq<nat>, b: nat, m: nat, spare: real)
    requires m < |open| && SharesLeft(share, open, b, m, spare) && share >= 1
    ensures share == 1 || spare >= share as real
  {
    ShareIsThere(share, |open| - m, spare);
  }

  lemma SharesLeftNext(share: int, open: seq<nat>, b: nat, m: nat, spare: real, add: int, b': nat)
    requires m < |open| && SharesLeft(share, open, b, m, spare) && 0 <= add <= share && share >= 1
    requires spare >= 1.0 ==> b' > open[m]
    ensures SharesLeft(share, open, b', m + 1, spare - add as real)
  {
    ShareIsTaken(share, |open| - m, spare, add);
    ShareIsThere(share, |open| - m, spare);
  }

  // What the round has given so far, and to whom it may give more.
  ghost predicate Books(tops: Amps, cur: Amps, open: seq<nat>, share: int, b: nat, m: nat, spare: real,
                        next: seq<nat>, all: real, spare0: real)
    requires |tops| == |cur| && m <= |open| && forall k :: 0 <= k < |open| ==> open[k] < |tops|
  {
    && next == Still(tops, cur, open, m)
    && Total(cur) as real + spare == all
    && AmpGiven(spare, spare0, next)
    && SharesLeft(share, open, b, m, spare)
  }

  lemma NextBooks(tops: Amps, cur: Amps, cur': Amps, open: seq<nat>, share: int, b: nat, b': nat, m: nat,
                  spare: real, next: seq<nat>, next': seq<nat>, all: real, spare0: real, add: int)
    requires |tops| == |cur| && m < |open| && Increasing(open, |tops|) && 0 <= add <= share && share >= 1
    requires Books(tops, cur, open, share, b, m, spare, next, all, spare0) && spare0 >= 1.0
    requires cur' == cur[open[m] := cur[open[m]] + add]
    requires next' == if cur'[open[m]] == tops[open[m]] then next else next + [open[m]]
    requires spare >= 1.0 ==> (add > 0 || next' == next) && b' > open[m]
    ensures Books(tops, cur', open, share, b', m + 1, spare - add as real, next', all, spare0)
  {
    SharesLeftNext(share, open, b, m, spare, add, b');
    AmpGivenNext(spare, spare0, next, add, next');
    TotalUpdate(cur, open[m], add);
    StillNext(tops, cur, open, m, cur[open[m]] + add);
  }

  lemma ShareIsTaken(share: int, n: nat, spare: real, add: int)
    requires n > 0 && 0 <= add <= share
    ensures spare >= Shares(share, n) as real ==> spare - add as real >= Shares(share, n - 1) as real
  {
    SharesNotNegative(share, n - 1);
  }

  // All that holds between two cars of a round.
  ghost predicate Turn(tops: Amps, cur: Amps, open: seq<nat>, level: int, share: int, b: nat, m: nat, spare: real,
                       next: seq<nat>, all: real, spare0: real)
  {
    && Serving(tops, cur, open, level, share, b, m, spare) && spare >= 0.0 && share >= 1
    && Books(tops, cur, open, share, b, m, spare, next, all, spare0)
  }

  lemma ShareIsThere(share: int, n: nat, spare: real)
    requires n > 0 && share >= 1
    ensures spare >= Shares(share, n) as real ==> spare >= share as real
  {
    SharesNotNegative(share, n - 1);
  }

  lemma NextTurn(tops: Amps, cap: real, cur: Amps, open: seq<nat>, level: int, share: int, b: nat, m: nat,
                 spare: real, next: seq<nat>, all: real, spare0: real, add: int, cur': Amps, next': seq<nat>)
    returns (b': nat)
    requires Turn(tops, cur, open, level, share, b, m, spare, next, all, spare0) && spare0 >= 1.0
    requires m < |open| && cap.Floor == tops[open[m]] && add == Portion(cap, cur[open[m]], share, spare)
    requires cur' == cur[open[m] := cur[open[m]] + add]
    requires next' == if (cap - cur[open[m]] as real).Floor - add >= 1 then next + [open[m]] else next
    ensures Turn(tops, cur', open, level, share, b', m + 1, spare - add as real, next', all, spare0)
  {
    OneShareIsLeft(share, open, b, m, spare);
    b' := ServeNext(tops, cap, cur, open, level, share, b, m, spare);
    NextBooks(tops, cur, cur', open, share, b, b', m, spare, next, next', all, spare0, add);
  }

  // One car's turn.
  method ServeCar(caps: seq<real>, ghost tops: Amps, cur0: Amps, open: seq<nat>, m: nat, share: int, spare0: real,
                  next0: seq<nat>, ghost level: int, ghost b0: nat, ghost all: real, ghost start: real)
    returns (cur: Amps, spare: real, next: seq<nat>, ghost b: nat)
    requires m < |open| && open[m] < |tops| == |caps| && caps[open[m]].Floor == tops[open[m]] && start >= 1.0
    requires Turn(tops, cur0, open, level, share, b0, m, spare0, next0, all, start)
    ensures Turn(tops, cur, open, level, share, b, m + 1, spare, next, all, start)
  {
    var i := open[m];
    var room := (caps[i] - cur0[i] as real).Floor;
    var add := Portion(caps[i], cur0[i], share, spare0);
    cur := cur0[i := cur0[i] + add];
    spare := spare0 - add as real;
    next := if room - add >= 1 then next0 + [i] else next0;
    b := NextTurn(tops, caps[i], cur0, open, level, share, b0, m, spare0, next0, all, start, add, cur, next);
  }

  // One round: every open car gets its portion of a share, in rank order.
  method ServeRound(caps: seq<real>, ghost tops: Amps, cur0: Amps, open: seq<nat>, share: int, spare0: real,
                    ghost level: int)
    returns (cur: Amps, spare: real, next: seq<nat>, ghost b: nat)
    requires |tops| == |caps| && forall p :: 0 <= p < |caps| ==> tops[p] == caps[p].Floor
    requires spare0 >= 1.0
    requires Turn(tops, cur0, open, level, share, 0, 0, spare0, [], Total(cur0) as real + spare0, spare0)
    ensures Turn(tops, cur, open, level, share, b, |open|, spare, next, Total(cur0) as real + spare0, spare0)
  {
    cur, spare, next, b := cur0, spare0, [], 0;
    ghost var all := Total(cur0) as real + spare0;
    for m := 0 to |open|
      invariant Turn(tops, cur, open, level, share, b, m, spare, next, all, spare0)
    {
      cur, spare, next, b := ServeCar(caps, tops, cur, open, m, share, spare, next, level, b, all, spare0);
    }
  }

  lemma {:induction false} TotalSame(s: Amps, v: int)
    requires forall k :: 0 <= k < |s| ==> s[k] == v
    ensures Total(s) == Shares(v, |s|)
    decreases |s|
  {
    if s != [] {
      TotalSame(s[..|s| - 1], v);
    }
  }

  method Fill(caps: seq<real>, spare0: real) returns (cur: Amps, spare: real)
    requires spare0 >= 0.0 && forall p :: 0 <= p < |caps| ==> caps[p] >= MIN_A as real
    ensures Filled(caps, spare0, cur, spare)
  {
    cur, spare := seq(|caps|, p => MIN_A), spare0;
    var open: seq<nat> := seq(|caps|, p => p);
    ghost var level, b := MIN_A, 0;
    TotalSame(cur, MIN_A);
    forall p | 0 <= p < |caps|
      ensures p in open
    {
      assert open[p] == p;
    }
    while spare >= 1.0 && open != []
      invariant Stands(Tops(caps), cur, level, level + 1, b) && level >= MIN_A && spare >= 0.0
      invariant spare >= 1.0 ==> b == 0 && Open(Tops(caps), open, level)
      invariant Total(cur) as real + spare == Shares(MIN_A, |caps|) as real + spare0
      decreases spare.Floor, |open|
    {
      var share := (spare / |open| as real).Floor;
      if share < 1 {
        share := 1;
      }
      SharesFit(spare, |open|);
      var next;
      ghost var low := level;
      ghost var was := spare;
      cur, spare, next, b := ServeRound(caps, Tops(caps), cur, open, share, spare, level);
      level, b := RoundDone(Tops(caps), cur, open, low, share, b, spare, next);
      open := next;
      assert spare.Floor < was.Floor || |next| == 0;
    }
    StandsIsFair(caps, cur, level, level + 1, b);
  }
}
