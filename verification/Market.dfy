// Day-ahead prices (crates/gateway/src/market.rs): products of different resolution merged to the
// finest, and a book of prices searched by time.
module Market {
  import opened Basics

  // The price of [start, start + dur), Unix seconds.
  datatype PricePoint = PricePoint(start: int, dur: int, price: real)
  {
    function End(): int {
      start + dur
    }

    predicate Contains(t: int) {
      start <= t < start + dur
    }
  }

  predicate Overlap(p: PricePoint, q: PricePoint) {
    p.start < q.End() && q.start < p.End()
  }

  // ---------------------------------------------------------------- stable sorting (sort_by_key)

  type Key = PricePoint -> (int, int)

  predicate LexLe(a: (int, int), b: (int, int)) {
    a.0 < b.0 || (a.0 == b.0 && a.1 <= b.1)
  }

  // Behind everything whose key is not greater.
  function Insert(key: Key, p: PricePoint, s: seq<PricePoint>): (r: seq<PricePoint>)
    ensures |r| == |s| + 1
  {
    if s == [] then [p]
    else if LexLe(key(s[0]), key(p)) then [s[0]] + Insert(key, p, s[1..])
    else [p] + s
  }

  function Sort(key: Key, s: seq<PricePoint>): (r: seq<PricePoint>)
    ensures |r| == |s|
  {
    if s == [] then [] else Insert(key, s[|s| - 1], Sort(key, s[..|s| - 1]))
  }

  ghost predicate Sorted(key: Key, s: seq<PricePoint>) {
    forall i, j :: 0 <= i < j < |s| ==> LexLe(key(s[i]), key(s[j]))
  }

  ghost predicate Disjoint(s: seq<PricePoint>) {
    forall i, j :: 0 <= i < j < |s| ==> !Overlap(s[i], s[j])
  }

  lemma {:induction false} InsertSorts(key: Key, p: PricePoint, s: seq<PricePoint>)
    requires Sorted(key, s)
    ensures Sorted(key, Insert(key, p, s))
    ensures forall q :: q in Insert(key, p, s) <==> q == p || q in s
    ensures Disjoint(s) && (forall q :: q in s ==> !Overlap(p, q)) ==> Disjoint(Insert(key, p, s))
    decreases |s|
  {
    if s != [] && LexLe(key(s[0]), key(p)) {
      InsertSorts(key, p, s[1..]);
      var rest := Insert(key, p, s[1..]);
      forall j | 0 <= j < |rest|
        ensures LexLe(key(s[0]), key(rest[j]))
        ensures Disjoint(s) && (forall q :: q in s ==> !Overlap(p, q)) ==> !Overlap(s[0], rest[j])
      {
        assert rest[j] in rest;
        assert s[0] in s;
        if rest[j] != p {
          var i :| 0 <= i < |s[1..]| && s[1..][i] == rest[j];
          assert s[i + 1] == rest[j];
        }
      }
      assert Insert(key, p, s) == [s[0]] + rest;
      assert Disjoint(s) ==> Disjoint(s[1..]);
    }
  }

  lemma {:induction false} SortSorts(key: Key, s: seq<PricePoint>)
    ensures Sorted(key, Sort(key, s))
    ensures forall q :: q in Sort(key, s) <==> q in s
    ensures Disjoint(s) ==> Disjoint(Sort(key, s))
    decreases |s|
  {
    if s != [] {
      var init, p := s[..|s| - 1], s[|s| - 1];
      SortSorts(key, init);
      InsertSorts(key, p, Sort(key, init));
      assert s == init + [p];
      if Disjoint(s) {
        forall q | q in init
          ensures !Overlap(p, q)
        {
          var i :| 0 <= i < |init| && init[i] == q;
          assert !Overlap(s[i], s[|s| - 1]);
        }
      }
    }
  }

  // ---------------------------------------------------------------- the finest products

  function ByDuration(p: PricePoint): (int, int) {
    (p.dur, p.start)
  }

  function ByStart(p: PricePoint): (int, int) {
    (p.start, 0)
  }

  // Every price has an equal or finer kept one in its place.
  ghost predicate Covered(p: PricePoint, kept: seq<PricePoint>) {
    exists k :: k in kept && k.dur <= p.dur && (k == p || Overlap(p, k))
  }

  method MergeFinest(points: seq<PricePoint>) returns (merged: seq<PricePoint>)
    ensures Sorted(ByStart, merged) && Disjoint(merged)
    ensures forall p :: p in merged ==> p in points
    ensures forall p :: p in points ==> Covered(p, merged)
  {
    var sorted := Sort(ByDuration, points);
    SortSorts(ByDuration, points);
    var kept: seq<PricePoint> := [];
    for i := 0 to |sorted|
      invariant Disjoint(kept)
      invariant forall k :: k in kept ==> k in sorted[..i]
      invariant forall j :: 0 <= j < i ==> Covered(sorted[j], kept)
    {
      if exists k :: k in kept && Overlap(sorted[i], k) {
        FinerIsKept(sorted, i, kept);
      } else {
        KeepingCovers(sorted, i, kept);
        KeepingDisjoint(kept, sorted[i]);
        kept := kept + [sorted[i]];
      }
    }
    merged := Sort(ByStart, kept);
    SortSorts(ByStart, kept);
    assert sorted[..|sorted|] == sorted;
    SameCover(points, sorted, kept, merged);
  }

  lemma SameCover(points: seq<PricePoint>, sorted: seq<PricePoint>, kept: seq<PricePoint>, merged: seq<PricePoint>)
    requires forall p :: p in points ==> p in sorted
    requires forall j :: 0 <= j < |sorted| ==> Covered(sorted[j], kept)
    requires forall k :: k in kept ==> k in merged
    ensures forall p :: p in points ==> Covered(p, merged)
  {
    forall p | p in points
      ensures Covered(p, merged)
    {
      var j :| 0 <= j < |sorted| && sorted[j] == p;
      assert Covered(sorted[j], kept);
      var k :| k in kept && k.dur <= p.dur && (k == p || Overlap(p, k));
    }
  }

  lemma KeepingDisjoint(kept: seq<PricePoint>, p: PricePoint)
    requires Disjoint(kept) && !(exists k :: k in kept && Overlap(p, k))
    ensures Disjoint(kept + [p])
  {
    forall i | 0 <= i < |kept|
      ensures !Overlap(kept[i], p)
    {
      assert kept[i] in kept;
      assert !Overlap(p, kept[i]);
    }
  }

  lemma KeepingCovers(sorted: seq<PricePoint>, i: nat, kept: seq<PricePoint>)
    requires i < |sorted| && forall j :: 0 <= j < i ==> Covered(sorted[j], kept)
    ensures forall j :: 0 <= j <= i ==> Covered(sorted[j], kept + [sorted[i]])
  {
    var more := kept + [sorted[i]];
    forall j | 0 <= j <= i
      ensures Covered(sorted[j], more)
    {
      if j == i {
        assert sorted[i] in more;
      } else {
        var k :| k in kept && k.dur <= sorted[j].dur && (k == sorted[j] || Overlap(sorted[j], k));
        assert k in more;
      }
    }
  }

  lemma FinerIsKept(sorted: seq<PricePoint>, i: nat, kept: seq<PricePoint>)
    requires i < |sorted| && Sorted(ByDuration, sorted)
    requires forall k :: k in kept ==> k in sorted[..i]
    requires exists k :: k in kept && Overlap(sorted[i], k)
    ensures Covered(sorted[i], kept)
  {
    var k :| k in kept && Overlap(sorted[i], k);
    FinerCameFirst(sorted, i, k);
  }

  lemma FinerCameFirst(sorted: seq<PricePoint>, i: nat, k: PricePoint)
    requires i < |sorted| && Sorted(ByDuration, sorted) && k in sorted[..i]
    ensures k.dur <= sorted[i].dur
  {
    var j :| 0 <= j < i && sorted[j] == k;
    assert LexLe(ByDuration(sorted[j]), ByDuration(sorted[i]));
  }

  // ---------------------------------------------------------------- the price book

  // Sorted by start and pairwise disjoint, as one condition.
  ghost predicate Ordered(s: seq<PricePoint>) {
    && (forall i :: 0 <= i < |s| ==> 0 < s[i].dur)
    && (forall i, j :: 0 <= i < j < |s| ==> s[i].End() <= s[j].start)
  }

  // Everything in a ends before anything in b starts.
  ghost predicate Precede(a: seq<PricePoint>, b: seq<PricePoint>) {
    forall p, q :: p in a && q in b ==> p.End() <= q.start
  }

  lemma OrderedConcat(a: seq<PricePoint>, b: seq<PricePoint>)
    ensures Ordered(a + b) <==> Ordered(a) && Ordered(b) && Precede(a, b)
  {
    if Ordered(a + b) {
      OrderedParts(a, b);
    }
    if Ordered(a) && Ordered(b) && Precede(a, b) {
      OrderedWhole(a, b);
    }
  }

  lemma OrderedParts(a: seq<PricePoint>, b: seq<PricePoint>)
    requires Ordered(a + b)
    ensures Ordered(a) && Ordered(b) && Precede(a, b)
  {
    var s := a + b;
    assert s[..|a|] == a && s[|a|..] == b;
    forall p, q | p in a && q in b
      ensures p.End() <= q.start
    {
      var i :| 0 <= i < |a| && a[i] == p;
      var j :| 0 <= j < |b| && b[j] == q;
      assert s[i].End() <= s[|a| + j].start;
    }
  }

  lemma OrderedWhole(a: seq<PricePoint>, b: seq<PricePoint>)
    requires Ordered(a) && Ordered(b) && Precede(a, b)
    ensures Ordered(a + b)
  {
    var s := a + b;
    forall i | 0 <= i < |s|
      ensures 0 < s[i].dur
    {
      assert s[i] == if i < |a| then a[i] else b[i - |a|];
    }
    forall i, j | 0 <= i < j < |s|
      ensures s[i].End() <= s[j].start
    {
      if j < |a| {
        assert s[i] == a[i] && s[j] == a[j];
      } else if i < |a| {
        assert a[i] in a && b[j - |a|] in b;
      } else {
        assert s[i] == b[i - |a|] && s[j] == b[j - |a|];
      }
    }
  }

  lemma OrderedIsSortedDisjoint(s: seq<PricePoint>)
    requires forall i :: 0 <= i < |s| ==> 0 < s[i].dur
    ensures Ordered(s) <==> Sorted(ByStart, s) && Disjoint(s)
  {
    if Sorted(ByStart, s) && Disjoint(s) {
      forall i, j | 0 <= i < j < |s|
        ensures s[i].End() <= s[j].start
      {
        assert LexLe(ByStart(s[i]), ByStart(s[j])) && !Overlap(s[i], s[j]);
      }
    }
    if Ordered(s) {
      forall i, j | 0 <= i < j < |s|
        ensures LexLe(ByStart(s[i]), ByStart(s[j])) && !Overlap(s[i], s[j])
      {
      }
    }
  }

  type Starts = seq<(int, real)>

  // Start i makes a product: it lasts until the next start, at most an hour, and the last one always does.
  predicate IsKept(starts: Starts, i: nat)
    requires i < |starts|
  {
    i + 1 == |starts| || 0 < starts[i + 1].0 - starts[i].0 <= 3600
  }

  // Which of the first n do.
  function KeptStarts(starts: Starts, n: nat): (kept: seq<nat>)
    requires n <= |starts|
    ensures forall j :: 0 <= j < |kept| ==> kept[j] < n && IsKept(starts, kept[j])
  {
    if n == 0 then [] else KeptStarts(starts, n - 1) + (if IsKept(starts, n - 1) then [n - 1] else [])
  }

  lemma {:induction false} KeptStartsAre(starts: Starts, n: nat, k: nat)
    requires n <= |starts|
    ensures k in KeptStarts(starts, n) <==> k < n && IsKept(starts, k)
  {
    if n > 0 {
      KeptStartsAre(starts, n - 1, k);
    }
  }

  lemma {:induction false} KeptStartsRise(starts: Starts, n: nat, m: nat)
    requires n <= |starts| && 0 < m < |KeptStarts(starts, n)|
    ensures KeptStarts(starts, n)[m - 1] < KeptStarts(starts, n)[m]
  {
    if m < |KeptStarts(starts, n - 1)| {
      KeptStartsRise(starts, n - 1, m);
    }
  }

  // The spacing to the next start; the last product lasts as long as the one kept before it.
  function DurationAt(starts: Starts, i: nat): (dur: int)
    requires i < |starts| && IsKept(starts, i)
    ensures 0 < dur <= 3600
  {
    if i + 1 < |starts| then starts[i + 1].0 - starts[i].0
    else
      var before := KeptStarts(starts, i);
      if before == [] then 3600
      else
        var k := before[|before| - 1];
        starts[k + 1].0 - starts[k].0
  }

  function ProductAt(starts: Starts, i: nat): PricePoint
    requires i < |starts| && IsKept(starts, i)
  {
    PricePoint(starts[i].0, DurationAt(starts, i), starts[i].1)
  }

  function Spaced(starts: Starts, n: nat): seq<PricePoint>
    requires n <= |starts|
  {
    if n == 0 then [] else Spaced(starts, n - 1) + (if IsKept(starts, n - 1) then [ProductAt(starts, n - 1)] else [])
  }

  lemma {:induction false} SpacedAt(starts: Starts, n: nat, m: nat)
    requires n <= |starts|
    ensures |Spaced(starts, n)| == |KeptStarts(starts, n)|
    ensures m < |KeptStarts(starts, n)| ==>
              var k := KeptStarts(starts, n)[m];
              k < n && IsKept(starts, k) && Spaced(starts, n)[m] == ProductAt(starts, k)
  {
    if n > 0 {
      SpacedAt(starts, n - 1, m);
    }
  }

  lemma LastSpaced(starts: Starts, n: nat)
    requires n + 1 == |starts|
    ensures var out := Spaced(starts, n);
      DurationAt(starts, n) == if out == [] then 3600 else out[|out| - 1].dur
  {
    var kept := KeptStarts(starts, n);
    SpacedAt(starts, n, if kept == [] then 0 else |kept| - 1);
  }

  // Durations from the spacing of start times; the last repeats the one before.
  method WithDurations(starts: Starts) returns (out: seq<PricePoint>)
    ensures out == Spaced(starts, |starts|)
    ensures forall p :: p in out ==> 0 < p.dur <= 3600 && (p.start, p.price) in starts
  {
    out := [];
    for i := 0 to |starts|
      invariant out == Spaced(starts, i)
      invariant forall p :: p in out ==> 0 < p.dur <= 3600 && (p.start, p.price) in starts
    {
      var (start, price) := starts[i];
      var dur := if i + 1 < |starts| then starts[i + 1].0 - start
                 else if out != [] then out[|out| - 1].dur else 3600;
      if i + 1 == |starts| {
        LastSpaced(starts, i);
      }
      if 0 < dur <= 3600 {
        out := out + [PricePoint(start, dur, price)];
      }
    }
  }

  // What follows a kept start directly comes no later than the next one that is kept.
  ghost predicate SpacedApart(starts: Starts) {
    forall m: nat :: ApartAt(starts, KeptStarts(starts, |starts|), m)
  }

  ghost predicate ApartAt(starts: Starts, kept: seq<nat>, m: nat) {
    0 < m < |kept| ==>
      kept[m - 1] + 1 < |starts| && kept[m] < |starts| && starts[kept[m - 1] + 1].0 <= starts[kept[m]].0
  }

  // Neighbours among the products.
  lemma Neighbours(starts: Starts, m: nat)
    requires 0 < m < |KeptStarts(starts, |starts|)|
    ensures var kept, out := KeptStarts(starts, |starts|), Spaced(starts, |starts|);
      && |out| == |kept| && kept[m - 1] < kept[m] < |starts|
      && out[m - 1].End() == starts[kept[m - 1] + 1].0 && out[m].start == starts[kept[m]].0
  {
    SpacedAt(starts, |starts|, m - 1);
    SpacedAt(starts, |starts|, m);
    KeptStartsRise(starts, |starts|, m);
  }

  lemma {:induction false} EndsBeforeLater(starts: Starts, j: nat, m: nat)
    requires SpacedApart(starts) && j < m < |Spaced(starts, |starts|)|
    ensures var out := Spaced(starts, |starts|); out[j].End() <= out[m].start
    decreases m
  {
    SpacedAt(starts, |starts|, m);
    Neighbours(starts, m);
    assert ApartAt(starts, KeptStarts(starts, |starts|), m);
    if j < m - 1 {
      SpacedAt(starts, |starts|, m - 1);
      EndsBeforeLater(starts, j, m - 1);
    }
  }

  lemma SpacedLast(starts: Starts, j: nat)
    requires j < |Spaced(starts, |starts|)|
    ensures 0 < Spaced(starts, |starts|)[j].dur
  {
    SpacedAt(starts, |starts|, j);
  }

  // The products are sorted and disjoint exactly when each starts no earlier than the one before it ends.
  lemma SpacedOrderedExactly(starts: Starts)
    ensures Ordered(Spaced(starts, |starts|)) <==> SpacedApart(starts)
  {
    if SpacedApart(starts) {
      ApartIsOrdered(starts, Spaced(starts, |starts|));
    }
    if Ordered(Spaced(starts, |starts|)) {
      OrderedIsApart(starts, Spaced(starts, |starts|), KeptStarts(starts, |starts|));
    }
  }

  lemma ApartIsOrdered(starts: Starts, out: seq<PricePoint>)
    requires SpacedApart(starts) && out == Spaced(starts, |starts|)
    ensures Ordered(out)
  {
    forall j: nat | j < |out|
      ensures 0 < out[j].dur
    {
      SpacedLast(starts, j);
    }
    forall j: nat, m: nat | j < m < |out|
      ensures out[j].End() <= out[m].start
    {
      EndsBeforeLater(starts, j, m);
    }
  }

  lemma OrderedIsApart(starts: Starts, out: seq<PricePoint>, kept: seq<nat>)
    requires Ordered(out) && out == Spaced(starts, |starts|) && kept == KeptStarts(starts, |starts|)
    ensures SpacedApart(starts)
  {
    forall m: nat
      ensures ApartAt(starts, kept, m)
    {
      if 0 < m < |kept| {
        Neighbours(starts, m);
      }
    }
  }

  // As ascending starts are.
  lemma AscendingIsApart(starts: Starts)
    requires Ascending(starts)
    ensures SpacedApart(starts)
  {
    var kept := KeptStarts(starts, |starts|);
    forall m: nat
      ensures ApartAt(starts, kept, m)
    {
      if 0 < m < |kept| {
        Neighbours(starts, m);
        AscendingIsMonotone(starts, kept[m - 1] + 1, kept[m]);
      }
    }
  }

  lemma {:induction false} AscendingIsMonotone(starts: Starts, i: nat, j: nat)
    requires Ascending(starts) && i <= j < |starts|
    ensures starts[i].0 <= starts[j].0
    decreases j
  {
    if i < j {
      AscendingIsMonotone(starts, i, j - 1);
    }
  }

  lemma GoingBack(starts: Starts, price: real)
    requires starts == [(0, price), (100, price), (50, price)]
    ensures IsKept(starts, 0) && !IsKept(starts, 1) && IsKept(starts, 2) && KeptStarts(starts, 2) == [0]
  {
    assert KeptStarts(starts, 0) == [] && KeptStarts(starts, 1) == [0];
  }

  // Starts that go back in time can give products that overlap.
  lemma StartsGoingBackOverlap(starts: Starts, price: real)
    requires starts == [(0, price), (100, price), (50, price)]
    ensures var out := Spaced(starts, 3);
      out == [PricePoint(0, 100, price), PricePoint(50, 100, price)] && Overlap(out[0], out[1]) && !Ordered(out)
  {
    GoingBack(starts, price);
    assert Spaced(starts, 0) == [] && Spaced(starts, 1) == [ProductAt(starts, 0)];
    assert Spaced(starts, 2) == [ProductAt(starts, 0)];
  }

  ghost predicate Ascending(starts: Starts) {
    forall i :: 0 < i < |starts| ==> starts[i - 1].0 <= starts[i].0
  }

  // The plain meaning of a list of prices: the price of the first product containing t.
  function Lookup(s: seq<PricePoint>, t: int): Option<real> {
    if s == [] then None
    else if s[0].Contains(t) then Some(s[0].price)
    else Lookup(s[1..], t)
  }

  lemma {:induction false} LookupFinds(s: seq<PricePoint>, i: nat, t: int)
    requires Ordered(s) && i < |s| && s[i].Contains(t)
    ensures Lookup(s, t) == Some(s[i].price)
    decreases |s|
  {
    if i > 0 {
      assert s[0].End() <= s[i].start;
      LookupFinds(s[1..], i - 1, t);
    }
  }

  lemma {:induction false} LookupMisses(s: seq<PricePoint>, t: int)
    requires forall i :: 0 <= i < |s| ==> !s[i].Contains(t)
    ensures Lookup(s, t) == None
    decreases |s|
  {
    if s != [] {
      LookupMisses(s[1..], t);
    }
  }

  lemma {:induction false} LookupConcat(a: seq<PricePoint>, b: seq<PricePoint>, t: int)
    ensures Lookup(a + b, t) == if Lookup(a, t).Some? then Lookup(a, t) else Lookup(b, t)
    decreases |a|
  {
    if a == [] {
      assert a + b == b;
    } else {
      assert (a + b)[1..] == a[1..] + b;
      LookupConcat(a[1..], b, t);
    }
  }

  function Filter(s: seq<PricePoint>, keep: PricePoint -> bool): seq<PricePoint> {
    if s == [] then []
    else (if keep(s[0]) then [s[0]] else []) + Filter(s[1..], keep)
  }

  lemma {:induction false} FilterOrdered(s: seq<PricePoint>, keep: PricePoint -> bool)
    requires Ordered(s)
    ensures Ordered(Filter(s, keep))
    ensures forall p :: p in Filter(s, keep) <==> p in s && keep(p)
    decreases |s|
  {
    if s != [] {
      assert s == [s[0]] + s[1..];
      OrderedConcat([s[0]], s[1..]);
      FilterOrdered(s[1..], keep);
      OrderedConcat([s[0]], Filter(s[1..], keep));
    }
  }

  const KEEP_S := 8 * 86_400

  // Which old prices survive news ones spanning lo .. hi.
  predicate Survives(p: PricePoint, lo: int, hi: int, now: int) {
    (p.End() <= lo || p.start >= hi) && p.start > now - KEEP_S
  }

  function Retained(points: seq<PricePoint>, lo: int, hi: int, now: int): seq<PricePoint> {
    Filter(points, p => Survives(p, lo, hi, now))
  }

  function Merged(points: seq<PricePoint>, news: seq<PricePoint>, now: int): seq<PricePoint> {
    if news == [] then points
    else
      Sort(ByStart, Retained(points, news[0].start, news[|news| - 1].End(), now) + news)
  }

  class PriceBook {
    var points: seq<PricePoint>

    constructor ()
      ensures points == []
    {
      points := [];
    }

    method Merge(news: seq<PricePoint>, now: int)
      requires Ordered(points) && Ordered(news)
      modifies this
      ensures points == Merged(old(points), news, now)
      ensures Ordered(points)
    {
      MergedOrdered(points, news, now);
      if news == [] {
        return;
      }
      var lo := news[0].start;
      var hi := news[|news| - 1].End();
      points := Filter(points, p => Survives(p, lo, hi, now));
      points := points + news;
      points := Sort(ByStart, points);
    }

    // The number of products that start at or before t (slice::partition_point).
    method PartitionPoint(t: int) returns (n: nat)
      requires Ordered(points)
      ensures n <= |points|
      ensures forall i :: 0 <= i < n ==> points[i].start <= t
      ensures forall i :: n <= i < |points| ==> t < points[i].start
    {
      n := 0;
      var hi := |points|;
      while n < hi
        invariant 0 <= n <= hi <= |points|
        invariant forall i :: 0 <= i < n ==> points[i].start <= t
        invariant forall i :: hi <= i < |points| ==> t < points[i].start
      {
        var mid := n + (hi - n) / 2;
        if points[mid].start <= t {
          n := mid + 1;
        } else {
          hi := mid;
        }
      }
    }

    // Binary search answers as a linear search would.
    method At(t: int) returns (price: Option<real>)
      requires Ordered(points)
      ensures price == Lookup(points, t)
    {
      var n := PartitionPoint(t);
      if n == 0 {
        LookupMisses(points, t);
        return None;
      }
      var p := points[n - 1];
      if t < p.End() {
        LookupFinds(points, n - 1, t);
        return Some(p.price);
      }
      LookupMisses(points, t);
      return None;
    }
  }

  // ---------------------------------------------------------------- what merging does to the book

  lemma {:induction false} InsertBetween(p: PricePoint, before: seq<PricePoint>, after: seq<PricePoint>)
    requires forall q :: q in before ==> q.start <= p.start
    requires after != [] ==> p.start < after[0].start
    ensures Insert(ByStart, p, before + after) == before + [p] + after
    decreases |before|
  {
    if before == [] {
      assert before + after == after;
    } else {
      assert before[0] in before;
      assert (before + after)[1..] == before[1..] + after;
      InsertBetween(p, before[1..], after);
      assert before + [p] + after == [before[0]] + (before[1..] + [p] + after);
    }
  }

  lemma {:induction false} SortOrdered(s: seq<PricePoint>)
    requires Ordered(s)
    ensures Sort(ByStart, s) == s
    decreases |s|
  {
    if s != [] {
      var init, p := s[..|s| - 1], s[|s| - 1];
      assert s == init + [p];
      OrderedConcat(init, [p]);
      SortOrdered(init);
      StartsEarlier(init, p);
      InsertBetween(p, init, []);
      assert init + [] == init && init + [p] + [] == s;
    }
  }

  lemma StartsEarlier(s: seq<PricePoint>, p: PricePoint)
    requires Ordered(s) && Precede(s, [p])
    ensures forall q :: q in s ==> q.start <= p.start
  {
    assert p in [p];
  }

  // Fresh prices slot in between what ends before them and what starts after them.
  lemma {:induction false} SortSlotsIn(before: seq<PricePoint>, after: seq<PricePoint>, news: seq<PricePoint>)
    requires Ordered(before + after)
    requires Ordered(before + news) && Ordered(news + after)
    ensures Sort(ByStart, before + after + news) == before + news + after
    decreases |news|
  {
    if news == [] {
      assert before + after + news == before + after && before + news + after == before + after;
      SortOrdered(before + after);
    } else {
      var init, p := news[..|news| - 1], news[|news| - 1];
      assert news == init + [p];
      DropLastNews(before, init, p, after);
      SortSlotsIn(before, after, init);
      SlotsInNext(before, after, init, p);
    }
  }

  lemma SlotsInNext(before: seq<PricePoint>, after: seq<PricePoint>, init: seq<PricePoint>, p: PricePoint)
    requires Sort(ByStart, before + after + init) == before + init + after
    requires forall q :: q in before + init ==> q.start <= p.start
    requires after != [] ==> p.start < after[0].start
    ensures Sort(ByStart, before + after + (init + [p])) == before + (init + [p]) + after
  {
    SortSnoc(before + after + init, p);
    InsertBetween(p, before + init, after);
    assert before + after + (init + [p]) == (before + after + init) + [p];
    assert before + (init + [p]) + after == (before + init) + [p] + after;
  }

  lemma SortSnoc(s: seq<PricePoint>, p: PricePoint)
    ensures Sort(ByStart, s + [p]) == Insert(ByStart, p, Sort(ByStart, s))
  {
    assert (s + [p])[..|s|] == s;
  }

  lemma DropLastNews(before: seq<PricePoint>, init: seq<PricePoint>, p: PricePoint, after: seq<PricePoint>)
    requires Ordered(before + (init + [p])) && Ordered(init + [p] + after)
    ensures Ordered(before + init) && Ordered(init + after)
    ensures forall q :: q in before + init ==> q.start <= p.start
    ensures after != [] ==> p.start < after[0].start
  {
    OrderedConcat(init, [p]);
    OrderedConcat(init + [p], after);
    OrderedConcat(init, after);
    assert before + (init + [p]) == (before + init) + [p];
    OrderedConcat(before + init, [p]);
    StartsEarlier(before + init, p);
    assert p == [p][0] && p in init + [p];
    assert after != [] ==> after[0] in after;
  }

  // The retained prices, cut where the fresh ones go.
  lemma {:induction false} RetainedSplits(points: seq<PricePoint>, lo: int, hi: int, now: int)
    returns (before: seq<PricePoint>, after: seq<PricePoint>)
    requires Ordered(points) && lo < hi
    ensures Retained(points, lo, hi, now) == before + after
    ensures forall p :: p in before ==> p in points && p.End() <= lo
    ensures forall p :: p in after ==> hi <= p.start
    decreases |points|
  {
    if points == [] {
      before, after := [], [];
    } else {
      var p := points[0];
      before, after := RetainedSplits(points[1..], lo, hi, now);
      if Survives(p, lo, hi, now) {
        if p.End() <= lo {
          before := [p] + before;
        } else {
          NothingBefore(points, lo, hi, before);
          after := [p] + after;
        }
      }
    }
  }

  // Behind a price that starts at or after hi nothing ends by lo.
  lemma NothingBefore(points: seq<PricePoint>, lo: int, hi: int, before: seq<PricePoint>)
    requires Ordered(points) && points != [] && lo < hi <= points[0].start
    requires forall p :: p in before ==> p in points[1..] && p.End() <= lo
    ensures before == []
  {
    if before != [] {
      EndsLater(points, before[0]);
    }
  }

  lemma EndsLater(points: seq<PricePoint>, q: PricePoint)
    requires Ordered(points) && points != [] && q in points[1..]
    ensures points[0].start < q.End()
  {
    var i :| 0 <= i < |points[1..]| && points[1..][i] == q;
    assert points[0].End() <= points[i + 1].start;
  }

  lemma MergedShape(points: seq<PricePoint>, news: seq<PricePoint>, now: int)
    returns (before: seq<PricePoint>, after: seq<PricePoint>)
    requires Ordered(points) && Ordered(news) && news != []
    ensures Merged(points, news, now) == before + news + after && Ordered(before + news + after)
    ensures Retained(points, news[0].start, news[|news| - 1].End(), now) == before + after
    ensures Precede(before, news) && Precede(news, after)
  {
    var lo, hi := news[0].start, news[|news| - 1].End();
    NewsSpan(news);
    before, after := RetainedSplits(points, lo, hi, now);
    FilterOrdered(points, p => Survives(p, lo, hi, now));
    OrderedConcat(before, after);
    OrderedConcat(before, news);
    OrderedConcat(news, after);
    OrderedConcat(before + news, after);
    SortSlotsIn(before, after, news);
  }

  // Fresh products lie between the start of the first and the end of the last.
  lemma NewsSpan(news: seq<PricePoint>)
    requires Ordered(news) && news != []
    ensures forall p :: p in news ==> news[0].start <= p.start < p.End() <= news[|news| - 1].End()
  {
    forall p | p in news
      ensures news[0].start <= p.start < p.End() <= news[|news| - 1].End()
    {
      var i :| 0 <= i < |news| && news[i] == p;
      if i > 0 { assert news[0].End() <= news[i].start; }
      if i < |news| - 1 { assert news[i].End() <= news[|news| - 1].start; }
    }
  }

  lemma MergedOrdered(points: seq<PricePoint>, news: seq<PricePoint>, now: int)
    requires Ordered(points) && Ordered(news)
    ensures Ordered(Merged(points, news, now))
  {
    if news != [] {
      var before, after := MergedShape(points, news, now);
    }
  }

  // After a merge the newest answer wins: every instant of a news product has its price, nothing
  // else answers inside the news span, and outside it exactly the surviving old products answer.
  lemma NewestAnswerWins(points: seq<PricePoint>, news: seq<PricePoint>, now: int, t: int)
    requires Ordered(points) && Ordered(news) && news != []
    ensures var lo, hi := news[0].start, news[|news| - 1].End();
      Lookup(Merged(points, news, now), t)
      == if lo <= t < hi then Lookup(news, t) else Lookup(Retained(points, lo, hi, now), t)
  {
    var lo, hi := news[0].start, news[|news| - 1].End();
    var before, after := MergedShape(points, news, now);
    LookupConcat(before + news, after, t);
    LookupConcat(before, news, t);
    LookupConcat(before, after, t);
    NewsSpan(news);
    assert news[0] in news && news[|news| - 1] in news;
    if lo <= t < hi {
      assert forall i :: 0 <= i < |before| ==> before[i] in before && before[i].End() <= lo;
      assert forall i :: 0 <= i < |after| ==> after[i] in after && hi <= after[i].start;
      LookupMisses(before, t);
      LookupMisses(after, t);
    } else {
      assert forall i :: 0 <= i < |news| ==> news[i] in news;
      LookupMisses(news, t);
    }
  }

  // A book built by any number of merges stays sorted and disjoint.
  function MergeAll(updates: seq<(seq<PricePoint>, int)>): seq<PricePoint> {
    if updates == [] then []
    else
      var (news, now) := updates[|updates| - 1];
      Merged(MergeAll(updates[..|updates| - 1]), news, now)
  }

  lemma {:induction false} BookStaysOrdered(updates: seq<(seq<PricePoint>, int)>)
    requires forall u :: u in updates ==> Ordered(u.0)
    ensures Ordered(MergeAll(updates))
    decreases |updates|
  {
    if updates != [] {
      BookStaysOrdered(updates[..|updates| - 1]);
      assert updates[|updates| - 1] in updates;
      MergedOrdered(MergeAll(updates[..|updates| - 1]), updates[|updates| - 1].0, updates[|updates| - 1].1);
    }
  }
}
