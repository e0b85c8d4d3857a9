// The limit for the inverters (crates/control/src/controller.rs:589-603 and 626-686): the feed-in limit in force,
// the gentle rise, and making up for inverters that ignore their limit.
module PvLimits {
  import opened Basics
  import opened Sums
  import opened Sites

  // ---------------------------------------------------------------- the limit in force

  // The free curtailment of the year is used up. A budget of nothing is, once anything was curtailed.
  predicate CurtailmentExhausted(site: Site, curtailedKwh: real) {
    site.policy.curtailmentPct.Some?
    && var allowed := site.policy.curtailmentPct.value / 100.0 * Max(site.annualYieldKwh, 1.0);
       if allowed == 0.0 then curtailedKwh > 0.0 else curtailedKwh / allowed * 100.0 >= 100.0
  }

  function FeedInPct(site: Site, cmd: Commands, curtailedKwh: real): real {
    var asked := Clamp(cmd.feedInLimitPct, 0.0, 100.0);
    var refused := asked < 100.0 && !cmd.emergency && CurtailmentExhausted(site, curtailedKwh);
    Min(if refused && site.policy.enforceCurtailment then 100.0 else asked, site.policy.feedInCapPct.UnwrapOr(100.0))
  }

  lemma FeedInIsAPercentage(site: Site, cmd: Commands, curtailedKwh: real)
    requires site.policy.Valid()
    ensures 0.0 <= FeedInPct(site, cmd, curtailedKwh) <= 100.0
  {
  }

  function AllowedExportKw(site: Site, feedInPct: real): real {
    site.pvInstalledKw * feedInPct / 100.0
  }

  // Where the limit should be. At the grid connection point PV may exceed it by what the site takes itself.
  function TargetPct(site: Site, feedInPct: real, gridKw: Option<real>, pvKw: Option<real>, batteryNowKw: real,
                     chargeKw: real, dischargeKw: real): real
    requires site.pvInstalledKw > 0.0
  {
    if feedInPct >= 100.0 then 100.0
    else if site.reference == GridConnectionPoint && gridKw.Some? && pvKw.Some? then
      var consumption := Max(pvKw.value + gridKw.value - batteryNowKw + chargeKw - dischargeKw, 0.0);
      var most := AllowedExportKw(site, feedInPct) + consumption - site.marginKw;
      Clamp(most / site.pvInstalledKw * 100.0, feedInPct, 100.0)
    else feedInPct
  }

  lemma TargetIsAPercentage(site: Site, feedInPct: real, gridKw: Option<real>, pvKw: Option<real>, batteryNowKw: real,
                            chargeKw: real, dischargeKw: real)
    requires site.pvInstalledKw > 0.0 && 0.0 <= feedInPct <= 100.0
    ensures feedInPct <= TargetPct(site, feedInPct, gridKw, pvKw, batteryNowKw, chargeKw, dischargeKw) <= 100.0
  {
  }

  // Down at once, up gently: by at most the rise the elapsed time allows.
  function LimitPct(lastPct: real, targetPct: real, rise: real): real {
    if targetPct > lastPct then Min(lastPct + rise, targetPct) else targetPct
  }

  function RiseOf(rate: real, last: Option<real>, t: real): real {
    rate * Gap(last, t)
  }

  lemma RiseIsNotNegative(rate: real, last: Option<real>, t: real)
    requires rate > 0.0
    ensures RiseOf(rate, last, t) >= 0.0
  {
  }

  // A cycle's target and the rise it allows.
  datatype Cycle = Cycle(rise: real, targetPct: real)

  // The limit after a run of cycles.
  function Ramped(startPct: real, run: seq<Cycle>): real {
    if run == [] then startPct
    else LimitPct(Ramped(startPct, run[..|run| - 1]), run[|run| - 1].targetPct, run[|run| - 1].rise)
  }

  ghost predicate Sensible(run: seq<Cycle>) {
    forall k :: 0 <= k < |run| ==> 0.0 <= run[k].targetPct <= 100.0 && run[k].rise >= 0.0
  }

  // The limit is a percentage, never above its target: reductions apply at once.
  lemma {:induction false} LimitIsAPercentage(startPct: real, run: seq<Cycle>)
    requires Sensible(run) && 0.0 <= startPct <= 100.0
    ensures var limit := Ramped(startPct, run);
      0.0 <= limit <= 100.0 && (run != [] ==> limit <= run[|run| - 1].targetPct)
    decreases |run|
  {
    if run != [] {
      LimitIsAPercentage(startPct, run[..|run| - 1]);
    }
  }

  // Each cycle's rise is at most what is allowed by then less what was allowed by the cycle before.
  ghost predicate Within(run: seq<Cycle>, allowed: seq<real>) {
    |run| == |allowed| && forall k :: 0 < k < |run| ==> run[k].rise <= allowed[k] - allowed[k - 1]
  }

  lemma {:induction false} LimitRisesAsAllowed(startPct: real, run: seq<Cycle>, allowed: seq<real>, m: nat)
    requires Sensible(run) && Within(run, allowed) && 0 < m <= |run|
    ensures Ramped(startPct, run) <= Ramped(startPct, run[..m]) + allowed[|run| - 1] - allowed[m - 1]
    decreases |run|
  {
    if m == |run| {
      assert run[..m] == run;
    } else {
      LimitRisesAsAllowed(startPct, run[..|run| - 1], allowed[..|run| - 1], m);
      assert run[..|run| - 1][..m] == run[..m];
    }
  }

  // The cycles at their times with their targets.
  ghost predicate Timed(run: seq<Cycle>, rate: real, times: seq<real>) {
    && |run| == |times|
    && (forall k :: 0 <= k < |run| ==> 0.0 <= run[k].targetPct <= 100.0)
    && (forall k, l :: 0 <= k < l < |times| ==> times[k] <= times[l])
    && forall k: nat :: 0 < k < |run| ==> RisesFor(run[k], rate, times[k - 1], times[k])
  }

  // The rise a cycle allows is the rate times the time since the last one, at most 10 s.
  ghost predicate RisesFor(c: Cycle, rate: real, last: real, t: real) {
    c.rise == RiseOf(rate, Some(last), t)
  }

  function Allowance(rate: real, t: real): real {
    rate * t
  }

  lemma RiseIsAllowed(rate: real, last: real, t: real, dt: real)
    requires rate > 0.0 && 0.0 <= dt <= t - last
    ensures 0.0 <= rate * dt <= Allowance(rate, t) - Allowance(rate, last)
  {
    var gap := t - last;
    assert rate * gap == rate * t - rate * last;
  }

  lemma RiseAt(run: seq<Cycle>, rate: real, times: seq<real>, k: nat)
    requires Timed(run, rate, times) && rate > 0.0 && 0 < k < |run|
    ensures 0.0 <= run[k].rise <= Allowance(rate, times[k]) - Allowance(rate, times[k - 1])
  {
    assert RisesFor(run[k], rate, times[k - 1], times[k]);
    RiseIsAllowed(rate, times[k - 1], times[k], Gap(Some(times[k - 1]), times[k]));
  }

  // What the rate allows by each cycle.
  function Allowed(rate: real, times: seq<real>): seq<real> {
    seq(|times|, k requires 0 <= k < |times| => Allowance(rate, times[k]))
  }

  lemma RunIsWithin(run: seq<Cycle>, rate: real, times: seq<real>)
    requires Timed(run, rate, times) && rate > 0.0
    ensures Within(run, Allowed(rate, times)) && forall k :: 0 < k < |run| ==> run[k].rise >= 0.0
  {
    forall k | 0 < k < |run|
      ensures 0.0 <= run[k].rise <= Allowed(rate, times)[k] - Allowed(rate, times)[k - 1]
    {
      RiseAt(run, rate, times, k);
    }
  }

  // Between any two cycles the limit rises by at most the rate times the time between them.
  lemma LimitRisesGently(startPct: real, run: seq<Cycle>, rate: real, times: seq<real>, m: nat)
    requires Timed(run, rate, times) && rate > 0.0 && 0 < m <= |run| && run[0].rise >= 0.0
    ensures Ramped(startPct, run)
            <= Ramped(startPct, run[..m]) + Allowance(rate, times[|run| - 1]) - Allowance(rate, times[m - 1])
  {
    RunIsWithin(run, rate, times);
    LimitRisesAsAllowed(startPct, run, Allowed(rate, times), m);
  }

  // ---------------------------------------------------------------- inverters that ignore their limit

  predicate Over(site: Site, inv: InverterReading, sentPct: real) {
    && inv.online && sentPct < 100.0
    && inv.kw > inv.ratedKw * sentPct / 100.0 + Max(site.marginKw, 0.02 * inv.ratedKw)
  }

  function SinceNext(since: Option<real>, over: bool, t: real): Option<real> {
    if !over then None else if since.Some? then since else Some(t)
  }

  predicate Ignores(site: Site, over: bool, since: Option<real>, t: real) {
    over && since.Some? && site.followTimeoutS > 0.0 && t - since.value >= site.followTimeoutS
  }

  // One inverter's cycles, each with its time and whether it was over its limit.
  function SinceAfter(cycles: seq<(real, bool)>): Option<real> {
    if cycles == [] then None
    else
      var last := cycles[|cycles| - 1];
      SinceNext(SinceAfter(cycles[..|cycles| - 1]), last.1, last.0)
  }

  // The cycles from k on are all over, and the one before is not.
  ghost predicate StreakFrom(cycles: seq<(real, bool)>, k: nat) {
    && k < |cycles| && (forall j :: k <= j < |cycles| ==> cycles[j].1) && (k > 0 ==> !cycles[k - 1].1)
  }

  // The time remembered is that of the cycle with which the unbroken run of cycles over the limit began.
  lemma {:induction false} RememberedSince(cycles: seq<(real, bool)>)
    returns (k: nat)
    requires cycles != []
    ensures cycles[|cycles| - 1].1 <==> SinceAfter(cycles).Some?
    ensures SinceAfter(cycles).Some? ==> StreakFrom(cycles, k) && SinceAfter(cycles).value == cycles[k].0
    decreases |cycles|
  {
    var init := cycles[..|cycles| - 1];
    k := |init|;
    if init != [] && cycles[|cycles| - 1].1 {
      var before := RememberedSince(init);
      if init[|init| - 1].1 {
        k := before;
      }
    }
  }

  // The unbroken run over the limit is as old as the timeout.
  ghost predicate OldStreak(cycles: seq<(real, bool)>, k: nat, timeout: real) {
    StreakFrom(cycles, k) && cycles[|cycles| - 1].0 - cycles[k].0 >= timeout
  }

  ghost predicate OverForLong(cycles: seq<(real, bool)>, timeout: real) {
    exists k :: OldStreak(cycles, k, timeout)
  }

  lemma StreakIsUnique(cycles: seq<(real, bool)>, j: nat, k: nat)
    requires StreakFrom(cycles, j) && StreakFrom(cycles, k)
    ensures j == k
  {
  }

  // An inverter is reported exactly when the unbroken run of cycles over its limit is as old as the timeout.
  lemma IgnoredAfterTheTimeout(site: Site, cycles: seq<(real, bool)>)
    requires cycles != []
    ensures var last := cycles[|cycles| - 1];
      Ignores(site, last.1, SinceAfter(cycles), last.0)
      <==> site.followTimeoutS > 0.0 && OverForLong(cycles, site.followTimeoutS)
  {
    var k := RememberedSince(cycles);
    if j :| OldStreak(cycles, j, site.followTimeoutS) {
      assert cycles[|cycles| - 1].1;
      StreakIsUnique(cycles, j, k);
    }
    if SinceAfter(cycles).Some? && cycles[|cycles| - 1].0 - cycles[k].0 >= site.followTimeoutS {
      assert OldStreak(cycles, k, site.followTimeoutS);
    }
  }

  datatype Followers = Followers(sentPct: seq<real>, overSince: seq<Option<real>>)

  // As many as there are inverters; a changed number starts afresh.
  function Matched(f: Followers, n: nat): (g: Followers)
    requires |f.sentPct| == |f.overSince|
    ensures |g.sentPct| == |g.overSince| == n
  {
    if |f.sentPct| == n then f else Followers(seq(n, i => 100.0), seq(n, i => None))
  }

  function Overs(site: Site, inv: seq<InverterReading>, f: Followers): (o: seq<bool>)
    requires |f.sentPct| == |inv|
    ensures |o| == |inv|
  {
    seq(|inv|, i requires 0 <= i < |inv| => Over(site, inv[i], f.sentPct[i]))
  }

  function Sinces(f: Followers, overs: seq<bool>, t: real): (s: seq<Option<real>>)
    requires |f.overSince| == |overs|
    ensures |s| == |overs|
  {
    seq(|overs|, i requires 0 <= i < |overs| => SinceNext(f.overSince[i], overs[i], t))
  }

  function Ignoring(site: Site, overs: seq<bool>, sinces: seq<Option<real>>, t: real): (g: seq<bool>)
    requires |sinces| == |overs|
    ensures |g| == |overs|
  {
    seq(|overs|, i requires 0 <= i < |overs| => Ignores(site, overs[i], sinces[i], t))
  }

  // What the ignoring ones produce, and the rating of the others that are online.
  function StuckKw(inv: seq<InverterReading>, g: seq<bool>, n: nat): real
    requires n <= |inv| == |g|
  {
    if n == 0 then 0.0 else StuckKw(inv, g, n - 1) + (if g[n - 1] then inv[n - 1].kw else 0.0)
  }

  function FreeKw(inv: seq<InverterReading>, g: seq<bool>, n: nat): real
    requires n <= |inv| == |g|
  {
    if n == 0 then 0.0
    else FreeKw(inv, g, n - 1) + (if !g[n - 1] && inv[n - 1].online then inv[n - 1].ratedKw else 0.0)
  }

  function FreePct(targetKw: real, stuckKw: real, freeKw: real, limitPct: real): real {
    if freeKw > 0.0 then Clamp((targetKw - stuckKw) / freeKw * 100.0, 0.0, limitPct) else limitPct
  }

  // The limit for each inverter.
  function Limits(site: Site, inv: seq<InverterReading>, g: seq<bool>, limitPct: real): (l: seq<real>)
    requires |inv| == |g|
    ensures |l| == |inv|
  {
    if limitPct >= 100.0 || true !in g then seq(|inv|, i => limitPct)
    else
      Split(g, limitPct, FreePct(TargetKw(site, limitPct), StuckKw(inv, g, |inv|), FreeKw(inv, g, |inv|), limitPct))
  }

  function TargetKw(site: Site, limitPct: real): real {
    site.pvInstalledKw * limitPct / 100.0
  }

  function Split(g: seq<bool>, limitPct: real, freePct: real): (l: seq<real>)
    ensures |l| == |g|
  {
    seq(|g|, i requires 0 <= i < |g| => if g[i] then limitPct else freePct)
  }

  method FollowLimits(site: Site, inv: seq<InverterReading>, f: Followers, limitPct: real, t: real)
    returns (f': Followers, ignoring: seq<bool>)
    requires |f.sentPct| == |f.overSince|
    ensures |f'.sentPct| == |f'.overSince| == |ignoring| == |inv|
    ensures var m := Matched(f, |inv|); var overs := Overs(site, inv, m);
      && f'.overSince == Sinces(m, overs, t) && ignoring == Ignoring(site, overs, Sinces(m, overs, t), t)
      && f'.sentPct == Limits(site, inv, ignoring, limitPct)
  {
    var m := Matched(f, |inv|);
    ghost var overs := Overs(site, inv, m);
    ghost var sinces := Sinces(m, overs, t);
    var since: seq<Option<real>> := m.overSince;
    ignoring := seq(|inv|, i => false);
    for i := 0 to |inv|
      invariant |since| == |ignoring| == |inv|
      invariant forall j :: 0 <= j < i ==> since[j] == sinces[j] && ignoring[j] == Ignoring(site, overs, sinces, t)[j]
      invariant forall j :: i <= j < |inv| ==> since[j] == m.overSince[j] && !ignoring[j]
    {
      var over := Over(site, inv[i], m.sentPct[i]);
      since := since[i := SinceNext(since[i], over, t)];
      if Ignores(site, over, since[i], t) {
        ignoring := ignoring[i := true];
      }
    }
    assert since == sinces;
    assert ignoring == Ignoring(site, overs, sinces, t);
    var stuck, free := SumStuckAndFree(inv, ignoring);
    var sent: seq<real>;
    if limitPct >= 100.0 || true !in ignoring {
      sent := seq(|inv|, i => limitPct);
    } else {
      sent := Split(ignoring, limitPct, FreePct(TargetKw(site, limitPct), stuck, free, limitPct));
    }
    f' := Followers(sent, since);
  }

  method SumStuckAndFree(inv: seq<InverterReading>, g: seq<bool>) returns (stuck: real, free: real)
    requires |inv| == |g|
    ensures stuck == StuckKw(inv, g, |inv|) && free == FreeKw(inv, g, |inv|)
  {
    stuck, free := 0.0, 0.0;
    for i := 0 to |inv|
      invariant stuck == StuckKw(inv, g, i) && free == FreeKw(inv, g, i)
    {
      if g[i] {
        stuck := stuck + inv[i].kw;
      } else if inv[i].online {
        free := free + inv[i].ratedKw;
      }
    }
  }

  // What the others online may produce under their limits.
  function LimitedKw(inv: seq<InverterReading>, g: seq<bool>, limits: seq<real>, n: nat): real
    requires n <= |inv| == |g| == |limits|
  {
    if n == 0 then 0.0
    else
      LimitedKw(inv, g, limits, n - 1)
      + (if !g[n - 1] && inv[n - 1].online then inv[n - 1].ratedKw * limits[n - 1] / 100.0 else 0.0)
  }

  lemma {:induction false} LimitedIsAShareOfFree(inv: seq<InverterReading>, g: seq<bool>, limits: seq<real>, pct: real,
                                                 n: nat)
    requires n <= |inv| == |g| == |limits| && forall i :: 0 <= i < n && !g[i] ==> limits[i] == pct
    ensures LimitedKw(inv, g, limits, n) == FreeKw(inv, g, n) * pct / 100.0
  {
    if n > 0 {
      LimitedIsAShareOfFree(inv, g, limits, pct, n - 1);
      if !g[n - 1] && inv[n - 1].online {
        ScaleSum(FreeKw(inv, g, n), FreeKw(inv, g, n - 1), inv[n - 1].ratedKw, pct);
      }
    } else {
      Zero(FreeKw(inv, g, n), pct);
    }
  }

  lemma ShareOf(rest: real, free: real)
    requires free > 0.0
    ensures free * (rest / free * 100.0) / 100.0 == rest
  {
  }

  lemma SmallerShare(free: real, a: real, b: real)
    requires free > 0.0 && a <= b
    ensures free * a / 100.0 <= free * b / 100.0
  {
  }

  lemma FreeShare(targetKw: real, stuckKw: real, free: real, limitPct: real, limited: real)
    requires free > 0.0 && limitPct >= 0.0 && limited == free * FreePct(targetKw, stuckKw, free, limitPct) / 100.0
    ensures stuckKw + limited <= Max(targetKw, stuckKw)
    ensures 0.0 <= (targetKw - stuckKw) / free * 100.0 <= limitPct ==> stuckKw + limited == targetKw
  {
    var due := (targetKw - stuckKw) / free * 100.0;
    ShareOf(targetKw - stuckKw, free);
    if due > limitPct {
      SmallerShare(free, limitPct, due);
    } else if due < 0.0 {
      Zero(0.0, free);
    }
  }

  // The output of the others under the limits they get.
  function OthersKw(inv: seq<InverterReading>, g: seq<bool>, limits: seq<real>): real
    requires |inv| == |g| == |limits|
  {
    LimitedKw(inv, g, limits, |inv|)
  }

  lemma SplitIsAShare(inv: seq<InverterReading>, g: seq<bool>, limitPct: real, pct: real)
    requires |inv| == |g|
    ensures OthersKw(inv, g, Split(g, limitPct, pct)) == FreeKw(inv, g, |inv|) * pct / 100.0
  {
    LimitedIsAShareOfFree(inv, g, Split(g, limitPct, pct), pct, |inv|);
  }

  // The plant stays at its target although some inverters ignore it: what they produce and what the others may
  // is at most the target, or what cannot be helped, and meets it exactly unless a clamp binds.
  lemma OthersMakeUp(site: Site, inv: seq<InverterReading>, g: seq<bool>, limitPct: real)
    returns (target: real, stuck: real, free: real, limited: real)
    requires |inv| == |g| && true in g && 0.0 <= limitPct < 100.0 && FreeKw(inv, g, |inv|) > 0.0
    ensures target == TargetKw(site, limitPct) && stuck == StuckKw(inv, g, |inv|) && free == FreeKw(inv, g, |inv|)
    ensures limited == OthersKw(inv, g, Limits(site, inv, g, limitPct))
    ensures stuck + limited <= Max(target, stuck)
    ensures 0.0 <= (target - stuck) / free * 100.0 <= limitPct ==> stuck + limited == target
  {
    target, stuck, free := TargetKw(site, limitPct), StuckKw(inv, g, |inv|), FreeKw(inv, g, |inv|);
    var pct := FreePct(target, stuck, free, limitPct);
    SplitIsAShare(inv, g, limitPct, pct);
    limited := free * pct / 100.0;
    FreeShare(target, stuck, free, limitPct, limited);
  }
}
