// Running totals by day and year (crates/control/src/accounting.rs), and the daily limit built on them
// (crates/control/src/controller.rs:543-554).
module Accounts {
  import opened Basics
  import opened Sites

  datatype Clock = Clock(t: real, day: int, year: int)

  datatype Totals = Totals(day: int, year: int, dimmedS: real, producedKwh: real, curtailedKwh: real)

  datatype Books = Books(totals: Totals, lastT: Option<real>)

  // A new day or year starts at zero.
  function Rolled(t: Totals, clock: Clock): Totals {
    var t := if t.year != clock.year then t.(year := clock.year, producedKwh := 0.0, curtailedKwh := 0.0) else t;
    if t.day != clock.day then t.(day := clock.day, dimmedS := 0.0) else t
  }

  function Advanced(b: Books, clock: Clock, dimmed: bool, pvKw: Option<real>, curtailedKw: real): Books {
    var t := Rolled(b.totals, clock);
    var dt := Gap(b.lastT, clock.t);
    Books(t.(dimmedS := if dimmed then t.dimmedS + dt else t.dimmedS,
             producedKwh := t.producedKwh + Max(pvKw.UnwrapOr(0.0), 0.0) * dt / 3600.0,
             curtailedKwh := t.curtailedKwh + Max(curtailedKw, 0.0) * dt / 3600.0),
          Some(clock.t))
  }

  class Accounting {
    var totals: Totals
    var lastT: Option<real>

    ghost function View(): Books
      reads this
    {
      Books(totals, lastT)
    }

    constructor Restore(totals: Totals)
      ensures View() == Books(totals, None)
    {
      this.totals, lastT := totals, None;
    }

    method Roll(clock: Clock)
      modifies this`totals
      ensures View() == old(View()).(totals := Rolled(old(totals), clock))
    {
      if totals.year != clock.year {
        totals := totals.(year := clock.year, producedKwh := 0.0, curtailedKwh := 0.0);
      }
      if totals.day != clock.day {
        totals := totals.(day := clock.day, dimmedS := 0.0);
      }
    }

    method Advance(clock: Clock, dimmed: bool, pvKw: Option<real>, curtailedKw: real)
      modifies this
      ensures View() == Advanced(old(View()), clock, dimmed, pvKw, curtailedKw)
    {
      Roll(clock);
      var dt := Gap(lastT, clock.t);
      lastT := Some(clock.t);
      if dimmed {
        totals := totals.(dimmedS := totals.dimmedS + dt);
      }
      totals := totals.(producedKwh := totals.producedKwh + Max(pvKw.UnwrapOr(0.0), 0.0) * dt / 3600.0,
                        curtailedKwh := totals.curtailedKwh + Max(curtailedKw, 0.0) * dt / 3600.0);
    }
  }

  // ---------------------------------------------------------------- the daily limit

  // The contract's time for the day is used up. An emergency does not ask.
  predicate UsedUp(rule: Rule, emergency: bool, t: Totals) {
    && rule.Contract? && !emergency && rule.maxMinutesPerDay > 0.0 && t.dimmedS >= rule.maxMinutesPerDay * 60.0
  }

  predicate Dims(rule: Rule, cmd: Commands, t: Totals) {
    cmd.dim && !UsedUp(rule, cmd.emergency, t)
  }

  // What one cycle brings to the books.
  datatype Entry = Entry(clock: Clock, cmd: Commands, pvKw: Option<real>, curtailedKw: real)

  function Cycle(rule: Rule, b: Books, e: Entry): Books {
    Advanced(b, e.clock, Dims(rule, e.cmd, Rolled(b.totals, e.clock)), e.pvKw, e.curtailedKw)
  }

  function Run(rule: Rule, b: Books, entries: seq<Entry>): Books {
    if entries == [] then b else Cycle(rule, Run(rule, b, entries[..|entries| - 1]), entries[|entries| - 1])
  }

  ghost predicate WithinLimit(rule: Rule, t: Totals) {
    rule.Contract? && rule.maxMinutesPerDay > 0.0 ==> t.dimmedS <= rule.maxMinutesPerDay * 60.0 + MAX_STEP_S
  }

  lemma AdvanceKeepsTheLimit(policy: Policy, b: Books, clock: Clock, cmd: Commands, pvKw: Option<real>,
                             curtailedKw: real)
    requires policy.Valid() && !cmd.emergency && WithinLimit(policy.consumption, b.totals)
    ensures var t := Rolled(b.totals, clock);
      WithinLimit(policy.consumption,
                  Advanced(b.(totals := t), clock, Dims(policy.consumption, cmd, t), pvKw, curtailedKw).totals)
  {
  }

  // Without emergencies the counter of the day never passes what the contract allows, but for the last gap; whatever
  // the clock does, across midnights, and from any restored totals that keep to it.
  lemma {:induction false} DailyLimitHolds(policy: Policy, b: Books, entries: seq<Entry>)
    requires policy.Valid() && WithinLimit(policy.consumption, b.totals)
    requires forall e :: e in entries ==> !e.cmd.emergency
    ensures WithinLimit(policy.consumption, Run(policy.consumption, b, entries).totals)
    decreases |entries|
  {
    if entries != [] {
      var init, e := entries[..|entries| - 1], entries[|entries| - 1];
      assert e in entries && forall d :: d in init ==> d in entries;
      DailyLimitHolds(policy, b, init);
    }
  }

  // An emergency dims past the limit: a day of 1 minute, already used up, one more gap of 10 s.
  lemma EmergencyExceedsTheLimit()
    ensures var rule := Contract(0.0, 1.0);
      var used := Books(Totals(1, 2026, 70.0, 0.0, 0.0), Some(0.0));
      var e := Entry(Clock(10.0, 1, 2026), Commands(true, 100.0, true, None), None, 0.0);
      WithinLimit(rule, used.totals) && !WithinLimit(rule, Cycle(rule, used, e).totals)
  {
  }

  // The dimmed gaps, each cut at 10 s.
  function DimmedGaps(rule: Rule, b: Books, entries: seq<Entry>): real {
    if entries == [] then 0.0
    else
      var init, e := entries[..|entries| - 1], entries[|entries| - 1];
      var before := Run(rule, b, init);
      DimmedGaps(rule, b, init)
      + (if Dims(rule, e.cmd, Rolled(before.totals, e.clock)) then Gap(before.lastT, e.clock.t) else 0.0)
  }

  ghost predicate OneDay(b: Books, entries: seq<Entry>) {
    forall k :: 0 <= k < |entries| ==> entries[k].clock.day == b.totals.day
  }

  lemma {:induction false} CounterCountsDimmedGaps(rule: Rule, b: Books, entries: seq<Entry>)
    requires OneDay(b, entries)
    ensures var after := Run(rule, b, entries);
      && after.totals.day == b.totals.day
      && after.lastT == (if entries == [] then b.lastT else Some(entries[|entries| - 1].clock.t))
      && after.totals.dimmedS == b.totals.dimmedS + DimmedGaps(rule, b, entries)
    decreases |entries|
  {
    if entries != [] {
      CounterCountsDimmedGaps(rule, b, entries[..|entries| - 1]);
    }
  }

  // A day number that goes back forgets what was counted: the day starts again at nothing.
  lemma GoingBackForgets(t: Totals, other: Clock, again: Clock)
    requires other.day != t.day && again.day == t.day
    ensures Rolled(Rolled(t, other), again).dimmedS == 0.0
  {
  }

  // So a day can be dimmed past the limit: a day of 1 minute, already used up, is left and comes again.
  lemma GoingBackDimsAgain(rule: Rule, used: Books, away: Entry, again: Entry)
    requires rule == Contract(0.0, 1.0) && used == Books(Totals(1, 2026, 65.0, 0.0, 0.0), Some(0.0))
    requires away == Entry(Clock(10.0, 2, 2026), Commands(false, 100.0, false, None), None, 0.0)
    requires again == Entry(Clock(20.0, 1, 2026), Commands(true, 100.0, false, None), None, 0.0)
    ensures UsedUp(rule, false, used.totals) && WithinLimit(rule, used.totals)
    ensures DimmedGaps(rule, used, [away]) == 0.0 && DimmedGaps(rule, used, [away, again]) == 10.0
    ensures used.totals.dimmedS + DimmedGaps(rule, used, [away, again]) > 60.0 + MAX_STEP_S
  {
    assert [away][..0] == [] && [away, again][..1] == [away];
    assert Run(rule, used, []) == used;
    assert DimmedGaps(rule, used, []) == 0.0;
    GoingBackForgets(used.totals, away.clock, again.clock);
  }

  // ---------------------------------------------------------------- day by day

  // A cycle as the counter of the day sees it: its day, the time since the last one, and whether it dims.
  datatype Slot = Slot(day: int, gapS: real, dims: bool)

  datatype Counter = Counter(day: int, dimmedS: real)

  function CounterOf(t: Totals): Counter {
    Counter(t.day, t.dimmedS)
  }

  function Counted(c: Counter, s: Slot): Counter {
    Counter(s.day, (if c.day == s.day then c.dimmedS else 0.0) + (if s.dims then s.gapS else 0.0))
  }

  function CountedAll(c: Counter, slots: seq<Slot>): Counter {
    if slots == [] then c else Counted(CountedAll(c, slots[..|slots| - 1]), slots[|slots| - 1])
  }

  // The counter before and after every slot.
  ghost predicate Follow(counters: seq<Counter>, slots: seq<Slot>) {
    |counters| == |slots| + 1 && forall k: nat :: k < |slots| ==> counters[k + 1] == Counted(counters[k], slots[k])
  }

  lemma {:induction false} CountersAre(counters: seq<Counter>, slots: seq<Slot>, n: nat)
    requires Follow(counters, slots) && n <= |slots|
    ensures counters[n] == CountedAll(counters[0], slots[..n])
  {
    if n > 0 {
      CountersAre(counters, slots, n - 1);
      assert slots[..n][..n - 1] == slots[..n - 1];
      assert counters[n - 1 + 1] == Counted(counters[n - 1], slots[n - 1]);
    }
  }

  // How long a day was dimmed.
  function DimmedOnS(slots: seq<Slot>, day: int): real {
    if slots == [] then 0.0
    else
      var s := slots[|slots| - 1];
      DimmedOnS(slots[..|slots| - 1], day) + (if s.dims && s.day == day then s.gapS else 0.0)
  }

  // What was restored counts for its day.
  function RestoredS(t: Totals, day: int): real {
    if day == t.day then t.dimmedS else 0.0
  }

  // The days of the counter, before and after every slot.
  function Days(day: int, slots: seq<Slot>): seq<int> {
    [day] + seq(|slots|, k requires 0 <= k < |slots| => slots[k].day)
  }

  // No day comes back after another.
  ghost predicate NoneReturns(days: seq<int>) {
    forall i, j, k :: 0 <= i < j < k < |days| && days[i] == days[k] ==> days[j] == days[i]
  }

  // The counter is that of the last day, and holds all of it: what was restored for it and what was dimmed since.
  ghost predicate HoldsItsDay(c: Counter, slots: seq<Slot>) {
    var now := CountedAll(c, slots);
    && now.day == (if slots == [] then c.day else slots[|slots| - 1].day)
    && now.dimmedS == (if now.day == c.day then c.dimmedS else 0.0) + DimmedOnS(slots, now.day)
  }

  lemma DaysNext(day: int, init: seq<Slot>, s: Slot)
    ensures Days(day, init + [s]) == Days(day, init) + [s.day]
    ensures NoneReturns(Days(day, init + [s])) ==> NoneReturns(Days(day, init))
  {
    var days, before := Days(day, init + [s]), Days(day, init);
    assert days == before + [s.day];
    if NoneReturns(days) {
      forall i, j, k | 0 <= i < j < k < |before| && before[i] == before[k]
        ensures before[j] == before[i]
      {
        assert days[i] == before[i] && days[j] == before[j] && days[k] == before[k];
      }
    }
  }

  lemma {:induction false} CounterHoldsItsDay(c: Counter, slots: seq<Slot>)
    requires NoneReturns(Days(c.day, slots))
    ensures HoldsItsDay(c, slots)
    decreases |slots|
  {
    if slots != [] {
      var init, s := slots[..|slots| - 1], slots[|slots| - 1];
      assert init + [s] == slots;
      DaysNext(c.day, init, s);
      CounterHoldsItsDay(c, init);
      if CountedAll(c, init).day != s.day {
        NewDay(Days(c.day, init), s.day);
        NotDimmedYet(c.day, init, s.day);
      }
    }
  }

  // A day that follows another one is new.
  lemma NewDay(days: seq<int>, next: int)
    requires days != [] && NoneReturns(days + [next]) && days[|days| - 1] != next
    ensures next !in days
  {
    var all, n := days + [next], |days|;
    forall i | 0 <= i < n
      ensures days[i] != next
    {
      assert all[i] == days[i] && all[n - 1] == days[n - 1] && all[n] == next;
    }
  }

  // A day that has not been has not been dimmed.
  lemma {:induction false} NotDimmedYet(first: int, slots: seq<Slot>, day: int)
    requires day !in Days(first, slots)
    ensures DimmedOnS(slots, day) == 0.0
    decreases |slots|
  {
    if slots != [] {
      var init, s := slots[..|slots| - 1], slots[|slots| - 1];
      assert init + [s] == slots;
      DaysNext(first, init, s);
      assert Days(first, slots)[|slots|] == s.day;
      NotDimmedYet(first, init, day);
    }
  }

  // Any day is all counted when the first m slots are.
  lemma {:induction false} EndOfDay(c: Counter, slots: seq<Slot>, day: int) returns (m: nat)
    requires NoneReturns(Days(c.day, slots))
    ensures m <= |slots|
    ensures var now := CountedAll(c, slots[..m]);
      (if day == c.day then c.dimmedS else 0.0) + DimmedOnS(slots, day) == if now.day == day then now.dimmedS else 0.0
    decreases |slots|
  {
    if slots != [] && slots[|slots| - 1].day != day {
      var init, s := slots[..|slots| - 1], slots[|slots| - 1];
      assert init + [s] == slots;
      DaysNext(c.day, init, s);
      m := EndOfDay(c, init, day);
      assert init[..m] == slots[..m];
    } else {
      m := |slots|;
      assert slots[..m] == slots;
      CounterHoldsItsDay(c, slots);
    }
  }

  // ---------------------------------------------------------------- exactly when

  // Nothing but slot i is dimmed, or what was restored if there is none before the days.
  function Lone(days: seq<int>, i: nat): seq<Slot>
    requires i < |days|
  {
    seq(|days| - 1, p requires 0 <= p < |days| - 1 => Slot(days[p + 1], 1.0, p + 1 == i))
  }

  function LoneStart(days: seq<int>, i: nat): Counter
    requires i < |days|
  {
    Counter(days[0], if i == 0 then 1.0 else 0.0)
  }

  lemma {:induction false} LoneCounts(days: seq<int>, i: nat, n: nat)
    requires i < |days| && n < |days|
    ensures DimmedOnS(Lone(days, i)[..n], days[i]) == if 0 < i <= n then 1.0 else 0.0
  {
    var slots := Lone(days, i);
    if n > 0 {
      LoneCounts(days, i, n - 1);
      assert slots[..n][..n - 1] == slots[..n - 1];
    }
  }

  // After it the counter holds it as long as its day lasts, and nothing from then on.
  lemma {:induction false} LoneIsForgotten(days: seq<int>, i: nat, n: nat)
    requires i <= n < |days|
    ensures var now := CountedAll(LoneStart(days, i), Lone(days, i)[..n]);
      now.day == days[n] && ((forall q :: i <= q <= n ==> days[q] == days[i]) || now.dimmedS == 0.0)
    decreases n
  {
    var slots, c := Lone(days, i), LoneStart(days, i);
    if n > i {
      LoneIsForgotten(days, i, n - 1);
      assert slots[..n][..n - 1] == slots[..n - 1];
    } else if n > 0 {
      assert CountedAll(c, slots[..n]).day == days[n];
    }
  }

  lemma ReturningIsForgotten(days: seq<int>, i: nat, j: nat, k: nat)
    requires i < j < k < |days| && days[i] == days[k] != days[j]
    ensures !HoldsItsDay(LoneStart(days, i), Lone(days, i)[..k])
  {
    LoneCounts(days, i, k);
    LoneIsForgotten(days, i, k);
  }

  // Whatever is dimmed and restored, the counter holds its day throughout.
  ghost predicate AlwaysHolds(days: seq<int>) {
    forall c: Counter, slots: seq<Slot>, n: nat ::
      Days(c.day, slots) == days && n <= |slots| ==> HoldsItsDay(c, slots[..n])
  }

  // That is so exactly as long as no day comes back after another.
  lemma CounterHoldsItsDayExactly(days: seq<int>)
    requires days != []
    ensures AlwaysHolds(days) <==> NoneReturns(days)
  {
    if NoneReturns(days) {
      forall c: Counter, slots: seq<Slot>, n: nat | Days(c.day, slots) == days && n <= |slots|
        ensures HoldsItsDay(c, slots[..n])
      {
        NoneReturnsBefore(days, Days(c.day, slots[..n]));
        CounterHoldsItsDay(c, slots[..n]);
      }
    }
    if i, j, k :| 0 <= i < j < k < |days| && days[i] == days[k] && days[j] != days[i] {
      ReturningIsForgotten(days, i, j, k);
      assert Days(LoneStart(days, i).day, Lone(days, i)) == days;
    }
  }

  lemma NoneReturnsBefore(days: seq<int>, before: seq<int>)
    requires NoneReturns(days) && before <= days
    ensures NoneReturns(before)
  {
    forall i, j, k | 0 <= i < j < k < |before| && before[i] == before[k]
      ensures before[j] == before[i]
    {
      assert days[i] == before[i] && days[j] == before[j] && days[k] == before[k];
    }
  }
}
