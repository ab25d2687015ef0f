/** `FakeTimekprDaemon`: the executable semantics of timekpr's own accounting. */
module Daemon {
  import opened Basics
  import opened Convergence

  const TK_LIMIT_PER_DAY := 86400

  /** One of the day/week/month counters: in memory, and as last written to disk. */
  datatype Counter = Counter(live: int, saved: int) {
    function Burn(seconds: int): Counter { this.(live := live + seconds) }
    function Save(): Counter { Counter(live, live) }
    function Reload(): Counter { this.(live := saved) }
  }

  datatype DaemonState = DaemonState(
    limit: int,
    saveInterval: int,
    balance: int,
    day: Counter,
    week: Counter,
    month: Counter,
    elapsed: int
  ) {
    function TimeLeft(): int {
      limit - balance
    }

    function Observe(): Observation {
      Observation(balance, day.live, limit)
    }
  }

  function Fresh(limit: int, saveInterval: int): DaemonState {
    DaemonState(limit, saveInterval, 0, Counter(0, 0), Counter(0, 0), Counter(0, 0), 0)
  }

  function Flush(d: DaemonState): DaemonState {
    d.(day := d.day.Save(), week := d.week.Save(), month := d.month.Save(), elapsed := 0)
  }

  function Tick(d: DaemonState, seconds: nat, active: bool): DaemonState {
    var burnt :=
      if active then
        d.(balance := d.balance + seconds,
           day := d.day.Burn(seconds), week := d.week.Burn(seconds), month := d.month.Burn(seconds))
      else d;
    var waited := burnt.(elapsed := burnt.elapsed + seconds);
    if waited.elapsed >= waited.saveInterval then Flush(waited) else waited
  }

  function Clamp(balance: int): int {
    Max(Min(balance, TK_LIMIT_PER_DAY), -TK_LIMIT_PER_DAY)
  }

  /** The `setTimeLeft` call; `Noop` issues no call at all. */
  function SetTimeLeft(d: DaemonState, op: Op, seconds: int): DaemonState {
    match op
    case Noop => d
    case Set =>
      Flush(d.(balance := Clamp(d.limit - seconds),
               day := d.day.Reload(), week := d.week.Reload(), month := d.month.Reload()))
    case Subtract => Flush(d.(balance := Clamp(Min(d.balance, d.limit) + seconds)))
    case Add => Flush(d.(balance := Clamp(Min(d.balance, d.limit) - seconds)))
  }

  /** Local midnight. */
  function RolloverDay(d: DaemonState, newLimit: Option<int>): DaemonState {
    Flush(d.(balance := 0, day := d.day.(live := 0), limit := if newLimit.Some? then newLimit.value else d.limit))
  }

  function RolloverWeek(d: DaemonState): DaemonState {
    Flush(d.(week := d.week.(live := 0)))
  }

  function RolloverMonth(d: DaemonState): DaemonState {
    Flush(d.(month := d.month.(live := 0)))
  }

  // ---------- the flush discipline ----------

  /** Most seconds that can be in memory but not on disk. */
  function MaxUnflushed(saveInterval: int): nat {
    Max(saveInterval - 1, 0)
  }

  /** Unflushed time never exceeds the time since the last flush, which is below the interval. */
  predicate Disciplined(d: DaemonState) {
    && 0 <= d.day.saved <= d.day.live
    && d.day.live - d.day.saved <= d.elapsed <= MaxUnflushed(d.saveInterval)
  }

  /** Local midnight gives the whole limit, new or old, to the new day: using `n` seconds of it leaves the rest, and the
      week and month go on counting. */
  lemma MidnightStartsTheDayOver(d: DaemonState, newLimit: Option<int>, n: nat)
    ensures var used := Tick(RolloverDay(d, newLimit), n, true);
            && used.TimeLeft() == (if newLimit.Some? then newLimit.value else d.limit) - n
            && used.day.live == n && used.week.live == d.week.live + n && used.month.live == d.month.live + n
  {
  }

  /** A new week or month restarts that counter alone; what was unflushed on the others is kept for good. */
  lemma WeekAndMonthStartOver(d: DaemonState)
    ensures var week, month := RolloverWeek(d), RolloverMonth(d);
            && week.TimeLeft() == month.TimeLeft() == d.TimeLeft()
            && week.week == month.month == Counter(0, 0)
            && week.day == month.day == Counter(d.day.live, d.day.live)
            && week.month == Counter(d.month.live, d.month.live) && month.week == Counter(d.week.live, d.week.live)
  {
  }

  /** The daemon as the object the agent talks to. */
  class FakeTimekprDaemon {
    var limitToday: int
    var saveInterval: int
    var balance: int
    var spentDay: int
    var spentWeek: int
    var spentMonth: int
    var savedSpentDay: int
    var savedSpentWeek: int
    var savedSpentMonth: int
    var elapsedSinceSave: int

    ghost function State(): DaemonState
      reads this
    {
      DaemonState(limitToday, saveInterval, balance, Counter(spentDay, savedSpentDay),
                  Counter(spentWeek, savedSpentWeek), Counter(spentMonth, savedSpentMonth), elapsedSinceSave)
    }

    constructor (limit: int, interval: int)
      ensures State() == Fresh(limit, interval)
    {
      limitToday, saveInterval, balance := limit, interval, 0;
      spentDay, spentWeek, spentMonth := 0, 0, 0;
      savedSpentDay, savedSpentWeek, savedSpentMonth := 0, 0, 0;
      elapsedSinceSave := 0;
    }

    method SaveSpent()
      modifies this
      ensures State() == Flush(old(State()))
    {
      savedSpentDay, savedSpentWeek, savedSpentMonth := spentDay, spentWeek, spentMonth;
      elapsedSinceSave := 0;
    }

    /** The source raises on negative `seconds`; callers pass a `nat` here. */
    method Pass(seconds: nat, active: bool)
      modifies this
      ensures State() == Tick(old(State()), seconds, active)
    {
      if active {
        balance := balance + seconds;
        spentDay := spentDay + seconds;
        spentWeek := spentWeek + seconds;
        spentMonth := spentMonth + seconds;
      }
      elapsedSinceSave := elapsedSinceSave + seconds;
      if elapsedSinceSave >= saveInterval {
        SaveSpent();
      }
    }

    method WriteTimeLeft(op: Op, seconds: int)
      requires op != Noop
      modifies this
      ensures State() == SetTimeLeft(old(State()), op, seconds)
    {
      if op == Set {
        balance := limitToday - seconds;
        spentDay, spentWeek, spentMonth := savedSpentDay, savedSpentWeek, savedSpentMonth;
      } else if op == Subtract {
        balance := Min(balance, limitToday) + seconds;
      } else {
        balance := Min(balance, limitToday) - seconds;
      }
      balance := Max(Min(balance, TK_LIMIT_PER_DAY), -TK_LIMIT_PER_DAY);
      SaveSpent();
    }

    method DayChanged(newLimit: Option<int>)
      modifies this
      ensures State() == RolloverDay(old(State()), newLimit)
    {
      balance := 0;
      spentDay := 0;
      if newLimit.Some? {
        limitToday := newLimit.value;
      }
      SaveSpent();
    }

    method WeekChanged()
      modifies this
      ensures State() == RolloverWeek(old(State()))
    {
      spentWeek := 0;
      SaveSpent();
    }

    method MonthChanged()
      modifies this
      ensures State() == RolloverMonth(old(State()))
    {
      spentMonth := 0;
      SaveSpent();
    }
  }
}
