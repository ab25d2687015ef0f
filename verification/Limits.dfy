/**
 * One limit formula, three ways to reach it: /sync's single lookup, the dashboard's batch over all
 * users, and the usage history's day-by-day loop.
 */
module Limits {
  import opened Basics
  import opened AllowedHours
  import opened HubLedger
  import opened PolicyPush
  import opened PushProperties
  import opened RevisionGate
  import opened SpendQueries

  datatype Grant = Grant(user: UserId, day: DayNo, seconds: int)

  datatype UserDay = UserDay(user: UserId, day: DayNo)

  /** The per-date exceptions: grants add up, an override replaces, a release lifts the chore gate. */
  datatype Exceptions = Exceptions(grants: seq<Grant>, overrides: map<UserDay, int>, releases: set<UserDay>,
                                   hoursOverrides: map<UserDay, seq<HourRecord>>)

  /** `limits` is the current policy's day-keyed list, Monday first; None while the user has no policy. */
  datatype User = User(id: UserId, mode: AccountingMode, gatedWeekdays: set<Weekday>, limits: Option<seq<int>>) {
    predicate Valid() {
      limits.Some? ==> |limits.value| == 7
    }
  }

  function BaseDailyLimit(limits: seq<int>, day: DayNo): int
    requires |limits| == 7
  {
    limits[WeekdayOf(day) - 1]
  }

  predicate IsGatedWeekday(user: User, day: DayNo) {
    WeekdayOf(day) in user.gatedWeekdays
  }

  function CombineLimit(base: int, grants: int, gated: bool, released: bool): int {
    if gated && !released then 0 else Max(0, base + grants)
  }

  // ---------- single-user queries ----------

  /** COALESCE(SUM(seconds), 0) for one user and day. */
  function GrantsTotal(grants: seq<Grant>, user: UserId, day: DayNo): int {
    if grants == [] then 0
    else
      var g := grants[|grants| - 1];
      GrantsTotal(grants[..|grants| - 1], user, day) + if g.user == user && g.day == day then g.seconds else 0
  }

  function EffectiveDailyLimit(x: Exceptions, limits: seq<int>, user: User, day: DayNo): int
    requires |limits| == 7
  {
    var key := UserDay(user.id, day);
    var base := if key in x.overrides then x.overrides[key] else BaseDailyLimit(limits, day);
    var gated := IsGatedWeekday(user, day);
    var released := if gated then key in x.releases else false;
    CombineLimit(base, GrantsTotal(x.grants, user.id, day), gated, released)
  }

  // ---------- grouped queries ----------

  function AddTo<K>(m: map<K, int>, k: K, seconds: int): map<K, int> {
    m[k := Get(m, k, 0) + seconds]
  }

  function GrantsTotalsBatch(grants: seq<Grant>, users: set<UserId>, day: DayNo): map<UserId, int> {
    if grants == [] then map[]
    else
      var g := grants[|grants| - 1];
      var before := GrantsTotalsBatch(grants[..|grants| - 1], users, day);
      if g.user in users && g.day == day then AddTo(before, g.user, g.seconds) else before
  }

  function GrantsTotalsHistory(grants: seq<Grant>, user: UserId, start: DayNo, end: DayNo): map<DayNo, int> {
    if grants == [] then map[]
    else
      var g := grants[|grants| - 1];
      var before := GrantsTotalsHistory(grants[..|grants| - 1], user, start, end);
      if g.user == user && start <= g.day <= end then AddTo(before, g.day, g.seconds) else before
  }

  function DayRange(start: DayNo, end: DayNo): (r: set<DayNo>)
    ensures forall d :: d in r <==> DayWithin(start, d, end)
    decreases end - start
  {
    if end < start then {} else DayRange(start, end - 1) + {end}
  }

  function DayOverridesBatch(overrides: map<UserDay, int>, users: set<UserId>, day: DayNo): map<UserId, int> {
    map u | u in users && UserDay(u, day) in overrides :: overrides[UserDay(u, day)]
  }

  function DayOverridesHistory(overrides: map<UserDay, int>, user: UserId, start: DayNo, end: DayNo): map<DayNo, int> {
    map d | d in DayRange(start, end) && UserDay(user, d) in overrides :: overrides[UserDay(user, d)]
  }

  function DayHourOverridesHistory(overrides: map<UserDay, seq<HourRecord>>, user: UserId, start: DayNo, end: DayNo)
    : map<DayNo, seq<HourRecord>>
  {
    map d | d in DayRange(start, end) && UserDay(user, d) in overrides :: overrides[UserDay(user, d)]
  }

  function GateReleasesBatch(releases: set<UserDay>, users: set<UserId>, day: DayNo): set<UserId> {
    set u | u in users && UserDay(u, day) in releases
  }

  function GateReleasesHistory(releases: set<UserDay>, user: UserId, start: DayNo, end: DayNo): set<DayNo> {
    set d | d in DayRange(start, end) && UserDay(user, d) in releases
  }

  lemma {:induction false} GrantsBatchMatchesSingle(grants: seq<Grant>, users: set<UserId>, day: DayNo, user: UserId)
    requires user in users
    ensures Get(GrantsTotalsBatch(grants, users, day), user, 0) == GrantsTotal(grants, user, day)
  {
    if grants != [] {
      GrantsBatchMatchesSingle(grants[..|grants| - 1], users, day, user);
    }
  }

  lemma {:induction false} GrantsHistoryMatchesSingle(grants: seq<Grant>, user: UserId, start: DayNo, end: DayNo, day: DayNo)
    requires start <= day <= end
    ensures Get(GrantsTotalsHistory(grants, user, start, end), day, 0) == GrantsTotal(grants, user, day)
  {
    if grants != [] {
      GrantsHistoryMatchesSingle(grants[..|grants| - 1], user, start, end, day);
    }
  }

  // ---------- what the formula means ----------

  /** The gate is closed: the weekday is gated and the date is not released. */
  predicate GateClosed(x: Exceptions, user: User, day: DayNo) {
    WeekdayOf(day) in user.gatedWeekdays && UserDay(user.id, day) !in x.releases
  }

  /** The hub's daily limit of an ordinary day is the one the device itself looks up for that weekday after a push, by
      its place among the allowed days. */
  lemma OrdinaryDayIsTheDevicesOwn(x: Exceptions, limits: seq<int>, allowed: seq<Weekday>, user: User, day: DayNo)
    requires |limits| == 7 && (forall i | 0 <= i < 7 :: 0 <= limits[i]) && WeekdayOf(day) in allowed
    requires !GateClosed(x, user, day) && UserDay(user.id, day) !in x.overrides && GrantsTotal(x.grants, user.id, day) == 0
    ensures EffectiveDailyLimit(x, limits, user, day) == LimitOn(allowed, Project(limits, allowed), WeekdayOf(day))
  {
    ProjectionLooksUpOwnLimit(limits, allowed, WeekdayOf(day));
  }

  /** The limit of any day: nothing behind a closed gate; else the override, or what the device would look up, plus the
      day's grants, and never below zero. */
  lemma LimitOfAnyDay(x: Exceptions, limits: seq<int>, user: User, day: DayNo)
    requires |limits| == 7
    ensures var key, limit := UserDay(user.id, day), EffectiveDailyLimit(x, limits, user, day);
            var base := if key in x.overrides then x.overrides[key]
                        else LimitOn(ALL_WEEKDAYS, Project(limits, ALL_WEEKDAYS), WeekdayOf(day));
            && (GateClosed(x, user, day) ==> limit == 0)
            && (!GateClosed(x, user, day) ==> limit == Max(0, base + GrantsTotal(x.grants, user.id, day)))
  {
    var weekday := WeekdayOf(day);
    assert ALL_WEEKDAYS[weekday - 1] == weekday;
    ProjectionLooksUpOwnLimit(limits, ALL_WEEKDAYS, weekday);
  }

  /** One more grant: nothing on another user or day or while the gate is closed; otherwise the limit moves by the
      grant's seconds, except that it never goes below zero. */
  lemma GrantMovesTheLimit(x: Exceptions, g: Grant, limits: seq<int>, user: User, day: DayNo)
    requires |limits| == 7
    ensures var before := EffectiveDailyLimit(x, limits, user, day);
            var after := EffectiveDailyLimit(x.(grants := x.grants + [g]), limits, user, day);
            && 0 <= before && 0 <= after
            && (g.user != user.id || g.day != day ==> after == before)
            && (GateClosed(x, user, day) ==> after == before == 0)
            && (g.user == user.id && g.day == day && before > 0 ==> after == Max(0, before + g.seconds))
  {
    assert (x.grants + [g])[..|x.grants|] == x.grants;
  }

  /** With an override for the date the policy's own limits no longer matter. */
  lemma OverrideReplacesBase(x: Exceptions, limits: seq<int>, others: seq<int>, user: User, day: DayNo)
    requires |limits| == 7 && |others| == 7 && UserDay(user.id, day) in x.overrides
    ensures EffectiveDailyLimit(x, limits, user, day) == EffectiveDailyLimit(x, others, user, day)
  {
  }

  /** Releasing a gated day gives exactly the limit of the same user without any gate, and un-releasing it gives 0. */
  lemma ReleaseLiftsTheGate(x: Exceptions, limits: seq<int>, user: User, day: DayNo)
    requires |limits| == 7 && WeekdayOf(day) in user.gatedWeekdays
    ensures var key := UserDay(user.id, day);
            && EffectiveDailyLimit(x.(releases := x.releases + {key}), limits, user, day)
               == EffectiveDailyLimit(x, limits, user.(gatedWeekdays := {}), day)
            && EffectiveDailyLimit(x.(releases := x.releases - {key}), limits, user, day) == 0
  {
  }

  // ---------- the dashboard ----------

  function Ids(users: seq<User>): (r: set<UserId>)
    ensures forall id :: id in r <==> exists i :: 0 <= i < |users| && users[i].id == id
  {
    set i | 0 <= i < |users| :: users[i].id
  }

  function IdsOf(users: seq<User>, mode: AccountingMode): (r: set<UserId>)
    ensures forall id :: id in r <==> exists i :: 0 <= i < |users| && users[i].mode == mode && users[i].id == id
  {
    set i | 0 <= i < |users| && users[i].mode == mode :: users[i].id
  }

  ghost predicate DistinctUsers(users: seq<User>) {
    forall i, j | 0 <= i < j < |users| :: users[i].id != users[j].id
  }

  /** `spent_by_user`: one batch for each accounting mode, the second updating the first. */
  ghost function SpentByUser(t: Tables, users: seq<User>, day: DayNo): map<UserId, int> {
    WallclockBatch(t, IdsOf(users, Wallclock), day) + ParallelBatch(t, IdsOf(users, Parallel), day)
  }

  lemma SpentByUserMatchesSingle(t: Tables, users: seq<User>, day: DayNo, i: nat)
    requires DistinctUsers(users) && i < |users|
    ensures Get(SpentByUser(t, users, day), users[i].id, 0) == GlobalSpent(t, users[i].id, day, users[i].mode)
  {
    hide GlobalWallclock, GlobalParallel, WallclockBatch, ParallelBatch;
    BatchesStayInside(t, IdsOf(users, Wallclock), IdsOf(users, Parallel), day);
    BatchMatchesSingle(t, IdsOf(users, users[i].mode), day, users[i].id);
    assert users[i].id !in IdsOf(users, if users[i].mode == Wallclock then Parallel else Wallclock);
  }

  lemma BatchesStayInside(t: Tables, a: set<UserId>, b: set<UserId>, day: DayNo)
    ensures WallclockBatch(t, a, day).Keys <= a && ParallelBatch(t, b, day).Keys <= b
  {
    hide WallclockBatch, ParallelBatch;
    forall u | u in WallclockBatch(t, a, day) ensures u in a { BatchStaysInside(t, a, day, u); }
    forall u | u in ParallelBatch(t, b, day) ensures u in b { BatchStaysInside(t, b, day, u); }
  }

  /** What the database answers for the dashboard's queries. */
  datatype Answers = Answers(spent: map<UserId, int>, grants: map<UserId, int>, overrides: map<UserId, int>,
                             released: set<UserId>)

  ghost function DashboardAnswers(t: Tables, x: Exceptions, users: seq<User>, day: DayNo): Answers {
    Answers(SpentByUser(t, users, day), GrantsTotalsBatch(x.grants, Ids(users), day),
            DayOverridesBatch(x.overrides, Ids(users), day), GateReleasesBatch(x.releases, Ids(users), day))
  }

  datatype SummaryRow = SummaryRow(user: User, spent: int, limit: int, gatedToday: bool, released: bool)

  /** The row the single-user queries would give. */
  ghost predicate RowIsRight(t: Tables, x: Exceptions, user: User, day: DayNo, row: SummaryRow)
    requires user.Valid()
  {
    var released := UserDay(user.id, day) in x.releases;
    && row.user == user && row.released == released && row.gatedToday == (IsGatedWeekday(user, day) && !released)
    && (user.limits.None? ==> row.spent == 0 && row.limit == 0)
    && (user.limits.Some? ==>
          && row.spent == GlobalSpent(t, user.id, day, user.mode)
          && row.limit == EffectiveDailyLimit(x, user.limits.value, user, day))
  }

  function SummaryOf(user: User, a: Answers, day: DayNo): SummaryRow
    requires user.Valid()
  {
    var gated := IsGatedWeekday(user, day);
    var released := user.id in a.released;
    if user.limits.None? then
      SummaryRow(user, 0, 0, gated && !released, released)
    else
      var base := Get(a.overrides, user.id, BaseDailyLimit(user.limits.value, day));
      SummaryRow(user, Get(a.spent, user.id, 0), CombineLimit(base, Get(a.grants, user.id, 0), gated, released),
                 gated && !released, released)
  }

  lemma SummaryIsRight(t: Tables, x: Exceptions, users: seq<User>, day: DayNo, i: nat)
    requires DistinctUsers(users) && i < |users| && users[i].Valid()
    ensures RowIsRight(t, x, users[i], day, SummaryOf(users[i], DashboardAnswers(t, x, users, day), day))
  {
    hide GlobalSpent, SpentByUser, GrantsTotalsBatch, GrantsTotal;
    SpentByUserMatchesSingle(t, users, day, i);
    GrantsBatchMatchesSingle(x.grants, Ids(users), day, users[i].id);
  }

  /** `compute_user_summaries`: one row for each user, each as the single-user queries would have it. */
  method ComputeUserSummaries(users: seq<User>, a: Answers, day: DayNo, ghost t: Tables, ghost x: Exceptions)
    returns (rows: seq<SummaryRow>)
    requires DistinctUsers(users) && (forall u | u in users :: u.Valid())
    requires a == DashboardAnswers(t, x, users, day)
    ensures |rows| == |users| && forall i | 0 <= i < |rows| :: RowIsRight(t, x, users[i], day, rows[i])
  {
    hide RowIsRight, DashboardAnswers, IsGatedWeekday;
    rows := [];
    for i := 0 to |users|
      invariant |rows| == i && forall j | 0 <= j < i :: RowIsRight(t, x, users[j], day, rows[j])
    {
      var user := users[i];
      SummaryIsRight(t, x, users, day, i);
      var gated := IsGatedWeekday(user, day);
      var released := user.id in a.released;
      if user.limits.None? {
        rows := rows + [SummaryRow(user, 0, 0, gated && !released, released)];
        continue;
      }
      var spent := if user.id in a.spent then a.spent[user.id] else 0;
      var base := if user.id in a.overrides then a.overrides[user.id] else BaseDailyLimit(user.limits.value, day);
      var grants := if user.id in a.grants then a.grants[user.id] else 0;
      var limitToday := CombineLimit(base, grants, gated, released);
      rows := rows + [SummaryRow(user, spent, limitToday, gated && !released, released)];
    }
  }

  // ---------- the usage history ----------

  datatype HistoryAnswers = HistoryAnswers(spent: map<DayNo, int>, grants: map<DayNo, int>, overrides: map<DayNo, int>,
                                           released: set<DayNo>, hours: map<DayNo, seq<HourRecord>>)

  ghost function QueryHistory(t: Tables, x: Exceptions, user: UserId, start: DayNo, end: DayNo): HistoryAnswers {
    HistoryAnswers(WallclockHistory(t, user, start, end), GrantsTotalsHistory(x.grants, user, start, end),
                   DayOverridesHistory(x.overrides, user, start, end), GateReleasesHistory(x.releases, user, start, end),
                   DayHourOverridesHistory(x.hoursOverrides, user, start, end))
  }

  datatype DayUsage = DayUsage(day: DayNo, spent: int, limit: int, grants: int, overridden: bool, gated: bool,
                               released: bool, hoursOverridden: bool, hours: Option<seq<HourRecord>>)

  /** A policy's limits, or all zero while there is none. */
  function LimitsOrZero(user: User): (r: seq<int>)
    requires user.Valid()
    ensures |r| == 7
  {
    if user.limits.Some? then user.limits.value else seq(7, i => 0)
  }

  /** The day the single-user queries would give; the spend is wall-clock whatever the user's mode. */
  ghost predicate DayIsRight(t: Tables, x: Exceptions, user: User, u: DayUsage)
    requires user.Valid()
  {
    && u.limit == EffectiveDailyLimit(x, LimitsOrZero(user), user, u.day)
    && u.spent == GlobalWallclock(t, user.id, u.day)
    && u.grants == GrantsTotal(x.grants, user.id, u.day)
    && u.overridden == (UserDay(user.id, u.day) in x.overrides)
    && u.gated == IsGatedWeekday(user, u.day) && u.released == (UserDay(user.id, u.day) in x.releases)
    && u.hoursOverridden == u.hours.Some? == (UserDay(user.id, u.day) in x.hoursOverrides)
    && (u.hours.Some? ==> u.hours.value == x.hoursOverrides[UserDay(user.id, u.day)])
  }

  function DayOf(user: User, a: HistoryAnswers, day: DayNo): DayUsage
    requires user.Valid()
  {
    var base := Get(a.overrides, day, BaseDailyLimit(LimitsOrZero(user), day));
    var grants := Get(a.grants, day, 0);
    var gated := IsGatedWeekday(user, day);
    var released := day in a.released;
    DayUsage(day, Get(a.spent, day, 0), CombineLimit(base, grants, gated, released), grants, day in a.overrides, gated, released,
             day in a.hours, if day in a.hours then Some(a.hours[day]) else None)
  }

  lemma DayOfIsRight(t: Tables, x: Exceptions, user: User, start: DayNo, end: DayNo, day: DayNo)
    requires user.Valid() && start <= day <= end
    ensures var u := DayOf(user, QueryHistory(t, x, user.id, start, end), day);
            u.day == day && DayIsRight(t, x, user, u)
  {
    hide GlobalWallclock, WallclockHistory, GrantsTotalsHistory, GrantsTotal;
    assert DayWithin(start, day, end);
    HistoryMatchesSingle(t, user.id, start, end, day);
    GrantsHistoryMatchesSingle(x.grants, user.id, start, end, day);
  }

  /** `compute_usage_history`: consecutive days ending at `endDay`, each as the single-day queries would have it. */
  method ComputeUsageHistory(user: User, numDays: nat, endDay: DayNo, a: HistoryAnswers, ghost t: Tables, ghost x: Exceptions)
    returns (days: seq<DayUsage>)
    requires user.Valid() && a == QueryHistory(t, x, user.id, endDay - (numDays - 1), endDay)
    ensures |days| == numDays
    ensures forall i | 0 <= i < numDays :: days[i].day == endDay - (numDays - 1) + i && DayIsRight(t, x, user, days[i])
  {
    hide DayIsRight, QueryHistory, IsGatedWeekday;
    var startDay := endDay - (numDays - 1);
    days := [];
    for offset := 0 to numDays
      invariant |days| == offset
      invariant forall i | 0 <= i < offset :: days[i].day == startDay + i && DayIsRight(t, x, user, days[i])
    {
      var day := startDay + offset;
      DayOfIsRight(t, x, user, startDay, endDay, day);
      var grants := if day in a.grants then a.grants[day] else 0;
      var overridden := day in a.overrides;
      var base := if overridden then a.overrides[day]
                  else if user.limits.Some? then BaseDailyLimit(user.limits.value, day) else 0;
      var gated := IsGatedWeekday(user, day);
      var released := day in a.released;
      var limit := CombineLimit(base, grants, gated, released);
      var spent := if day in a.spent then a.spent[day] else 0;
      var hours := if day in a.hours then Some(a.hours[day]) else None;
      days := days + [DayUsage(day, spent, limit, grants, overridden, gated, released, day in a.hours, hours)];
    }
  }

  // ---------- the three paths ----------

  /** For a user with a policy, the dashboard row, the last day of any history and /sync's own lookup give
      the same limit. */
  lemma ThreeLimitPathsAgree(t: Tables, x: Exceptions, users: seq<User>, i: nat, today: DayNo, numDays: nat)
    requires DistinctUsers(users) && i < |users| && users[i].Valid() && users[i].limits.Some? && numDays >= 1
    ensures var single := EffectiveDailyLimit(x, users[i].limits.value, users[i], today);
            && SummaryOf(users[i], DashboardAnswers(t, x, users, today), today).limit == single
            && DayOf(users[i], QueryHistory(t, x, users[i].id, today - (numDays - 1), today), today).limit == single
  {
    hide SummaryOf, DayOf, DashboardAnswers, QueryHistory, GlobalSpent, GlobalWallclock, EffectiveDailyLimit, GrantsTotal,
         IsGatedWeekday;
    SummaryIsRight(t, x, users, today, i);
    DayOfIsRight(t, x, users[i], today - (numDays - 1), today, today);
  }

  /** Without a policy the dashboard says 0 and the history applies the exceptions to a base of 0; they agree
      exactly when the day is still gated, or override and grants leave nothing. */
  lemma WithoutPolicyPathsAgreeIff(t: Tables, x: Exceptions, users: seq<User>, i: nat, today: DayNo, numDays: nat)
    requires DistinctUsers(users) && i < |users| && users[i].limits.None? && numDays >= 1
    ensures var key := UserDay(users[i].id, today);
            SummaryOf(users[i], DashboardAnswers(t, x, users, today), today).limit
              == DayOf(users[i], QueryHistory(t, x, users[i].id, today - (numDays - 1), today), today).limit
            <==> GateClosed(x, users[i], today)
                 || Get(x.overrides, key, 0) + GrantsTotal(x.grants, users[i].id, today) <= 0
  {
    hide SummaryOf, DayOf, DashboardAnswers, QueryHistory, GlobalSpent, GlobalWallclock, GrantsTotal;
    SummaryIsRight(t, x, users, today, i);
    DayOfIsRight(t, x, users[i], today - (numDays - 1), today, today);
  }
}
