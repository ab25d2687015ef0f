/**
 * Pushing a policy payload to the device: the setters in call order, each skipped when the readback
 * already shows its value, and the couplings between them.
 */
module PolicyPush {
  import opened Basics
  import opened AllowedHours
  import opened AllowedHoursCodec

  type Weekday = d: int | 1 <= d <= 7 witness 1

  const ALL_WEEKDAYS: seq<Weekday> := [1, 2, 3, 4, 5, 6, 7]
  const DEFAULT_WAKE_FROM := "0"
  const DEFAULT_WAKE_TO := "23"
  const SUSPENDWAKE := "suspendwake"

  // ---------- the payload ----------

  datatype DayHours = DayHours(day: Weekday, records: seq<HourRecord>)

  /** The wire model's `daily_limits_s` has length 7, or is absent (empty here). */
  datatype Playtime = Playtime(enabled: bool, overrideEnabled: bool, unaccounted: bool, allowedWeekdays: seq<Weekday>,
                               dailyLimits: seq<int>, activities: seq<(string, string)>) {
    predicate Valid() {
      |dailyLimits| == 0 || |dailyLimits| == 7
    }

    function Limits(): (r: seq<int>)
      requires Valid()
      ensures |r| == 7
    {
      if dailyLimits == [] then seq(7, i => 0) else dailyLimits
    }
  }

  predicate IsDigit(c: char) {
    '0' <= c <= '9'
  }

  /** The wire model's pattern for a wake bound: an hour from 0 to 23 in one or two digits. */
  predicate HourText(text: string) {
    || (|text| == 1 && IsDigit(text[0]))
    || (|text| == 2 && (text[0] == '0' || text[0] == '1') && IsDigit(text[1]))
    || (|text| == 2 && text[0] == '2' && '0' <= text[1] <= '3')
  }

  /** `allowedHours` is a dict in insertion order; "" stands for an absent string field. */
  datatype Policy = Policy(version: int, dailyLimits: seq<int>, allowedHours: seq<DayHours>, allowedWeekdays: seq<Weekday>,
                           weeklyLimit: int, monthlyLimit: int, lockoutType: string, wakeFrom: string, wakeTo: string,
                           trackInactive: bool, hideTray: bool, playtime: Option<Playtime>, note: string) {
    /** What a dict and the wire model guarantee. */
    ghost predicate Valid() {
      && (forall i, j | 0 <= i < j < |allowedHours| :: allowedHours[i].day != allowedHours[j].day)
      && (playtime.Some? ==> playtime.value.Valid())
      && (wakeFrom == "" || HourText(wakeFrom)) && (wakeTo == "" || HourText(wakeTo))
    }

    function Weekdays(): seq<Weekday> {
      if allowedWeekdays == [] then ALL_WEEKDAYS else allowedWeekdays
    }
  }

  // ---------- the device ----------

  datatype Setting = AllowedDays | LimitsForDays | LimitForWeek | LimitForMonth | TrackInactive | HideTray | Lockout
                   | HoursOf(day: Weekday) | PtEnabled | PtOverride | PtUnaccounted | PtAllowedDays | PtLimits
                   | PtActivities

  datatype Value = Days(days: seq<Weekday>) | Limits(limits: seq<int>) | Amount(amount: int) | Flag(flag: bool)
                 | Locking(kind: string, wakeFrom: string, wakeTo: string) | Hours(hours: map<int, HourSlot>)
                 | Activities(activities: seq<(string, string)>)

  /** timekpr's configuration for one user; a key it never held is absent. */
  type Device = map<Setting, Value>

  /** What the readback shows of one setting: the wake window, joined with ';', only for "suspendwake". */
  datatype Shown = Plain(value: Value) | Lock(kind: string, wake: Option<string>)

  type Snapshot = map<Setting, Shown>

  function Show(v: Value): Shown {
    if v.Locking? then Lock(v.kind, if v.kind == SUSPENDWAKE then Some(v.wakeFrom + ";" + v.wakeTo) else None)
    else Plain(v)
  }

  function Readback(d: Device): Snapshot {
    map s | s in d :: Show(d[s])
  }

  /** timekpr accepts or rejects a write by its arguments alone. */
  type Acceptance = (Setting, Value) -> bool

  /** The enforcer itself refuses an empty hours dict. */
  predicate Accepts(accept: Acceptance, s: Setting, v: Value) {
    !(v.Hours? && v.hours == map[]) && accept(s, v)
  }

  // ---------- deciding a step ----------

  /** Python's `text.split(";", 1)`. */
  function SplitOnce(text: string): (r: seq<string>)
    ensures |r| == 1 || |r| == 2
    ensures |r| == 2 ==> r[0] + ";" + r[1] == text && ';' !in r[0]
    ensures ';' !in text <==> r == [text]
  {
    if text == "" then [""]
    else if text[0] == ';' then ["", text[1..]]
    else
      var rest := SplitOnce(text[1..]);
      var r := [[text[0]] + rest[0]] + rest[1..];
      assert text == [text[0]] + text[1..];
      assert |r| == 2 ==> r[0] + ";" + r[1] == [text[0]] + (rest[0] + ";" + rest[1]);
      assert ';' in text <==> ';' in text[1..];
      r
  }

  datatype Comparand = One(value: Value) | Words(words: seq<string>)

  function Target(desired: Value): Comparand {
    if desired.Locking? then
      Words(if desired.kind == SUSPENDWAKE then [desired.kind, desired.wakeFrom, desired.wakeTo] else [desired.kind])
    else
      One(desired)
  }

  /** The readback in the form the target is compared with; None is `_UNKNOWN`. */
  function Current(snapshot: Option<Snapshot>, s: Setting, desired: Value): Option<Comparand> {
    if snapshot.None? || s !in snapshot.value then None
    else
      match snapshot.value[s]
      case Plain(v) => Some(One(v))
      case Lock(kind, wake) =>
        if desired.Locking? && desired.kind == SUSPENDWAKE then
          if wake.None? then None else Some(Words([kind] + SplitOnce(wake.value)))
        else
          Some(Words([kind]))
  }

  predicate Matches(snapshot: Option<Snapshot>, s: Setting, desired: Value) {
    Current(snapshot, s, desired) == Some(Target(desired))
  }

  datatype Step = Step(setting: Setting, desired: Value)

  /** Day-keyed limits, positioned like the weekdays they are sent with. */
  function Project(dailyLimits: seq<int>, weekdays: seq<Weekday>): (r: seq<int>)
    requires |dailyLimits| == 7
    ensures |r| == |weekdays| && forall i | 0 <= i < |r| :: r[i] == dailyLimits[weekdays[i] - 1]
  {
    seq(|weekdays|, i requires 0 <= i < |weekdays| => dailyLimits[weekdays[i] - 1])
  }

  function Or(text: string, default: string): string {
    if text == "" then default else text
  }

  function LockoutValue(p: Policy): Value {
    Locking(Or(p.lockoutType, "lock"), Or(p.wakeFrom, DEFAULT_WAKE_FROM), Or(p.wakeTo, DEFAULT_WAKE_TO))
  }

  function FixedSteps(p: Policy): seq<Step>
    requires |p.dailyLimits| == 7
  {
    [Step(AllowedDays, Days(p.Weekdays())),
     Step(LimitsForDays, Limits(Project(p.dailyLimits, p.Weekdays()))),
     Step(LimitForWeek, Amount(p.weeklyLimit)),
     Step(LimitForMonth, Amount(p.monthlyLimit)),
     Step(TrackInactive, Flag(p.trackInactive)),
     Step(HideTray, Flag(p.hideTray)),
     Step(Lockout, LockoutValue(p))]
  }

  function HourStep(dh: DayHours): Step {
    Step(HoursOf(dh.day), Hours(HoursToDbusPayload(dh.records)))
  }

  function HourSteps(hours: seq<DayHours>): (r: seq<Step>)
    ensures |r| == |hours| && forall i | 0 <= i < |r| :: r[i] == HourStep(hours[i])
  {
    seq(|hours|, i requires 0 <= i < |hours| => HourStep(hours[i]))
  }

  function PtWeekdays(pt: Playtime): seq<Weekday> {
    if pt.allowedWeekdays == [] then ALL_WEEKDAYS else pt.allowedWeekdays
  }

  function PlaytimeSteps(playtime: Option<Playtime>): seq<Step>
    requires playtime.Some? ==> playtime.value.Valid()
  {
    if playtime.None? then []
    else
      var pt := playtime.value;
      [Step(PtEnabled, Flag(pt.enabled)),
       Step(PtOverride, Flag(pt.overrideEnabled)),
       Step(PtUnaccounted, Flag(pt.unaccounted)),
       Step(PtAllowedDays, Days(PtWeekdays(pt))),
       Step(PtLimits, Limits(Project(pt.Limits(), PtWeekdays(pt)))),
       Step(PtActivities, Activities(pt.activities))]
  }

  /** Every setter a full push calls, in order. */
  function Steps(p: Policy): seq<Step>
    requires p.Valid() && |p.dailyLimits| == 7
  {
    FixedSteps(p) + HourSteps(p.allowedHours) + PlaytimeSteps(p.playtime)
  }

  /** The weekday step whose writing makes the readback of a limits step incomparable. */
  function Leader(p: Policy, s: Setting): Option<Step> {
    if s == LimitsForDays then Some(Step(AllowedDays, Days(p.Weekdays())))
    else if s == PtLimits && p.playtime.Some? then Some(Step(PtAllowedDays, Days(PtWeekdays(p.playtime.value))))
    else None
  }

  predicate Skipped(p: Policy, snapshot: Option<Snapshot>, x: Step) {
    && Matches(snapshot, x.setting, x.desired)
    && (Leader(p, x.setting).Some? ==>
          Matches(snapshot, Leader(p, x.setting).value.setting, Leader(p, x.setting).value.desired))
  }

  // ---------- a push ----------

  datatype Label = Rejected(setting: Setting) | DailyLimitsLength

  /** `_Push`, together with the device it writes to and the log of setters it called. */
  datatype Progress = Progress(ok: bool, applied: nat, skipped: nat, failed: seq<Label>, device: Device, called: seq<Setting>)

  function Start(d: Device): Progress {
    Progress(true, 0, 0, [], d, [])
  }

  function TakeStep(accept: Acceptance, st: Progress, x: Step, skip: bool): Progress {
    if skip then st.(skipped := st.skipped + 1)
    else if Accepts(accept, x.setting, x.desired) then
      st.(applied := st.applied + 1, device := st.device[x.setting := x.desired], called := st.called + [x.setting])
    else
      st.(ok := false, applied := st.applied + 1, failed := st.failed + [Rejected(x.setting)],
          called := st.called + [x.setting])
  }

  function TakeSteps(accept: Acceptance, p: Policy, snapshot: Option<Snapshot>, steps: seq<Step>, d: Device): Progress {
    if steps == [] then Start(d)
    else
      var x := steps[|steps| - 1];
      TakeStep(accept, TakeSteps(accept, p, snapshot, steps[..|steps| - 1], d), x, Skipped(p, snapshot, x))
  }

  function Push(accept: Acceptance, p: Policy, snapshot: Option<Snapshot>, d: Device): Progress
    requires p.Valid()
  {
    if |p.dailyLimits| != 7 then Start(d).(ok := false, failed := [DailyLimitsLength])
    else TakeSteps(accept, p, snapshot, Steps(p), d)
  }

  /** The device timekpr runs on, behind its admin interface. */
  class Enforcer {
    var device: Device
    const accept: Acceptance

    constructor (d: Device, accept: Acceptance)
      ensures device == d && this.accept == accept
    {
      device := d;
      this.accept := accept;
    }

    method Call(s: Setting, v: Value) returns (done: bool)
      modifies this
      ensures done == Accepts(accept, s, v)
      ensures device == if done then old(device)[s := v] else old(device)
    {
      if v.Hours? && v.hours == map[] {
        return false;
      }
      done := accept(s, v);
      if done {
        device := device[s := v];
      }
    }
  }

  class Pushing {
    const applied: Option<Snapshot>
    var ok: bool
    var appliedCount: nat
    var skippedCount: nat
    var failed: seq<Label>
    ghost var called: seq<Setting>

    ghost function State(enforcer: Enforcer): Progress
      reads this, enforcer
    {
      Progress(ok, appliedCount, skippedCount, failed, enforcer.device, called)
    }

    constructor (applied: Option<Snapshot>)
      ensures this.applied == applied && ok && appliedCount == skippedCount == 0 && failed == [] && called == []
    {
      this.applied := applied;
      ok, appliedCount, skippedCount, failed, called := true, 0, 0, [], [];
    }

    /** `_Push.step`: whether the write was issued, accepted or not. */
    method Take(enforcer: Enforcer, s: Setting, desired: Value, current: Option<Comparand>) returns (issued: bool)
      modifies this, enforcer
      ensures issued == (current != Some(Target(desired)))
      ensures State(enforcer) == TakeStep(enforcer.accept, old(State(enforcer)), Step(s, desired), !issued)
    {
      if current.Some? && current.value == Target(desired) {
        skippedCount := skippedCount + 1;
        return false;
      }
      appliedCount := appliedCount + 1;
      called := called + [s];
      var done := enforcer.Call(s, desired);
      if !done {
        ok := false;
        failed := failed + [Rejected(s)];
      }
      return true;
    }

    /** The first `k` setters of the plan are behind us. */
    ghost predicate At(enforcer: Enforcer, p: Policy, d0: Device, k: nat)
      requires p.Valid() && |p.dailyLimits| == 7
      reads this, enforcer
    {
      k <= |Steps(p)| && State(enforcer) == TakeSteps(enforcer.accept, p, applied, Steps(p)[..k], d0)
    }

    /** A setter compared with its own readback only. */
    method TakeFree(enforcer: Enforcer, p: Policy, s: Setting, desired: Value, ghost k: nat, ghost d0: Device)
      returns (issued: bool)
      requires p.Valid() && |p.dailyLimits| == 7 && k < |Steps(p)| && Steps(p)[k] == Step(s, desired)
      requires At(enforcer, p, d0, k) && Leader(p, s).None?
      modifies this, enforcer
      ensures issued == !Matches(applied, s, desired)
      ensures At(enforcer, p, d0, k + 1)
    {
      assert Steps(p)[..k + 1][..k] == Steps(p)[..k];
      issued := Take(enforcer, s, desired, Current(applied, s, desired));
    }

    /** A limits setter: its readback is positional within the old weekday set, so once the weekdays
        have been written it counts as unknown. */
    method TakeFollower(enforcer: Enforcer, p: Policy, s: Setting, desired: Value, leaderIssued: bool,
                        ghost k: nat, ghost d0: Device)
      requires p.Valid() && |p.dailyLimits| == 7 && k < |Steps(p)| && Steps(p)[k] == Step(s, desired)
      requires At(enforcer, p, d0, k) && Leader(p, s).Some?
      requires leaderIssued == !Matches(applied, Leader(p, s).value.setting, Leader(p, s).value.desired)
      modifies this, enforcer
      ensures At(enforcer, p, d0, k + 1)
    {
      assert Steps(p)[..k + 1][..k] == Steps(p)[..k];
      var _ := Take(enforcer, s, desired, if leaderIssued then None else Current(applied, s, desired));
    }

    method ApplyFixed(enforcer: Enforcer, p: Policy, ghost d0: Device)
      requires p.Valid() && |p.dailyLimits| == 7 && At(enforcer, p, d0, 0)
      modifies this, enforcer
      ensures At(enforcer, p, d0, 7)
    {
      FixedPlaces(p);
      hide At, Steps, Matches, LockoutValue, Leader, Policy.Valid, Policy.Weekdays;
      var weekdays := p.Weekdays();
      var daysWritten := TakeFree(enforcer, p, AllowedDays, Days(weekdays), 0, d0);
      var projected := Project(p.dailyLimits, weekdays);
      TakeFollower(enforcer, p, LimitsForDays, Limits(projected), daysWritten, 1, d0);
      var _ := TakeFree(enforcer, p, LimitForWeek, Amount(p.weeklyLimit), 2, d0);
      var _ := TakeFree(enforcer, p, LimitForMonth, Amount(p.monthlyLimit), 3, d0);
      var _ := TakeFree(enforcer, p, TrackInactive, Flag(p.trackInactive), 4, d0);
      var _ := TakeFree(enforcer, p, HideTray, Flag(p.hideTray), 5, d0);
      var _ := TakeFree(enforcer, p, Lockout, LockoutValue(p), 6, d0);
    }

    method ApplyAllowedHours(enforcer: Enforcer, p: Policy, ghost d0: Device)
      requires p.Valid() && |p.dailyLimits| == 7 && At(enforcer, p, d0, 7)
      modifies this, enforcer
      ensures At(enforcer, p, d0, 7 + |p.allowedHours|)
    {
      hide At, Steps, Matches, Leader, Policy.Valid, HoursToDbusPayload;
      for i := 0 to |p.allowedHours|
        invariant At(enforcer, p, d0, 7 + i)
      {
        var dh := p.allowedHours[i];
        HourPlaces(p, i);
        var _ := TakeFree(enforcer, p, HoursOf(dh.day), Hours(HoursToDbusPayload(dh.records)), 7 + i, d0);
      }
    }

    method ApplyPlaytimeSwitches(enforcer: Enforcer, p: Policy, ghost d0: Device)
      requires p.Valid() && |p.dailyLimits| == 7 && p.playtime.Some? && At(enforcer, p, d0, 7 + |p.allowedHours|)
      modifies this, enforcer
      ensures At(enforcer, p, d0, 7 + |p.allowedHours| + 3)
    {
      ghost var base := 7 + |p.allowedHours|;
      PlaytimePlaces(p, base);
      hide At, Steps, Matches, Leader, Policy.Valid, PtWeekdays;
      var pt := p.playtime.value;
      var _ := TakeFree(enforcer, p, PtEnabled, Flag(pt.enabled), base, d0);
      var _ := TakeFree(enforcer, p, PtOverride, Flag(pt.overrideEnabled), base + 1, d0);
      var _ := TakeFree(enforcer, p, PtUnaccounted, Flag(pt.unaccounted), base + 2, d0);
    }

    method ApplyPlaytimeBudget(enforcer: Enforcer, p: Policy, ghost d0: Device)
      requires p.Valid() && |p.dailyLimits| == 7 && p.playtime.Some? && At(enforcer, p, d0, 7 + |p.allowedHours| + 3)
      modifies this, enforcer
      ensures At(enforcer, p, d0, 7 + |p.allowedHours| + 6)
    {
      ghost var base := 7 + |p.allowedHours|;
      PlaytimePlaces(p, base);
      hide At, Steps, Matches, Leader, Policy.Valid, PtWeekdays;
      var pt := p.playtime.value;
      var daysWritten := TakeFree(enforcer, p, PtAllowedDays, Days(PtWeekdays(pt)), base + 3, d0);
      var projected := Project(pt.Limits(), PtWeekdays(pt));
      TakeFollower(enforcer, p, PtLimits, Limits(projected), daysWritten, base + 4, d0);
      var _ := TakeFree(enforcer, p, PtActivities, Activities(pt.activities), base + 5, d0);
    }

    method ApplyPlaytime(enforcer: Enforcer, p: Policy, ghost d0: Device)
      requires p.Valid() && |p.dailyLimits| == 7 && At(enforcer, p, d0, 7 + |p.allowedHours|)
      modifies this, enforcer
      ensures At(enforcer, p, d0, |Steps(p)|)
    {
      if p.playtime.Some? {
        PlaytimePlaces(p, 7 + |p.allowedHours|);
        ApplyPlaytimeSwitches(enforcer, p, d0);
        ApplyPlaytimeBudget(enforcer, p, d0);
      }
    }
  }

  lemma FixedPlaces(p: Policy)
    requires p.Valid() && |p.dailyLimits| == 7
    ensures |Steps(p)| >= 7
    ensures Steps(p)[0] == Step(AllowedDays, Days(p.Weekdays()))
    ensures Steps(p)[1] == Step(LimitsForDays, Limits(Project(p.dailyLimits, p.Weekdays())))
    ensures Steps(p)[2] == Step(LimitForWeek, Amount(p.weeklyLimit))
    ensures Steps(p)[3] == Step(LimitForMonth, Amount(p.monthlyLimit))
    ensures Steps(p)[4] == Step(TrackInactive, Flag(p.trackInactive))
    ensures Steps(p)[5] == Step(HideTray, Flag(p.hideTray))
    ensures Steps(p)[6] == Step(Lockout, LockoutValue(p))
    ensures Leader(p, LimitsForDays) == Some(Step(AllowedDays, Days(p.Weekdays())))
    ensures forall s | s in [AllowedDays, LimitForWeek, LimitForMonth, TrackInactive, HideTray, Lockout] :: Leader(p, s).None?
  {
    assert forall k | 0 <= k < 7 :: Steps(p)[k] == FixedSteps(p)[k];
  }

  lemma HourPlaces(p: Policy, i: nat)
    requires p.Valid() && |p.dailyLimits| == 7 && i < |p.allowedHours|
    ensures 7 + i < |Steps(p)| && Steps(p)[7 + i] == HourStep(p.allowedHours[i])
    ensures Leader(p, HoursOf(p.allowedHours[i].day)).None?
  {
  }

  lemma PlaytimePlaces(p: Policy, base: nat)
    requires p.Valid() && |p.dailyLimits| == 7 && p.playtime.Some? && base == 7 + |p.allowedHours|
    ensures |Steps(p)| == base + 6
    ensures var pt := p.playtime.value;
            && Steps(p)[base] == Step(PtEnabled, Flag(pt.enabled))
            && Steps(p)[base + 1] == Step(PtOverride, Flag(pt.overrideEnabled))
            && Steps(p)[base + 2] == Step(PtUnaccounted, Flag(pt.unaccounted))
            && Steps(p)[base + 3] == Step(PtAllowedDays, Days(PtWeekdays(pt)))
            && Steps(p)[base + 4] == Step(PtLimits, Limits(Project(pt.Limits(), PtWeekdays(pt))))
            && Steps(p)[base + 5] == Step(PtActivities, Activities(pt.activities))
    ensures Leader(p, PtLimits) == Some(Step(PtAllowedDays, Days(PtWeekdays(p.playtime.value))))
    ensures forall s | s in [PtEnabled, PtOverride, PtUnaccounted, PtAllowedDays, PtActivities] :: Leader(p, s).None?
  {
    assert forall k | 0 <= k < 6 :: Steps(p)[base + k] == PlaytimeSteps(p.playtime)[k];
  }

  /** `_apply_policy_push`. `readable` says whether the readback came through. */
  method ApplyPolicyPush(enforcer: Enforcer, p: Policy, readable: bool) returns (push: Pushing)
    requires p.Valid()
    modifies enforcer
    ensures fresh(push)
    ensures push.State(enforcer) ==
            Push(enforcer.accept, p, if readable then Some(Readback(old(enforcer.device))) else None, old(enforcer.device))
  {
    ghost var d0 := enforcer.device;
    if |p.dailyLimits| != 7 {
      push := new Pushing(None);
      push.ok := false;
      push.failed := [DailyLimitsLength];
      return;
    }
    push := new Pushing(if readable then Some(Readback(enforcer.device)) else None);
    push.ApplyFixed(enforcer, p, d0);
    push.ApplyAllowedHours(enforcer, p, d0);
    push.ApplyPlaytime(enforcer, p, d0);
    assert Steps(p)[..|Steps(p)|] == Steps(p);
  }
}
