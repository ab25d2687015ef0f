/**
 * The revision gate: the hub resends the day's effective payload until the agent echoes its revision.
 * One user, one device, over any run of policy edits, one-day hours overrides, day changes and ticks.
 */
module RevisionGate {
  import opened Basics
  import opened AllowedHours
  import opened AllowedHoursCodec
  import opened PolicyPush
  import opened PushProperties

  // ---------- the effective payload ----------

  function Lookup(hours: seq<DayHours>, day: Weekday): seq<HourRecord> {
    if hours == [] then [] else if hours[0].day == day then hours[0].records else Lookup(hours[1..], day)
  }

  function UnrestrictedRecords(): seq<HourRecord> {
    ExpandAll(Unrestricted())
  }

  /** An absent or empty weekday means "no restriction". */
  function HoursOrOpen(hours: seq<DayHours>, day: Weekday): seq<HourRecord> {
    if Lookup(hours, day) == [] then UnrestrictedRecords() else Lookup(hours, day)
  }

  /** All seven weekdays, spelled out. */
  function Materialize(hours: seq<DayHours>): (r: seq<DayHours>)
    ensures |r| == 7 && forall i | 0 <= i < 7 :: r[i].day == i + 1
  {
    seq(7, i requires 0 <= i < 7 => DayHours(i + 1, HoursOrOpen(hours, i + 1)))
  }

  /** A weekday the user cannot log in on is left alone. */
  function WithDayHourOverride(p: Policy, weekday: Weekday, records: seq<HourRecord>): Policy {
    var m := Materialize(p.allowedHours);
    p.(allowedHours := if weekday in p.Weekdays() then m[weekday - 1 := DayHours(weekday, records)] else m)
  }

  /** Days count up from a Monday. */
  function WeekdayOf(day: int): Weekday {
    day % 7 + 1
  }

  function EffectivePayload(standing: Policy, overrides: map<int, seq<HourRecord>>, day: int): Policy {
    var m := standing.(allowedHours := Materialize(standing.allowedHours));
    if day in overrides then WithDayHourOverride(m, WeekdayOf(day), overrides[day]) else m
  }

  /** What each weekday should allow on `day`, said without payloads. */
  function HoursDue(standing: Policy, overrides: map<int, seq<HourRecord>>, day: int, weekday: Weekday): seq<HourRecord> {
    if day in overrides && weekday == WeekdayOf(day) && weekday in standing.Weekdays() then overrides[day]
    else HoursOrOpen(standing.allowedHours, weekday)
  }

  /** What the hub's own policy rows guarantee. */
  ghost predicate HubPolicy(p: Policy) {
    p.Valid() && |p.dailyLimits| == 7 && p.playtime.Some?
  }

  lemma MaterializeTwice(hours: seq<DayHours>, weekday: Weekday)
    ensures Lookup(Materialize(hours), weekday) == HoursOrOpen(hours, weekday)
    ensures HoursOrOpen(Materialize(hours), weekday) == HoursOrOpen(hours, weekday)
  {
    LookupAt(Materialize(hours), weekday - 1);
  }

  lemma {:induction false} LookupAt(hours: seq<DayHours>, k: nat)
    requires k < |hours| && forall i, j | 0 <= i < j < |hours| :: hours[i].day != hours[j].day
    ensures Lookup(hours, hours[k].day) == hours[k].records
  {
    if k > 0 {
      assert hours[1..][k - 1] == hours[k];
      LookupAt(hours[1..], k - 1);
    }
  }

  /** The effective payload spells out all seven weekdays, each with the hours due that day. */
  lemma EffectiveHours(standing: Policy, overrides: map<int, seq<HourRecord>>, day: int)
    requires HubPolicy(standing)
    ensures var q := EffectivePayload(standing, overrides, day);
            && HubPolicy(q) && q == standing.(allowedHours := q.allowedHours) && |q.allowedHours| == 7
            && forall i: int | 0 <= i < 7 :: q.allowedHours[i] == DayHours(i + 1, HoursDue(standing, overrides, day, i + 1))
  {
    hide UnrestrictedRecords, HoursOrOpen, Lookup;
    var m := standing.(allowedHours := Materialize(standing.allowedHours));
    forall i: int | 0 <= i < 7
      ensures Materialize(m.allowedHours)[i] == m.allowedHours[i]
    {
      MaterializeTwice(standing.allowedHours, i + 1);
    }
    assert m.Weekdays() == standing.Weekdays();
  }

  // ---------- what is due, without the payload ----------

  /** Every minute of the day, none of them unaccounted: 24 whole clock hours. */
  ghost predicate WholeDay(records: seq<HourRecord>) {
    |records| == 24 && forall h: int | 0 <= h < 24 :: records[h] == HourRecord(h, 0, 60, false)
  }

  /** The weekday's stored records, exactly; the whole day when none are stored. */
  ghost predicate StandingHours(standing: Policy, weekday: Weekday, records: seq<HourRecord>) {
    && (forall i | 0 <= i < |standing.allowedHours| && standing.allowedHours[i].day == weekday
                   && standing.allowedHours[i].records != [] :: records == standing.allowedHours[i].records)
    && ((forall i | 0 <= i < |standing.allowedHours| && standing.allowedHours[i].day == weekday ::
           standing.allowedHours[i].records == []) ==> WholeDay(records))
  }

  predicate MayLogIn(standing: Policy, weekday: Weekday) {
    standing.allowedWeekdays == [] || weekday in standing.allowedWeekdays
  }

  /** Today's override on today's weekday, if the user may log in on it; else the standing hours. */
  ghost predicate IsDue(standing: Policy, overrides: map<int, seq<HourRecord>>, day: int, weekday: Weekday,
                        records: seq<HourRecord>) {
    if day in overrides && weekday == WeekdayOf(day) && MayLogIn(standing, weekday) then records == overrides[day]
    else StandingHours(standing, weekday, records)
  }

  /** Day 0 is a Monday, weekdays follow each other, and Monday follows Sunday. */
  lemma WeekdaysCycle(day: int)
    ensures WeekdayOf(0) == 1
    ensures WeekdayOf(day + 1) == if WeekdayOf(day) == 7 then 1 else WeekdayOf(day) + 1
  {
  }

  lemma {:induction false} WholeDayFrom(hour: int, h: int)
    requires 0 <= hour <= h < 24
    ensures |ExpandFrom(TimeInterval(0, 1440, false), hour)| == 24 - hour
    ensures ExpandFrom(TimeInterval(0, 1440, false), hour)[h - hour] == HourRecord(h, 0, 60, false)
    decreases 24 - hour
  {
    if hour < h {
      WholeDayFrom(hour + 1, h);
    } else if hour < 23 {
      WholeDayFrom(hour + 1, hour + 1);
    }
  }

  lemma UnrestrictedIsWholeDay()
    ensures WholeDay(UnrestrictedRecords())
  {
    var iv := TimeInterval(0, 1440, false);
    assert UnrestrictedRecords() == Expand(iv) + ExpandAll([]) && Expand(iv) == ExpandFrom(iv, 0);
    WholeDayFrom(0, 0);
    forall h: int | 0 <= h < 24
      ensures UnrestrictedRecords()[h] == HourRecord(h, 0, 60, false)
    {
      WholeDayFrom(0, h);
    }
  }

  lemma {:induction false} LookupNothing(hours: seq<DayHours>, weekday: Weekday)
    requires forall i | 0 <= i < |hours| && hours[i].day == weekday :: hours[i].records == []
    ensures Lookup(hours, weekday) == []
  {
    if hours != [] {
      assert forall i | 0 <= i < |hours[1..]| :: hours[1..][i] == hours[i + 1];
      LookupNothing(hours[1..], weekday);
    }
  }

  lemma HoursOrOpenAreStanding(standing: Policy, weekday: Weekday)
    requires standing.Valid()
    ensures StandingHours(standing, weekday, HoursOrOpen(standing.allowedHours, weekday))
  {
    UnrestrictedIsWholeDay();
    hide UnrestrictedRecords, WholeDay;
    var hours := standing.allowedHours;
    forall i | 0 <= i < |hours| && hours[i].day == weekday && hours[i].records != []
      ensures HoursOrOpen(hours, weekday) == hours[i].records
    {
      LookupAt(hours, i);
    }
    if forall i | 0 <= i < |hours| && hours[i].day == weekday :: hours[i].records == [] {
      LookupNothing(hours, weekday);
    }
  }

  lemma HoursDueAreDue(standing: Policy, overrides: map<int, seq<HourRecord>>, day: int, weekday: Weekday)
    requires standing.Valid()
    ensures IsDue(standing, overrides, day, weekday, HoursDue(standing, overrides, day, weekday))
  {
    HoursOrOpenAreStanding(standing, weekday);
    assert weekday in standing.Weekdays() <==> MayLogIn(standing, weekday);
  }

  /** An open weekday reaches the device as 24 slots of 60 accounted minutes. */
  lemma WholeDayOnDevice(records: seq<HourRecord>)
    requires WholeDay(records)
    ensures |HoursToDbusPayload(records)| == 24
    ensures forall h: int | 0 <= h < 24 :: h in HoursToDbusPayload(records) && HoursToDbusPayload(records)[h] == HourSlot(0, 60, false)
  {
    DistinctHoursKeepRecords(records);
    forall h: int | 0 <= h < 24
      ensures h in HoursToDbusPayload(records) && HoursToDbusPayload(records)[h] == HourSlot(0, 60, false)
    {
      assert records[h].hour == h;
    }
  }

  // ---------- the world ----------

  /** The revision token is an injective, non-empty digest of the payload. */
  type Digest = Policy -> string

  ghost predicate Injective(rev: Digest) {
    && (forall p, q :: rev(p) == rev(q) ==> p == q)
    && (forall p :: rev(p) != "")
  }

  datatype World = World(standing: Policy, overrides: map<int, seq<HourRecord>>, today: int, echo: string, device: Device) {
    function Effective(): Policy {
      EffectivePayload(standing, overrides, today)
    }
  }

  /** The gate in /sync: the payload goes out unless the agent echoed its revision. */
  function Sent(rev: Digest, w: World): Option<Policy> {
    if w.echo != rev(w.Effective()) then Some(w.Effective()) else None
  }

  datatype Event =
    | Edit(body: Policy)
    | SetOverride(day: int, records: seq<HourRecord>)
    | ClearOverride(day: int)
    | Advance(days: nat)
    | Enforced(accept: Acceptance, readable: bool)   // a synced tick that may write to the device
    | Quiet                                          // observe mode, or no answer came back

  ghost predicate Admissible(e: Event) {
    e.Edit? ==> HubPolicy(e.body)
  }

  ghost function Deliver(rev: Digest, w: World, accept: Acceptance, readable: bool): World
    requires HubPolicy(w.standing)
  {
    if Sent(rev, w).None? then w
    else
      EffectiveHours(w.standing, w.overrides, w.today);
      var push := Push(accept, w.Effective(), SnapshotOf(readable, w.device), w.device);
      w.(device := push.device, echo := if push.ok then rev(w.Effective()) else w.echo)
  }

  ghost function Step(rev: Digest, w: World, e: Event): World
    requires HubPolicy(w.standing)
  {
    match e
    case Edit(body) => w.(standing := body.(version := w.standing.version + 1))
    case SetOverride(day, records) => w.(overrides := w.overrides[day := records])
    case ClearOverride(day) => w.(overrides := w.overrides - {day})
    case Advance(days) => w.(today := w.today + days)
    case Enforced(accept, readable) => Deliver(rev, w, accept, readable)
    case Quiet => w
  }

  ghost function Run(rev: Digest, w: World, events: seq<Event>): (r: World)
    requires HubPolicy(w.standing) && forall e | e in events :: Admissible(e)
    ensures HubPolicy(r.standing)
    decreases |events|
  {
    if events == [] then w
    else
      var n := |events| - 1;
      assert (forall e | e in events[..n] :: e in events) && Admissible(events[n]);
      Step(rev, Run(rev, w, events[..n]), events[n])
  }

  /** Delivered pushes are fully accepted. */
  ghost predicate CleanStep(rev: Digest, w: World, e: Event)
    requires HubPolicy(w.standing)
  {
    EffectiveHours(w.standing, w.overrides, w.today);
    e.Enforced? && Sent(rev, w).Some? ==>
      Push(e.accept, w.Effective(), SnapshotOf(e.readable, w.device), w.device).ok
  }

  ghost predicate Clean(rev: Digest, w: World, events: seq<Event>)
    requires HubPolicy(w.standing) && forall e | e in events :: Admissible(e)
    decreases |events|
  {
    events != [] ==>
      var n := |events| - 1;
      assert (forall e | e in events[..n] :: e in events) && events[n] in events;
      Clean(rev, w, events[..n]) && CleanStep(rev, Run(rev, w, events[..n]), events[n])
  }

  // ---------- the gate invariant ----------

  /** Payload `q` is the one whose revision was echoed, and the device shows it. */
  ghost predicate Holds(rev: Digest, q: Policy, w: World) {
    HubPolicy(q) && rev(q) == w.echo && ShowsPolicy(q, w.device)
  }

  ghost predicate GateInv(rev: Digest, w: World) {
    w.echo == "" || exists q :: Holds(rev, q, w)
  }

  lemma DeliverCleanly(rev: Digest, w: World, accept: Acceptance, readable: bool)
    requires Injective(rev) && HubPolicy(w.standing) && GateInv(rev, w)
    requires CleanStep(rev, w, Enforced(accept, readable))
    ensures var w' := Deliver(rev, w, accept, readable);
            w' == w.(device := w'.device, echo := w'.echo) && Holds(rev, w.Effective(), w')
  {
    EffectiveHours(w.standing, w.overrides, w.today);
    hide Push, ShowsPolicy, EffectivePayload, Readback, HubPolicy;
    if Sent(rev, w).None? {
      var q :| Holds(rev, q, w);
      assert q == w.Effective();
    } else {
      OkMeansDeviceMatches(accept, w.Effective(), readable, w.device);
      SevenLimits(w.Effective());
    }
  }

  lemma SevenLimits(q: Policy)
    requires HubPolicy(q)
    ensures |q.dailyLimits| == 7
  {
  }

  lemma {:induction false} CleanRunKeepsGate(rev: Digest, w: World, events: seq<Event>)
    requires Injective(rev) && HubPolicy(w.standing) && (forall e | e in events :: Admissible(e))
    requires GateInv(rev, w) && Clean(rev, w, events)
    ensures GateInv(rev, Run(rev, w, events))
    decreases |events|
  {
    if events != [] {
      var n := |events| - 1;
      assert (forall e | e in events[..n] :: e in events) && Admissible(events[n]);
      CleanRunKeepsGate(rev, w, events[..n]);
      hide Deliver, Sent, CleanStep, ShowsPolicy, EffectivePayload, HubPolicy, Injective, Holds;
      StepKeepsGate(rev, Run(rev, w, events[..n]), events[n]);
    }
  }

  lemma StepKeepsGate(rev: Digest, w: World, e: Event)
    requires Injective(rev) && HubPolicy(w.standing) && GateInv(rev, w)
    requires CleanStep(rev, w, e)
    ensures GateInv(rev, Step(rev, w, e))
  {
    hide Deliver, Sent, CleanStep, ShowsPolicy, EffectivePayload, HubPolicy, Injective;
    if e.Enforced? {
      DeliverCleanly(rev, w, e.accept, e.readable);
    } else if w.echo != "" {
      var q :| Holds(rev, q, w);
      assert Holds(rev, q, Step(rev, w, e));
    }
  }

  lemma ShowsItsHours(q: Policy, d: Device, i: nat)
    requires HubPolicy(q) && ShowsPolicy(q, d) && i < |q.allowedHours|
    ensures View(d, HoursOf(q.allowedHours[i].day)) == Some(Plain(Hours(HoursToDbusPayload(q.allowedHours[i].records))))
  {
    hide HoursToDbusPayload;
    assert Steps(q)[7 + i] == HourStep(q.allowedHours[i]);
    assert Steps(q)[7 + i] in Steps(q);
  }

  /** What a weekday's hours look like on a device that was given `records`. */
  function ShownHours(records: seq<HourRecord>): Option<Shown> {
    Some(Plain(Hours(HoursToDbusPayload(records))))
  }

  /** The gate end to end: in every run whose delivered pushes are accepted, right after each enforced tick
      the echo is the revision of that day's effective payload, the device shows that payload on every
      compared field, and each of the seven weekdays allows exactly the hours due that day. */
  lemma GateEndToEnd(rev: Digest, w0: World, events: seq<Event>, tick: Event, weekday: Weekday)
    requires Injective(rev) && HubPolicy(w0.standing) && w0.echo == "" && tick.Enforced?
    requires (forall e | e in events + [tick] :: Admissible(e)) && Clean(rev, w0, events + [tick])
    ensures var w := Run(rev, w0, events + [tick]);
            && w.echo == rev(w.Effective())
            && HubPolicy(w.Effective()) && ShowsPolicy(w.Effective(), w.device)
            && View(w.device, HoursOf(weekday)) == ShownHours(HoursDue(w.standing, w.overrides, w.today, weekday))
            && IsDue(w.standing, w.overrides, w.today, weekday, HoursDue(w.standing, w.overrides, w.today, weekday))
  {
    var all := events + [tick];
    hide Deliver, Sent, CleanStep, ShowsPolicy, EffectivePayload, HubPolicy, Injective, Clean, HoursDue, View, IsDue;
    LastStep(rev, w0, events, tick);
    CleanRunKeepsGate(rev, w0, events);
    DeliverCleanly(rev, Run(rev, w0, events), tick.accept, tick.readable);
    var w := Run(rev, w0, all);
    EffectiveHours(w.standing, w.overrides, w.today);
    ShowsItsHours(w.Effective(), w.device, weekday - 1);
    ValidHubPolicy(w.standing);
    HoursDueAreDue(w.standing, w.overrides, w.today, weekday);
  }

  lemma ValidHubPolicy(p: Policy)
    requires HubPolicy(p)
    ensures p.Valid()
  {
  }

  lemma LastStep(rev: Digest, w0: World, events: seq<Event>, e: Event)
    requires HubPolicy(w0.standing) && (forall x | x in events + [e] :: Admissible(x))
    ensures forall x | x in events :: Admissible(x)
    ensures Run(rev, w0, events + [e]) == Step(rev, Run(rev, w0, events), e)
    ensures Clean(rev, w0, events + [e]) ==> Clean(rev, w0, events) && CleanStep(rev, Run(rev, w0, events), e)
  {
    var all := events + [e];
    assert all[..|all| - 1] == events && all[|all| - 1] == e;
    assert forall x | x in events :: x in all;
  }

  /** An override ends with its date: after an enforced tick on a day without one, every weekday is back to its
      standing hours, whatever overrides other days have had or still have. */
  lemma OverridesEndWithTheirDay(rev: Digest, w0: World, events: seq<Event>, tick: Event, weekday: Weekday)
    requires Injective(rev) && HubPolicy(w0.standing) && w0.echo == "" && tick.Enforced?
    requires (forall e | e in events + [tick] :: Admissible(e)) && Clean(rev, w0, events + [tick])
    requires Run(rev, w0, events + [tick]).today !in Run(rev, w0, events + [tick]).overrides
    ensures var w := Run(rev, w0, events + [tick]);
            var records := HoursOrOpen(w.standing.allowedHours, weekday);
            View(w.device, HoursOf(weekday)) == ShownHours(records) && StandingHours(w.standing, weekday, records)
  {
    hide Run, Clean, ShowsPolicy, HoursOrOpen, StandingHours, View, HubPolicy, Injective;
    GateEndToEnd(rev, w0, events, tick, weekday);
  }

  // ---------- what an admin changes reaches the device ----------

  /** A tick changes neither the policy, the overrides nor the day. */
  lemma TickKeepsSettings(rev: Digest, w: World, tick: Event)
    requires HubPolicy(w.standing) && tick.Enforced?
    ensures var w' := Step(rev, w, tick);
            w'.standing == w.standing && w'.overrides == w.overrides && w'.today == w.today
  {
    hide Push, EffectivePayload;
  }

  /** An event and then a tick: where the run ends, apart from the device and the echo. */
  lemma EventThenTick(rev: Digest, w0: World, events: seq<Event>, e: Event, tick: Event)
    requires HubPolicy(w0.standing) && tick.Enforced? && forall x | x in events + [e] + [tick] :: Admissible(x)
    ensures (forall x | x in events :: Admissible(x)) && (forall x | x in events + [e] :: Admissible(x))
    ensures var w := Step(rev, Run(rev, w0, events), e);
            var w' := Run(rev, w0, events + [e] + [tick]);
            w'.standing == w.standing && w'.overrides == w.overrides && w'.today == w.today
  {
    hide Step, HubPolicy;
    LastStep(rev, w0, events + [e], tick);
    LastStep(rev, w0, events, e);
    TickKeepsSettings(rev, Run(rev, w0, events + [e]), tick);
  }

  /** A saved policy reaches the device with the next enforced tick: weekdays, each one's limit, the week and month
      limits, switches, lockout type, and on every weekday the saved hours (or today's override), under the next version. */
  lemma EditReachesDevice(rev: Digest, w0: World, events: seq<Event>, body: Policy, tick: Event, weekday: Weekday)
    requires Injective(rev) && HubPolicy(w0.standing) && w0.echo == "" && tick.Enforced?
    requires (forall x | x in events + [Edit(body)] + [tick] :: Admissible(x))
    requires Clean(rev, w0, events + [Edit(body)] + [tick])
    ensures forall x | x in events :: Admissible(x)
    ensures var w, d := Run(rev, w0, events), Run(rev, w0, events + [Edit(body)] + [tick]).device;
            var saved := Run(rev, w0, events + [Edit(body)] + [tick]).standing;
            && saved == body.(version := w.standing.version + 1)
            && AllowedDays in d && d[AllowedDays].Days? && StandsFor(body.allowedWeekdays, d[AllowedDays].days)
            && LimitsForDays in d && d[LimitsForDays].Limits?
            && (|body.dailyLimits| == 7 && LimitsFor(body.dailyLimits, d[AllowedDays].days, d[LimitsForDays].limits))
            && LimitForWeek in d && d[LimitForWeek] == Amount(body.weeklyLimit)
            && LimitForMonth in d && d[LimitForMonth] == Amount(body.monthlyLimit)
            && TrackInactive in d && d[TrackInactive] == Flag(body.trackInactive)
            && HideTray in d && d[HideTray] == Flag(body.hideTray)
            && Lockout in d && d[Lockout].Locking? && d[Lockout].kind == (if body.lockoutType == "" then "lock" else body.lockoutType)
            && var records := HoursDue(saved, w.overrides, w.today, weekday);
               View(d, HoursOf(weekday)) == ShownHours(records) && IsDue(body, w.overrides, w.today, weekday, records)
  {
    hide Run, Clean, ShowsPolicy, HoursDue, View, HubPolicy, Injective, StandsFor, LimitsFor, ShownHours, EffectivePayload;
    EventThenTick(rev, w0, events, Edit(body), tick);
    GateEndToEnd(rev, w0, events + [Edit(body)], tick, weekday);
    var w := Run(rev, w0, events + [Edit(body)] + [tick]);
    PayloadKeepsFields(w.standing, w.overrides, w.today);
    SevenLimits(w.Effective());
    ValidHubPolicy(w.Effective());
    ShownFields(w.Effective(), w.device);
    DueIgnoresVersion(body, w.standing.version, w.overrides, w.today, weekday, HoursDue(w.standing, w.overrides, w.today, weekday));
  }

  lemma PayloadKeepsFields(standing: Policy, overrides: map<int, seq<HourRecord>>, day: int)
    requires HubPolicy(standing)
    ensures var q := EffectivePayload(standing, overrides, day);
            HubPolicy(q) && q == standing.(allowedHours := q.allowedHours)
  {
    EffectiveHours(standing, overrides, day);
  }

  lemma DueIgnoresVersion(body: Policy, version: int, overrides: map<int, seq<HourRecord>>, day: int, weekday: Weekday,
                          records: seq<HourRecord>)
    ensures IsDue(body.(version := version), overrides, day, weekday, records) <==> IsDue(body, overrides, day, weekday, records)
  {
  }

  /** An override set for today is on the device after the next enforced tick, if the user may log in today. */
  lemma OverrideReachesDevice(rev: Digest, w0: World, events: seq<Event>, records: seq<HourRecord>, tick: Event)
    requires Injective(rev) && HubPolicy(w0.standing) && w0.echo == "" && tick.Enforced?
    requires forall x | x in events :: Admissible(x)
    requires var e := SetOverride(Run(rev, w0, events).today, records);
             (forall x | x in events + [e] + [tick] :: Admissible(x)) && Clean(rev, w0, events + [e] + [tick])
    ensures var w := Run(rev, w0, events);
            var d := Run(rev, w0, events + [SetOverride(w.today, records)] + [tick]).device;
            MayLogIn(w.standing, WeekdayOf(w.today)) ==> View(d, HoursOf(WeekdayOf(w.today))) == ShownHours(records)
  {
    hide Run, Clean, ShowsPolicy, HoursDue, View, HubPolicy, Injective, ShownHours, MayLogIn, WeekdayOf;
    var w := Run(rev, w0, events);
    var e := SetOverride(w.today, records);
    EventThenTick(rev, w0, events, e, tick);
    GateEndToEnd(rev, w0, events + [e], tick, WeekdayOf(w.today));
  }

  /** Clearing today's override brings every weekday back to its standing hours with the next enforced tick. */
  lemma ClearReachesDevice(rev: Digest, w0: World, events: seq<Event>, tick: Event, weekday: Weekday)
    requires Injective(rev) && HubPolicy(w0.standing) && w0.echo == "" && tick.Enforced?
    requires forall x | x in events :: Admissible(x)
    requires var e := ClearOverride(Run(rev, w0, events).today);
             (forall x | x in events + [e] + [tick] :: Admissible(x)) && Clean(rev, w0, events + [e] + [tick])
    ensures var w := Run(rev, w0, events);
            var d := Run(rev, w0, events + [ClearOverride(w.today)] + [tick]).device;
            var records := HoursOrOpen(w.standing.allowedHours, weekday);
            View(d, HoursOf(weekday)) == ShownHours(records) && StandingHours(w.standing, weekday, records)
  {
    hide Run, Clean, ShowsPolicy, HoursOrOpen, StandingHours, View, HubPolicy, Injective, ShownHours, WeekdayOf;
    var w := Run(rev, w0, events);
    var e := ClearOverride(w.today);
    EventThenTick(rev, w0, events, e, tick);
    OverridesEndWithTheirDay(rev, w0, events + [e], tick, weekday);
  }

  /** Setting or clearing one day's override leaves every other day's alone. */
  lemma OneDayAtATime(rev: Digest, w: World, day: int, records: seq<HourRecord>, other: int)
    requires HubPolicy(w.standing) && other != day
    ensures var set', cleared := Step(rev, w, SetOverride(day, records)), Step(rev, w, ClearOverride(day));
            && set'.standing == cleared.standing == w.standing && set'.device == cleared.device == w.device
            && (other in set'.overrides <==> other in w.overrides) && (other in cleared.overrides <==> other in w.overrides)
            && (other in w.overrides ==> set'.overrides[other] == cleared.overrides[other] == w.overrides[other])
  {
  }

  /** After such a tick the hub stays silent exactly as long as the effective payload is the same. */
  lemma SilentWhileUnchanged(rev: Digest, w: World, later: World)
    requires Injective(rev) && w.echo == rev(w.Effective()) && later.echo == w.echo
    ensures Sent(rev, later).None? <==> later.Effective() == w.Effective()
  {
  }

  // ---------- edits ----------

  ghost predicate EchoOfVersion(rev: Digest, q: Policy, w: World) {
    rev(q) == w.echo && q.version <= w.standing.version
  }

  ghost predicate EchoBehind(rev: Digest, w: World) {
    w.echo == "" || exists q :: EchoOfVersion(rev, q, w)
  }

  lemma StepKeepsEchoBehind(rev: Digest, w: World, e: Event)
    requires HubPolicy(w.standing) && EchoBehind(rev, w)
    ensures EchoBehind(rev, Step(rev, w, e))
  {
    EffectiveHours(w.standing, w.overrides, w.today);
    hide Push, HubPolicy, EffectivePayload;
    var w' := Step(rev, w, e);
    if w'.echo == w.echo && w.echo != "" {
      var q :| EchoOfVersion(rev, q, w);
      assert EchoOfVersion(rev, q, w');
    } else if w'.echo != "" {
      assert EchoOfVersion(rev, w.Effective(), w');
    }
  }

  /** In every run, clean or not, the echo is at most as new as the standing policy. */
  lemma {:induction false} EchoNeverAhead(rev: Digest, w: World, events: seq<Event>)
    requires HubPolicy(w.standing) && (forall e | e in events :: Admissible(e)) && w.echo == ""
    ensures var r := Run(rev, w, events);
            r.echo == "" || exists q :: EchoOfVersion(rev, q, r)
    decreases |events|
  {
    hide Step, HubPolicy;
    if events != [] {
      var n := |events| - 1;
      assert (forall e | e in events[..n] :: e in events) && events[n] in events;
      EchoNeverAhead(rev, w, events[..n]);
      StepKeepsEchoBehind(rev, Run(rev, w, events[..n]), events[n]);
    }
  }

  /** Saving a policy, even an unchanged one, always makes the hub send the payload again. */
  lemma EditIsAlwaysSent(rev: Digest, w0: World, events: seq<Event>, body: Policy)
    requires Injective(rev) && HubPolicy(w0.standing) && w0.echo == ""
    requires (forall e | e in events :: Admissible(e)) && HubPolicy(body)
    ensures var w := Run(rev, w0, events);
            Sent(rev, Step(rev, w, Edit(body))).Some?
  {
    var w := Run(rev, w0, events);
    EchoNeverAhead(rev, w0, events);
    EffectiveHours(w.standing, w.overrides, w.today);
    var edited := Step(rev, w, Edit(body));
    EffectiveHours(edited.standing, edited.overrides, edited.today);
    if w.echo != "" {
      var q :| EchoOfVersion(rev, q, w);
      assert q.version < edited.Effective().version;
    }
  }

  // ---------- after a partly failed push ----------

  /** The value an event writes to `s`: an enforced tick that carries a payload with an issued, accepted step for it. */
  ghost function WrittenBy(rev: Digest, w: World, e: Event, s: Setting): Option<Value>
    requires HubPolicy(w.standing)
  {
    if !e.Enforced? || Sent(rev, w).None? then None
    else
      EffectiveHours(w.standing, w.overrides, w.today);
      AcceptedWrite(e.accept, w.Effective(), SnapshotOf(e.readable, w.device), s)
  }

  ghost predicate Writes(accept: Acceptance, q: Policy, snapshot: Option<Snapshot>, x: PolicyPush.Step) {
    !Skipped(q, snapshot, x) && Accepts(accept, x.setting, x.desired)
  }

  ghost function AcceptedWrite(accept: Acceptance, q: Policy, snapshot: Option<Snapshot>, s: Setting): Option<Value>
    requires HubPolicy(q)
  {
    if x :| x in Steps(q) && x.setting == s && Writes(accept, q, snapshot, x) then Some(x.desired) else None
  }

  /** The last value timekpr accepted for `s` in a run, if any. */
  ghost function LastWritten(rev: Digest, w: World, events: seq<Event>, s: Setting): Option<Value>
    requires HubPolicy(w.standing) && forall e | e in events :: Admissible(e)
    decreases |events|
  {
    if events == [] then None
    else
      var n := |events| - 1;
      assert (forall e | e in events[..n] :: e in events) && events[n] in events;
      var last := WrittenBy(rev, Run(rev, w, events[..n]), events[n], s);
      if last.Some? then last else LastWritten(rev, w, events[..n], s)
  }

  lemma AcceptedWriteAt(accept: Acceptance, q: Policy, snapshot: Option<Snapshot>, k: nat)
    requires HubPolicy(q) && k < |Steps(q)| && DistinctSettings(Steps(q))
    ensures AcceptedWrite(accept, q, snapshot, Steps(q)[k].setting)
            == if Writes(accept, q, snapshot, Steps(q)[k]) then Some(Steps(q)[k].desired) else None
  {
    hide Writes, Steps;
    var x := Steps(q)[k];
    assert x in Steps(q);
    forall y | y in Steps(q) && y.setting == x.setting
      ensures y == x
    {
      var j :| 0 <= j < |Steps(q)| && Steps(q)[j] == y;
      assert j == k;
    }
  }

  lemma NoWriteUnlessMentioned(accept: Acceptance, q: Policy, snapshot: Option<Snapshot>, s: Setting)
    requires HubPolicy(q) && !Mentions(Steps(q), s)
    ensures AcceptedWrite(accept, q, snapshot, s).None?
  {
    hide Writes, Steps;
    forall x | x in Steps(q)
      ensures x.setting != s
    {
      var j :| 0 <= j < |Steps(q)| && Steps(q)[j] == x;
    }
  }

  lemma PushWrites(accept: Acceptance, readable: bool, q: Policy, d: Device, s: Setting)
    requires HubPolicy(q)
    ensures var written := AcceptedWrite(accept, q, SnapshotOf(readable, d), s);
            Held(Push(accept, q, SnapshotOf(readable, d), d).device, s) == if written.Some? then written else Held(d, s)
  {
    StepsDistinct(q);
    SevenLimits(q);
    hide Accepts, Skipped, Steps, Readback, HubPolicy, AcceptedWrite, TakeSteps;
    var snapshot := SnapshotOf(readable, d);
    if Mentions(Steps(q), s) {
      var k :| 0 <= k < |Steps(q)| && Steps(q)[k].setting == s;
      AcceptedWriteAt(accept, q, snapshot, k);
      EachSettingSettles(accept, q, snapshot, Steps(q), d, k);
    } else {
      NoWriteUnlessMentioned(accept, q, snapshot, s);
      OtherSettingsStay(accept, q, snapshot, Steps(q), d, s);
    }
  }

  lemma StepWrites(rev: Digest, w: World, e: Event, s: Setting)
    requires HubPolicy(w.standing)
    ensures var written := WrittenBy(rev, w, e, s);
            Held(Step(rev, w, e).device, s) == if written.Some? then written else Held(w.device, s)
  {
    EffectiveHours(w.standing, w.overrides, w.today);
    hide Push, EffectivePayload, AcceptedWrite;
    if e.Enforced? && Sent(rev, w).Some? {
      PushWrites(e.accept, e.readable, w.Effective(), w.device, s);
    }
  }

  /** Over any run a setting holds the last accepted value, or what it held at the start. */
  lemma {:induction false} RunHoldsLastWritten(rev: Digest, w: World, events: seq<Event>, s: Setting)
    requires HubPolicy(w.standing) && forall e | e in events :: Admissible(e)
    ensures var written := LastWritten(rev, w, events, s);
            Held(Run(rev, w, events).device, s) == if written.Some? then written else Held(w.device, s)
    decreases |events|
  {
    if events != [] {
      var n := |events| - 1;
      assert (forall e | e in events[..n] :: e in events) && Admissible(events[n]);
      RunHoldsLastWritten(rev, w, events[..n], s);
      hide WrittenBy, Step;
      StepWrites(rev, Run(rev, w, events[..n]), events[n], s);
    }
  }

  /** No delivered push of the run succeeds. */
  ghost predicate FailedStep(rev: Digest, w: World, e: Event)
    requires HubPolicy(w.standing)
  {
    EffectiveHours(w.standing, w.overrides, w.today);
    e.Enforced? && Sent(rev, w).Some? ==>
      !Push(e.accept, w.Effective(), SnapshotOf(e.readable, w.device), w.device).ok
  }

  ghost predicate AllFail(rev: Digest, w: World, events: seq<Event>)
    requires HubPolicy(w.standing) && forall e | e in events :: Admissible(e)
    decreases |events|
  {
    events != [] ==>
      var n := |events| - 1;
      assert (forall e | e in events[..n] :: e in events) && events[n] in events;
      AllFail(rev, w, events[..n]) && FailedStep(rev, Run(rev, w, events[..n]), events[n])
  }

  lemma FailedStepKeepsEcho(rev: Digest, w: World, e: Event)
    requires HubPolicy(w.standing) && FailedStep(rev, w, e)
    ensures Step(rev, w, e).echo == w.echo
  {
    hide Push, EffectivePayload;
  }

  lemma {:induction false} FailuresKeepEcho(rev: Digest, w: World, events: seq<Event>)
    requires HubPolicy(w.standing) && (forall e | e in events :: Admissible(e)) && AllFail(rev, w, events)
    ensures Run(rev, w, events).echo == w.echo
    decreases |events|
  {
    if events != [] {
      var n := |events| - 1;
      assert (forall e | e in events[..n] :: e in events) && Admissible(events[n]);
      FailuresKeepEcho(rev, w, events[..n]);
      hide FailedStep, Step;
      FailedStepKeepsEcho(rev, Run(rev, w, events[..n]), events[n]);
    }
  }

  /** The last accepted write of the run on each setting of `q0`, if any, was of the value `q0` shows. */
  ghost predicate LeftAsBefore(rev: Digest, w: World, events: seq<Event>, q0: Policy)
    requires HubPolicy(w.standing) && (forall e | e in events :: Admissible(e)) && HubPolicy(q0)
  {
    forall x | x in Steps(q0) ::
      var written := LastWritten(rev, w, events, x.setting);
      written.Some? ==> Show(written.value) == Show(x.desired)
  }

  /** After any run from a device that shows `q0`, it still does exactly when on each setting of `q0` the last write
      timekpr accepted, if any, was of `q0`'s value. */
  lemma ShowsIffLeftAsBefore(rev: Digest, w: World, events: seq<Event>, q0: Policy)
    requires HubPolicy(w.standing) && (forall e | e in events :: Admissible(e))
    requires HubPolicy(q0) && ShowsPolicy(q0, w.device)
    ensures ShowsPolicy(q0, Run(rev, w, events).device) <==> LeftAsBefore(rev, w, events, q0)
  {
    hide Run, LastWritten, Show, Steps;
    var r := Run(rev, w, events);
    forall x | x in Steps(q0)
      ensures View(r.device, x.setting) == Some(Show(x.desired)) <==>
              (LastWritten(rev, w, events, x.setting).Some? ==>
                 Show(LastWritten(rev, w, events, x.setting).value) == Show(x.desired))
    {
      RunHoldsLastWritten(rev, w, events, x.setting);
      assert View(w.device, x.setting) == Some(Show(x.desired));
      ViewOfHeld(r.device, x.setting);
      ViewOfHeld(w.device, x.setting);
    }
  }

  /** The device shows `q0` and echoes its revision. Then come any edits, overrides, day changes and ticks, none of
      whose pushes fully succeeds, and the effective payload is `q0` again. Nothing is resent; and the device shows
      `q0` exactly when, on each of its settings, the last write timekpr accepted since (if any) was of `q0`'s value. */
  lemma ReturnIsSafeIff(rev: Digest, w: World, events: seq<Event>, q0: Policy)
    requires HubPolicy(w.standing) && (forall e | e in events :: Admissible(e))
    requires Holds(rev, q0, w) && AllFail(rev, w, events) && Run(rev, w, events).Effective() == q0
    ensures var r := Run(rev, w, events);
            && Sent(rev, r).None?
            && (ShowsPolicy(q0, r.device) <==> LeftAsBefore(rev, w, events, q0))
  {
    hide AllFail, Run, LeftAsBefore, ShowsPolicy;
    FailuresKeepEcho(rev, w, events);
    ShowsIffLeftAsBefore(rev, w, events, q0);
  }

  lemma ViewOfHeld(d: Device, s: Setting)
    ensures View(d, s) == if Held(d, s).Some? then Some(Show(Held(d, s).value)) else None
  {
  }

  lemma StepLands(accept: Acceptance, readable: bool, q: Policy, d: Device, x: PolicyPush.Step)
    requires HubPolicy(q) && x in Steps(q)
    ensures View(Push(accept, q, SnapshotOf(readable, d), d).device, x.setting) ==
            if Accepts(accept, x.setting, x.desired) then Some(Show(x.desired)) else View(d, x.setting)
  {
    var steps := Steps(q);
    StepsDistinct(q);
    hide Accepts, Show, Skipped, Steps, Readback;
    var k :| 0 <= k < |steps| && steps[k] == x;
    EachSettingSettles(accept, q, SnapshotOf(readable, d), steps, d, k);
    UnreadableSkipsNothing(q, x);
    if Skipped(q, SnapshotOf(readable, d), x) {
      SkippedShows(q, d, x);
    }
  }

  /** From a world just ticked on a day with override `a`: the next day's override `b` is pushed, and a week
      after the first day the same override `a` is set again. */
  ghost function AWeekLater(rev: Digest, w: World, accept: Acceptance, a: seq<HourRecord>, b: seq<HourRecord>): World
    requires HubPolicy(w.standing)
  {
    Step(rev, Step(rev, NextDayTick(rev, w, accept, b), Advance(6)), SetOverride(w.today + 7, a))
  }

  ghost function NextDayTick(rev: Digest, w: World, accept: Acceptance, b: seq<HourRecord>): World
    requires HubPolicy(w.standing)
  {
    Step(rev, NextDay(w, b), Enforced(accept, true))
  }

  function NextDay(w: World, b: seq<HourRecord>): World {
    w.(today := w.today + 1, overrides := w.overrides[w.today + 1 := b])
  }

  lemma HoursStepOf(q: Policy, weekday: Weekday)
    requires HubPolicy(q) && |q.allowedHours| == 7 && forall i: int | 0 <= i < 7 :: q.allowedHours[i].day == i + 1
    ensures PolicyPush.Step.Step(HoursOf(weekday), Hours(HoursToDbusPayload(q.allowedHours[weekday - 1].records))) in Steps(q)
  {
    hide HoursToDbusPayload;
    assert Steps(q)[7 + weekday - 1] == HourStep(q.allowedHours[weekday - 1]);
  }

  /** The setting: the device is on `a` for today, the next day's `b` is rejected, going back is accepted. */
  ghost predicate PartlyFails(rev: Digest, w: World, accept: Acceptance, a: seq<HourRecord>, b: seq<HourRecord>) {
    var monday, tuesday := WeekdayOf(w.today), WeekdayOf(w.today + 1);
    && HubPolicy(w.standing) && Holds(rev, w.Effective(), w)
    && w.today in w.overrides && w.overrides[w.today] == a
    && monday in w.standing.Weekdays() && tuesday in w.standing.Weekdays()
    && Accepts(accept, HoursOf(monday), HoursValue(HoursOrOpen(w.standing.allowedHours, monday)))
    && !Accepts(accept, HoursOf(tuesday), HoursValue(b))
    && HoursValue(b) != HoursValue(HoursOrOpen(w.standing.allowedHours, tuesday))
    && HoursValue(a) != HoursValue(HoursOrOpen(w.standing.allowedHours, monday))
  }

  function HoursValue(records: seq<HourRecord>): Value {
    Hours(HoursToDbusPayload(records))
  }

  lemma HeldHours(rev: Digest, w: World, weekday: Weekday)
    requires HubPolicy(w.standing) && Holds(rev, w.Effective(), w)
    ensures View(w.device, HoursOf(weekday)) == ShownHours(HoursDue(w.standing, w.overrides, w.today, weekday))
  {
    EffectiveHours(w.standing, w.overrides, w.today);
    ShowsItsHours(w.Effective(), w.device, weekday - 1);
  }

  function HourStepFor(weekday: Weekday, records: seq<HourRecord>): PolicyPush.Step {
    PolicyPush.Step.Step(HoursOf(weekday), HoursValue(records))
  }

  lemma DueStep(standing: Policy, overrides: map<int, seq<HourRecord>>, day: int, weekday: Weekday)
    requires HubPolicy(standing)
    ensures var q := EffectivePayload(standing, overrides, day);
            && HubPolicy(q) && |q.allowedHours| == 7
            && q.allowedHours[weekday - 1].records == HoursDue(standing, overrides, day, weekday)
            && HourStepFor(weekday, HoursDue(standing, overrides, day, weekday)) in Steps(q)
  {
    EffectiveHours(standing, overrides, day);
    hide HoursToDbusPayload, EffectivePayload, Steps, HoursDue;
    HoursStepOf(EffectivePayload(standing, overrides, day), weekday);
  }

  /** The next day's payload differs on two weekdays: one back to standing hours, one overridden. */
  lemma NextDayPayload(standing: Policy, overrides: map<int, seq<HourRecord>>, day: int, b: seq<HourRecord>)
    requires HubPolicy(standing) && WeekdayOf(day + 1) in standing.Weekdays()
    requires b != HoursOrOpen(standing.allowedHours, WeekdayOf(day + 1))
    ensures var q0, q := EffectivePayload(standing, overrides, day), EffectivePayload(standing, overrides[day + 1 := b], day + 1);
            && HubPolicy(q) && HubPolicy(q0) && q != q0 && WeekdayOf(day) != WeekdayOf(day + 1)
            && HourStepFor(WeekdayOf(day), HoursOrOpen(standing.allowedHours, WeekdayOf(day))) in Steps(q)
            && HourStepFor(WeekdayOf(day + 1), b) in Steps(q)
  {
    hide EffectivePayload, Steps, HoursOrOpen, HubPolicy, HourStepFor;
    DueStep(standing, overrides[day + 1 := b], day + 1, WeekdayOf(day));
    DueStep(standing, overrides[day + 1 := b], day + 1, WeekdayOf(day + 1));
    DueStep(standing, overrides, day, WeekdayOf(day + 1));
  }

  lemma OneFailsOneLands(accept: Acceptance, q: Policy, d: Device, back: PolicyPush.Step, fails: PolicyPush.Step)
    requires HubPolicy(q) && back in Steps(q) && fails in Steps(q)
    requires Accepts(accept, back.setting, back.desired) && !Accepts(accept, fails.setting, fails.desired)
    requires View(d, fails.setting) != Some(Show(fails.desired))
    ensures var push := Push(accept, q, Some(Readback(d)), d);
            !push.ok && View(push.device, back.setting) == Some(Show(back.desired))
  {
    hide Steps, Show, Accepts, Push;
    SevenLimits(q);
    StepLands(accept, true, q, d, back);
    OkMeansDeviceMatches(accept, q, true, d);
    if Skipped(q, Some(Readback(d)), fails) {
      SkippedShows(q, d, fails);
    }
  }

  lemma FailedDelivery(rev: Digest, w: World, accept: Acceptance)
    requires HubPolicy(w.standing) && w.echo != rev(w.Effective()) && HubPolicy(w.Effective())
    requires !Push(accept, w.Effective(), Some(Readback(w.device)), w.device).ok
    ensures Deliver(rev, w, accept, true)
            == w.(device := Push(accept, w.Effective(), Some(Readback(w.device)), w.device).device)
  {
    hide Push;
  }

  lemma WhatPartlyFailsGives(rev: Digest, w: World, accept: Acceptance, a: seq<HourRecord>, b: seq<HourRecord>)
    requires PartlyFails(rev, w, accept, a, b)
    ensures var back := HourStepFor(WeekdayOf(w.today), HoursOrOpen(w.standing.allowedHours, WeekdayOf(w.today)));
            var fails := HourStepFor(WeekdayOf(w.today + 1), b);
            && HubPolicy(w.standing) && w.echo == rev(w.Effective())
            && WeekdayOf(w.today + 1) in w.standing.Weekdays()
            && b != HoursOrOpen(w.standing.allowedHours, WeekdayOf(w.today + 1))
            && Accepts(accept, back.setting, back.desired) && !Accepts(accept, fails.setting, fails.desired)
            && View(w.device, fails.setting) != Some(Show(fails.desired))
            && Some(Show(back.desired)) == ShownHours(HoursOrOpen(w.standing.allowedHours, WeekdayOf(w.today)))
            && back.setting == HoursOf(WeekdayOf(w.today))
  {
    hide HubPolicy, ShowsPolicy, EffectivePayload, HoursOrOpen, HoursToDbusPayload, Accepts;
    HeldHours(rev, w, WeekdayOf(w.today + 1));
  }

  lemma DifferentRevisions(rev: Digest, p: Policy, q: Policy)
    requires Injective(rev) && p != q
    ensures rev(p) != rev(q)
  {
  }

  lemma NextDayPushFails(rev: Digest, w: World, accept: Acceptance, a: seq<HourRecord>, b: seq<HourRecord>)
    requires Injective(rev) && PartlyFails(rev, w, accept, a, b)
    ensures HubPolicy(w.standing)
    ensures var r, monday := NextDayTick(rev, w, accept, b), WeekdayOf(w.today);
            && r == NextDay(w, b).(device := r.device)
            && View(r.device, HoursOf(monday)) == ShownHours(HoursOrOpen(w.standing.allowedHours, monday))
  {
    hide PartlyFails, HoursToDbusPayload, EffectivePayload, ShowsPolicy, Steps, HoursOrOpen, Readback, HubPolicy,
         Push, Deliver, Accepts, Injective, View, Show, ShownHours, HoursValue, HourStepFor, WeekdayOf;
    WhatPartlyFailsGives(rev, w, accept, a, b);
    var next := NextDay(w, b);
    NextDayPayload(w.standing, w.overrides, w.today, b);
    OneFailsOneLands(accept, next.Effective(), w.device,
      HourStepFor(WeekdayOf(w.today), HoursOrOpen(w.standing.allowedHours, WeekdayOf(w.today))),
      HourStepFor(WeekdayOf(w.today + 1), b));
    DifferentRevisions(rev, w.Effective(), next.Effective());
    FailedDelivery(rev, next, accept);
  }

  lemma SamePayloadAWeekLater(w: World, a: seq<HourRecord>, b: seq<HourRecord>)
    requires w.today in w.overrides && w.overrides[w.today] == a
    ensures var later := NextDay(w, b).(today := w.today + 7, overrides := NextDay(w, b).overrides[w.today + 7 := a]);
            later.Effective() == w.Effective()
  {
    hide WithDayHourOverride;
    assert WeekdayOf(w.today + 7) == WeekdayOf(w.today);
  }

  /** Returning to an earlier payload after a partly failed push: the old echo matches again, nothing is
      resent, and the device keeps the wrong hours on that weekday. */
  lemma ReturnAfterFailureIsNotResent(rev: Digest, w: World, accept: Acceptance, a: seq<HourRecord>, b: seq<HourRecord>)
    requires Injective(rev) && PartlyFails(rev, w, accept, a, b)
    ensures var r, monday := AWeekLater(rev, w, accept, a, b), WeekdayOf(w.today);
            && Sent(rev, r).None?
            && HoursDue(r.standing, r.overrides, r.today, monday) == a
            && View(r.device, HoursOf(monday)) != ShownHours(a)
  {
    hide HoursToDbusPayload, HoursOrOpen, EffectivePayload, ShowsPolicy, HubPolicy, NextDayTick, Accepts;
    NextDayPushFails(rev, w, accept, a, b);
    SamePayloadAWeekLater(w, a, b);
    assert WeekdayOf(w.today + 7) == WeekdayOf(w.today);
  }

  // ---------- that setting, concretely ----------

  const MORNING := [HourRecord(8, 0, 60, false)]
  const EVENING := [HourRecord(18, 0, 60, false)]

  function PlainPolicy(): Policy {
    Policy(1, seq(7, i => 3600), [], ALL_WEEKDAYS, 25200, 126000, "lock", "", "", false, false,
           Some(Playtime(false, false, true, ALL_WEEKDAYS, [], [])), "")
  }

  function AllButTuesdayEvening(s: Setting, v: Value): bool {
    !(s == HoursOf(2) && v == HoursValue(EVENING))
  }

  lemma PlainHours()
    ensures UnrestrictedRecords() != []
    ensures HoursValue(UnrestrictedRecords()) != HoursValue(MORNING)
    ensures HoursValue(UnrestrictedRecords()) != HoursValue(EVENING) && HoursValue(MORNING) != HoursValue(EVENING)
    ensures HoursValue(MORNING) != HoursValue([]) && HoursValue(UnrestrictedRecords()) != HoursValue([])
  {
    var all := UnrestrictedRecords();
    assert all == Expand(Unrestricted()[0]) + ExpandAll(Unrestricted()[1..]);
    assert all[0].hour == 0;
    PayloadKeys(all);
    PayloadKeys(MORNING);
    PayloadKeys(EVENING);
    assert 0 in HoursToDbusPayload(all);
  }

  /** A device nothing was ever pushed to, on a Monday. */
  function NewWorld(): World {
    World(PlainPolicy(), map[], 0, "", map[])
  }

  /** The first day's hours are overridden, and the device ticks. */
  function FirstEvents(): seq<Event> {
    [SetOverride(0, MORNING), Enforced(AllButTuesdayEvening, true)]
  }

  /** From a new device that refuses the Tuesday evening hours, this run leads there. */
  lemma PartlyFailingRun(rev: Digest)
    requires Injective(rev)
    ensures HubPolicy(NewWorld().standing) && forall e | e in FirstEvents() :: Admissible(e)
    ensures PartlyFails(rev, Run(rev, NewWorld(), FirstEvents()), AllButTuesdayEvening, MORNING, EVENING)
  {
    var w0 := World(PlainPolicy(), map[0 := MORNING], 0, "", map[]);
    FirstDeliveryClean(rev, w0);
    hide Deliver, HubPolicy, PartlyFails, PlainPolicy, AllButTuesdayEvening, CleanStep, Injective, Clean, Run;
    FirstDeliveryPartlyFails(rev, w0);
    assert NewWorld().(overrides := NewWorld().overrides[0 := MORNING]) == w0;
    OverrideThenTick(rev, NewWorld(), w0, FirstEvents()[0], FirstEvents()[1]);
    assert FirstEvents() == [FirstEvents()[0], FirstEvents()[1]];
  }

  lemma OverrideThenTick(rev: Digest, w: World, w': World, setIt: Event, tick: Event)
    requires HubPolicy(w.standing) && setIt.SetOverride? && tick.Enforced?
    requires w' == w.(overrides := w.overrides[setIt.day := setIt.records])
    ensures forall e | e in [setIt, tick] :: Admissible(e)
    ensures Run(rev, w, [setIt, tick]) == Deliver(rev, w', tick.accept, tick.readable)
  {
    hide Deliver, HubPolicy;
    LastStep(rev, w, [setIt], tick);
    LastStep(rev, w, [], setIt);
    assert [setIt] + [tick] == [setIt, tick] && [] + [setIt] == [setIt];
  }

  lemma FirstDeliveryPartlyFails(rev: Digest, w0: World)
    requires Injective(rev) && w0.standing == PlainPolicy() && w0.today == 0 && w0.overrides == map[0 := MORNING]
    requires w0.echo == "" && HubPolicy(w0.standing) && CleanStep(rev, w0, Enforced(AllButTuesdayEvening, true))
    ensures PartlyFails(rev, Deliver(rev, w0, AllButTuesdayEvening, true), AllButTuesdayEvening, MORNING, EVENING)
  {
    hide Deliver, Sent, Holds, HoursToDbusPayload, UnrestrictedRecords, EffectivePayload, HubPolicy, CleanStep, Injective;
    DeliverCleanly(rev, w0, AllButTuesdayEvening, true);
    var w := Deliver(rev, w0, AllButTuesdayEvening, true);
    PlainHours();
    RecordsAccepted(1, UnrestrictedRecords());
    assert HoursOrOpen(w.standing.allowedHours, 1) == HoursOrOpen(w.standing.allowedHours, 2) == UnrestrictedRecords();
    assert WeekdayOf(0) == 1 && WeekdayOf(1) == 2;
    assert !Accepts(AllButTuesdayEvening, HoursOf(2), HoursValue(EVENING)) by {
      assert !AllButTuesdayEvening(HoursOf(2), HoursValue(EVENING));
    }
    assert PartlyFails(rev, w, AllButTuesdayEvening, MORNING, EVENING);
  }

  lemma FirstDeliveryClean(rev: Digest, w: World)
    requires w.standing == PlainPolicy() && w.today == 0 && w.overrides == map[0 := MORNING]
    ensures HubPolicy(w.standing) && CleanStep(rev, w, Enforced(AllButTuesdayEvening, true))
  {
    FirstPayload(w.overrides);
    hide EffectivePayload, Push, UnrestrictedRecords, HoursToDbusPayload, Readback, ShowsPolicy, PlainPolicy, Steps,
         HubPolicy, Accepts, AllButTuesdayEvening;
    var q := EffectivePayload(w.standing, w.overrides, 0);
    SevenLimits(q);
    OkMeansDeviceMatches(AllButTuesdayEvening, q, true, w.device);
    EveryStepAccepted(q);
  }

  lemma FirstPayload(overrides: map<int, seq<HourRecord>>)
    requires overrides == map[0 := MORNING]
    ensures HubPolicy(PlainPolicy())
    ensures var q := EffectivePayload(PlainPolicy(), overrides, 0);
            && HubPolicy(q) && |q.allowedHours| == 7
            && forall i: int | 0 <= i < 7 ::
                 q.allowedHours[i].records == MORNING || q.allowedHours[i].records == UnrestrictedRecords()
  {
    hide UnrestrictedRecords, EffectivePayload;
    EffectiveHours(PlainPolicy(), overrides, 0);
  }

  lemma RecordsAccepted(weekday: Weekday, records: seq<HourRecord>)
    requires records == MORNING || records == UnrestrictedRecords()
    ensures Accepts(AllButTuesdayEvening, HoursOf(weekday), HoursValue(records))
  {
    PlainHours();
    hide UnrestrictedRecords, HoursToDbusPayload;
    assert HoursToDbusPayload([]) == map[] by { PayloadKeys([]); }
    assert AllButTuesdayEvening(HoursOf(weekday), HoursValue(records));
  }

  lemma EveryStepAccepted(q: Policy)
    requires HubPolicy(q) && |q.allowedHours| == 7
    requires forall i | 0 <= i < 7 :: q.allowedHours[i].records == MORNING || q.allowedHours[i].records == UnrestrictedRecords()
    ensures forall x | x in Steps(q) :: Accepts(AllButTuesdayEvening, x.setting, x.desired)
  {
    hide UnrestrictedRecords, HoursToDbusPayload, Project, LockoutValue;
    forall i | 0 <= i < |Steps(q)|
      ensures Accepts(AllButTuesdayEvening, Steps(q)[i].setting, Steps(q)[i].desired)
    {
      if i < 7 {
        assert Steps(q)[i] == FixedSteps(q)[i];
        assert LockoutValue(q).Locking? by { LockoutIsLocking(q); }
      } else if i < 14 {
        assert Steps(q)[i] == HourStep(q.allowedHours[i - 7]);
        RecordsAccepted(q.allowedHours[i - 7].day, q.allowedHours[i - 7].records);
      } else {
        assert Steps(q)[i] == PlaytimeSteps(q.playtime)[i - 14];
      }
    }
  }

  lemma LockoutIsLocking(q: Policy)
    ensures LockoutValue(q).Locking?
  {
  }
}
