/**
 * What a policy push achieves: the diffed push refines the full one, success means the device shows
 * the payload, stuck setters are retried alone, and limits stay aligned with their weekdays.
 */
module PushProperties {
  import opened Basics
  import opened AllowedHoursCodec
  import opened PolicyPush

  // ---------- the readback ----------

  /** What the device shows of one setting. */
  function View(d: Device, s: Setting): Option<Shown> {
    if s in d then Some(Show(d[s])) else None
  }

  /** What the device holds of one setting, shown or not. */
  function Held(d: Device, s: Setting): Option<Value> {
    if s in d then Some(d[s]) else None
  }

  /** Written values compare equal when read back, unless a ';' in the wake window moves the split. */
  predicate ReadsBack(desired: Value) {
    desired.Locking? && desired.kind == SUSPENDWAKE ==> ';' !in desired.wakeFrom
  }

  lemma {:induction false} SplitUndoesJoin(a: string, b: string)
    requires ';' !in a
    ensures SplitOnce(a + ";" + b) == [a, b]
  {
    if a == "" {
      assert a + ";" + b == ";" + b;
    } else {
      SplitUndoesJoin(a[1..], b);
      assert (a + ";" + b)[1..] == a[1..] + ";" + b;
      assert [a[0]] + a[1..] == a;
    }
  }

  lemma SplitIff(text: string, a: string, b: string)
    ensures SplitOnce(text) == [a, b] <==> text == a + ";" + b && ';' !in a
  {
    if SplitOnce(text) == [a, b] {
      assert SplitOnce(text)[0] == a && SplitOnce(text)[1] == b;
    }
    if ';' !in a {
      SplitUndoesJoin(a, b);
    }
  }

  lemma WindowWordsIff(kind: string, text: string, k: string, a: string, b: string)
    ensures [kind] + SplitOnce(text) == [k, a, b] <==> kind == k && text == a + ";" + b && ';' !in a
  {
    SplitIff(text, a, b);
    var words := [kind] + SplitOnce(text);
    assert words[1..] == SplitOnce(text);
    assert [k, a, b] == [k] + [a, b] && [k, a, b][1..] == [a, b];
  }

  /** A step is recognised as done exactly when the device shows its value and that value reads back. */
  lemma MatchesIff(d: Device, s: Setting, desired: Value)
    ensures Matches(Some(Readback(d)), s, desired) <==> View(d, s) == Some(Show(desired)) && ReadsBack(desired)
  {
    if desired.Locking? && s in d && Show(d[s]).Lock? {
      LockMatchesIff(d, s, desired);
    }
  }

  lemma LockMatchesIff(d: Device, s: Setting, desired: Value)
    requires desired.Locking? && s in d && Show(d[s]).Lock?
    ensures Matches(Some(Readback(d)), s, desired) <==> View(d, s) == Some(Show(desired)) && ReadsBack(desired)
  {
    hide SplitOnce;
    var shown := Show(d[s]);
    assert Readback(d)[s] == shown;
    if desired.kind == SUSPENDWAKE {
      if shown.wake.Some? {
        WindowWordsIff(shown.kind, shown.wake.value, desired.kind, desired.wakeFrom, desired.wakeTo);
      }
    } else {
      assert [shown.kind] == [desired.kind] <==> shown.kind == desired.kind;
    }
  }

  // ---------- where each step lands ----------

  ghost predicate DistinctSettings(steps: seq<Step>) {
    forall i, j | 0 <= i < j < |steps| :: steps[i].setting != steps[j].setting
  }

  lemma StepsDistinct(p: Policy)
    requires p.Valid() && |p.dailyLimits| == 7
    ensures DistinctSettings(Steps(p))
  {
    hide HoursToDbusPayload, Project, LockoutValue;
    var steps := Steps(p);
    var base := 7 + |p.allowedHours|;
    forall i, j | 0 <= i < j < |steps|
      ensures steps[i].setting != steps[j].setting
    {
      assert i < 7 ==> steps[i] == FixedSteps(p)[i];
      assert j < 7 ==> steps[j] == FixedSteps(p)[j];
      assert 7 <= i < base ==> steps[i] == HourStep(p.allowedHours[i - 7]);
      assert 7 <= j < base ==> steps[j] == HourStep(p.allowedHours[j - 7]);
      assert i >= base ==> steps[i] == PlaytimeSteps(p.playtime)[i - base];
      assert j >= base ==> steps[j] == PlaytimeSteps(p.playtime)[j - base];
    }
  }

  predicate Mentions(steps: seq<Step>, s: Setting) {
    exists k :: 0 <= k < |steps| && steps[k].setting == s
  }

  lemma {:induction false} OtherSettingsStay(accept: Acceptance, p: Policy, snapshot: Option<Snapshot>, steps: seq<Step>,
                                             d: Device, s: Setting)
    requires !Mentions(steps, s)
    ensures Held(TakeSteps(accept, p, snapshot, steps, d).device, s) == Held(d, s)
  {
    if steps != [] {
      var before := steps[..|steps| - 1];
      assert forall k | 0 <= k < |before| :: steps[k] == before[k];
      assert steps[|steps| - 1].setting != s;
      OtherSettingsStay(accept, p, snapshot, before, d, s);
    }
  }

  /** The setting holds the desired value if its write was issued and accepted, else what it held before. */
  ghost predicate Settled(accept: Acceptance, p: Policy, snapshot: Option<Snapshot>, x: Step, d: Device, d': Device) {
    Held(d', x.setting) ==
      if !Skipped(p, snapshot, x) && Accepts(accept, x.setting, x.desired) then Some(x.desired)
      else Held(d, x.setting)
  }

  lemma {:induction false} EachSettingSettles(accept: Acceptance, p: Policy, snapshot: Option<Snapshot>, steps: seq<Step>,
                                              d: Device, k: nat)
    requires DistinctSettings(steps) && k < |steps|
    ensures Settled(accept, p, snapshot, steps[k], d, TakeSteps(accept, p, snapshot, steps, d).device)
  {
    hide Skipped, Accepts;
    var n := |steps| - 1;
    var before := steps[..n];
    assert forall i | 0 <= i < n :: steps[i] == before[i];
    if k < n {
      EachSettingSettles(accept, p, snapshot, before, d, k);
    } else {
      OtherSettingsStay(accept, p, snapshot, before, d, steps[n].setting);
    }
  }

  // ---------- which steps are issued ----------

  function Issued(p: Policy, snapshot: Option<Snapshot>, steps: seq<Step>): seq<Step> {
    if steps == [] then []
    else
      var x := steps[|steps| - 1];
      Issued(p, snapshot, steps[..|steps| - 1]) + if Skipped(p, snapshot, x) then [] else [x]
  }

  function SettingsOf(steps: seq<Step>): (r: seq<Setting>)
    ensures |r| == |steps|
  {
    if steps == [] then [] else SettingsOf(steps[..|steps| - 1]) + [steps[|steps| - 1].setting]
  }

  predicate AllAccepted(accept: Acceptance, steps: seq<Step>) {
    forall x | x in steps :: Accepts(accept, x.setting, x.desired)
  }

  lemma SettingsOfOneMore(steps: seq<Step>, x: Step)
    ensures SettingsOf(steps + [x]) == SettingsOf(steps) + [x.setting]
  {
    assert (steps + [x])[..|steps|] == steps;
  }

  /** The call log and the counts in terms of the steps that were issued. */
  lemma {:induction false} CallsAreIssuedSteps(accept: Acceptance, p: Policy, snapshot: Option<Snapshot>, steps: seq<Step>,
                                               d: Device)
    ensures var st, issued := TakeSteps(accept, p, snapshot, steps, d), Issued(p, snapshot, steps);
            && st.called == SettingsOf(issued) && st.applied == |issued| && st.skipped == |steps| - |issued|
  {
    hide Skipped, Accepts, SettingsOf;
    if steps != [] {
      var before, x := steps[..|steps| - 1], steps[|steps| - 1];
      CallsAreIssuedSteps(accept, p, snapshot, before, d);
      SettingsOfOneMore(Issued(p, snapshot, before), x);
      assert Issued(p, snapshot, before) + [] == Issued(p, snapshot, before);
    } else {
      assert SettingsOf([]) == [];
    }
  }

  /** The verdict: no step is listed as failed exactly when every issued one was accepted. */
  lemma {:induction false} VerdictIsAcceptance(accept: Acceptance, p: Policy, snapshot: Option<Snapshot>, steps: seq<Step>,
                                               d: Device)
    ensures var st, issued := TakeSteps(accept, p, snapshot, steps, d), Issued(p, snapshot, steps);
            (st.ok <==> st.failed == []) && (st.ok <==> AllAccepted(accept, issued))
  {
    hide Skipped, Accepts;
    if steps != [] {
      var before, x := steps[..|steps| - 1], steps[|steps| - 1];
      VerdictIsAcceptance(accept, p, snapshot, before, d);
      AllAcceptedOneMore(accept, Issued(p, snapshot, before), x);
    }
  }

  lemma AllAcceptedOneMore(accept: Acceptance, steps: seq<Step>, x: Step)
    ensures AllAccepted(accept, steps + [x]) <==> AllAccepted(accept, steps) && Accepts(accept, x.setting, x.desired)
    ensures steps + [] == steps
  {
    hide Accepts;
    assert forall y | y in steps :: y in steps + [x];
    assert x in steps + [x];
  }

  lemma {:induction false} IssuedMembers(p: Policy, snapshot: Option<Snapshot>, steps: seq<Step>)
    ensures forall x :: x in Issued(p, snapshot, steps) <==> x in steps && !Skipped(p, snapshot, x)
    ensures snapshot.None? ==> Issued(p, snapshot, steps) == steps
  {
    hide Skipped;
    if steps != [] {
      var before, x := steps[..|steps| - 1], steps[|steps| - 1];
      IssuedMembers(p, snapshot, before);
      UnreadableSkipsNothing(p, x);
      assert steps == before + [x];
      forall y
        ensures y in Issued(p, snapshot, steps) <==> y in steps && !Skipped(p, snapshot, y)
      {
        assert y in steps <==> y in before || y == x;
        assert y in Issued(p, snapshot, steps) <==> y in Issued(p, snapshot, before) || (y == x && !Skipped(p, snapshot, x));
      }
    }
  }

  lemma UnreadableSkipsNothing(p: Policy, x: Step)
    ensures !Skipped(p, None, x)
  {
  }

  lemma SkippedShows(p: Policy, d: Device, x: Step)
    requires Skipped(p, Some(Readback(d)), x)
    ensures View(d, x.setting) == Some(Show(x.desired)) && ReadsBack(x.desired)
  {
    MatchesIff(d, x.setting, x.desired);
  }

  // ---------- the diffed push refines the full push ----------

  /** The same device as calling every setter, as far as the device can show, with a subset of the calls. */
  lemma DiffedPushRefinesFullPush(accept: Acceptance, p: Policy, d: Device)
    requires p.Valid()
    ensures var diffed, full := Push(accept, p, Some(Readback(d)), d), Push(accept, p, None, d);
            && Readback(diffed.device) == Readback(full.device)
            && (forall s | s in diffed.called :: s in full.called) && |diffed.called| <= |full.called|
            && (|p.dailyLimits| == 7 ==> full.called == SettingsOf(Steps(p)))
            && (full.ok ==> diffed.ok)
  {
    if |p.dailyLimits| == 7 {
      var steps := Steps(p);
      StepsDistinct(p);
      hide Skipped, Accepts, Steps, Show;
      SameView(accept, p, steps, d);
      CallsAreIssuedSteps(accept, p, Some(Readback(d)), steps, d);
      CallsAreIssuedSteps(accept, p, None, steps, d);
      VerdictIsAcceptance(accept, p, Some(Readback(d)), steps, d);
      VerdictIsAcceptance(accept, p, None, steps, d);
      IssuedMembers(p, Some(Readback(d)), steps);
      IssuedMembers(p, None, steps);
      SettingsOfMembers(Issued(p, Some(Readback(d)), steps), steps);
    }
  }

  lemma {:induction false} SettingsOfMembers(a: seq<Step>, b: seq<Step>)
    requires forall x | x in a :: x in b
    ensures forall s | s in SettingsOf(a) :: s in SettingsOf(b)
    decreases |a|
  {
    if a != [] {
      var n := |a| - 1;
      assert forall x | x in a[..n] :: x in a;
      SettingsOfMembers(a[..n], b);
      SettingsOfHas(b, a[n]);
    }
  }

  lemma {:induction false} SettingsOfHas(b: seq<Step>, x: Step)
    requires x in b
    ensures x.setting in SettingsOf(b)
  {
    var n := |b| - 1;
    if b[n] != x {
      SettingsOfHas(b[..n], x);
    }
  }

  lemma SameView(accept: Acceptance, p: Policy, steps: seq<Step>, d: Device)
    requires DistinctSettings(steps)
    ensures Readback(TakeSteps(accept, p, Some(Readback(d)), steps, d).device)
            == Readback(TakeSteps(accept, p, None, steps, d).device)
  {
    hide Skipped, Accepts, Show;
    var a := TakeSteps(accept, p, Some(Readback(d)), steps, d).device;
    var b := TakeSteps(accept, p, None, steps, d).device;
    forall s: Setting
      ensures View(a, s) == View(b, s)
    {
      if Mentions(steps, s) {
        var k :| 0 <= k < |steps| && steps[k].setting == s;
        EachSettingSettles(accept, p, Some(Readback(d)), steps, d, k);
        EachSettingSettles(accept, p, None, steps, d, k);
        UnreadableSkipsNothing(p, steps[k]);
        if Skipped(p, Some(Readback(d)), steps[k]) {
          SkippedShows(p, d, steps[k]);
        }
      } else {
        OtherSettingsStay(accept, p, Some(Readback(d)), steps, d, s);
        OtherSettingsStay(accept, p, None, steps, d, s);
      }
    }
    ViewsMakeReadback(a, b);
  }

  lemma ViewsMakeReadback(a: Device, b: Device)
    requires forall s: Setting :: View(a, s) == View(b, s)
    ensures Readback(a) == Readback(b)
  {
    forall s: Setting
      ensures s in a <==> s in b
      ensures s in a ==> Show(a[s]) == Show(b[s])
    {
      assert View(a, s) == View(b, s);
    }
  }

  // ---------- what success means ----------

  ghost predicate ShowsPolicy(p: Policy, d: Device)
    requires p.Valid() && |p.dailyLimits| == 7
  {
    forall x | x in Steps(p) :: View(d, x.setting) == Some(Show(x.desired))
  }

  function SnapshotOf(readable: bool, d: Device): Option<Snapshot> {
    if readable then Some(Readback(d)) else None
  }

  /** A push succeeds exactly when the payload has seven limits and every issued write was accepted;
      it then lists no failed step, and the device shows the payload on every compared field. */
  lemma OkMeansDeviceMatches(accept: Acceptance, p: Policy, readable: bool, d: Device)
    requires p.Valid()
    ensures var push := Push(accept, p, SnapshotOf(readable, d), d);
            && (push.ok <==> push.failed == [])
            && (push.ok <==>
                  |p.dailyLimits| == 7 && forall x | x in Steps(p) && !Skipped(p, SnapshotOf(readable, d), x) ::
                    Accepts(accept, x.setting, x.desired))
            && (push.ok ==> ShowsPolicy(p, push.device))
  {
    if |p.dailyLimits| == 7 {
      var steps, snapshot := Steps(p), SnapshotOf(readable, d);
      StepsDistinct(p);
      hide Skipped, Accepts, Steps, Show, Readback;
      VerdictIsAcceptance(accept, p, snapshot, steps, d);
      IssuedMembers(p, snapshot, steps);
      var push := TakeSteps(accept, p, snapshot, steps, d);
      forall x | push.ok && x in steps
        ensures View(push.device, x.setting) == Some(Show(x.desired))
      {
        var k :| 0 <= k < |steps| && steps[k] == x;
        EachSettingSettles(accept, p, snapshot, steps, d, k);
        UnreadableSkipsNothing(p, x);
        if Skipped(p, snapshot, x) {
          SkippedShows(p, d, x);
        }
      }
    }
  }

  /** The weekdays a list stands for: itself, or all seven when it is empty. */
  predicate StandsFor(listed: seq<Weekday>, days: seq<Weekday>) {
    if listed == [] then days == [1, 2, 3, 4, 5, 6, 7] else days == listed
  }

  /** One limit for each of `days`, each that weekday's own; 0 throughout when no limits are given. */
  predicate LimitsFor(dailyLimits: seq<int>, days: seq<Weekday>, limits: seq<int>)
    requires |dailyLimits| == 0 || |dailyLimits| == 7
  {
    |limits| == |days| && forall i | 0 <= i < |days| :: limits[i] == if dailyLimits == [] then 0 else dailyLimits[days[i] - 1]
  }

  /** A device that shows the payload, field by field: its weekdays and each one's limit, its other limits and
      switches, its lockout type, the wake window when that is read, and the hours of every weekday it mentions. */
  lemma ShownFields(p: Policy, d: Device)
    requires p.Valid() && |p.dailyLimits| == 7 && ShowsPolicy(p, d)
    ensures AllowedDays in d && d[AllowedDays].Days? && StandsFor(p.allowedWeekdays, d[AllowedDays].days)
    ensures LimitsForDays in d && d[LimitsForDays].Limits?
            && LimitsFor(p.dailyLimits, d[AllowedDays].days, d[LimitsForDays].limits)
    ensures LimitForWeek in d && d[LimitForWeek] == Amount(p.weeklyLimit)
    ensures LimitForMonth in d && d[LimitForMonth] == Amount(p.monthlyLimit)
    ensures TrackInactive in d && d[TrackInactive] == Flag(p.trackInactive)
    ensures HideTray in d && d[HideTray] == Flag(p.hideTray)
    ensures Lockout in d && d[Lockout].Locking? && d[Lockout].kind == (if p.lockoutType == "" then "lock" else p.lockoutType)
    ensures d[Lockout].kind == SUSPENDWAKE ==>
              && d[Lockout].wakeFrom + ";" + d[Lockout].wakeTo
                 == (if p.wakeFrom == "" then "0" else p.wakeFrom) + ";" + (if p.wakeTo == "" then "23" else p.wakeTo)
    ensures forall i | 0 <= i < |p.allowedHours| ::
              View(d, HoursOf(p.allowedHours[i].day)) == Some(Plain(Hours(HoursToDbusPayload(p.allowedHours[i].records))))
  {
    FixedPlaces(p);
    var steps := Steps(p);
    assert forall k | 0 <= k < |steps| :: steps[k] in steps;
    PlainShown(d, AllowedDays, Days(p.Weekdays()));
    PlainShown(d, LimitsForDays, Limits(Project(p.dailyLimits, p.Weekdays())));
    PlainShown(d, LimitForWeek, Amount(p.weeklyLimit));
    PlainShown(d, LimitForMonth, Amount(p.monthlyLimit));
    PlainShown(d, TrackInactive, Flag(p.trackInactive));
    PlainShown(d, HideTray, Flag(p.hideTray));
    assert View(d, Lockout) == Some(Show(LockoutValue(p)));
    hide HoursToDbusPayload, Steps;
    forall i | 0 <= i < |p.allowedHours|
      ensures View(d, HoursOf(p.allowedHours[i].day)) == Some(Plain(Hours(HoursToDbusPayload(p.allowedHours[i].records))))
    {
      HourPlaces(p, i);
    }
  }

  lemma PlainShown(d: Device, s: Setting, v: Value)
    requires !v.Locking?
    ensures View(d, s) == Some(Show(v)) <==> Held(d, s) == Some(v)
  {
  }

  /** So after a successful push; a weekday the payload does not mention is left as it was. */
  lemma OkMeansEveryField(accept: Acceptance, p: Policy, readable: bool, d: Device)
    requires p.Valid() && Push(accept, p, SnapshotOf(readable, d), d).ok
    ensures var d' := Push(accept, p, SnapshotOf(readable, d), d).device;
            && AllowedDays in d' && d'[AllowedDays].Days? && StandsFor(p.allowedWeekdays, d'[AllowedDays].days)
            && LimitsForDays in d' && d'[LimitsForDays].Limits?
            && LimitsFor(p.dailyLimits, d'[AllowedDays].days, d'[LimitsForDays].limits)
            && LimitForWeek in d' && d'[LimitForWeek] == Amount(p.weeklyLimit)
            && LimitForMonth in d' && d'[LimitForMonth] == Amount(p.monthlyLimit)
            && TrackInactive in d' && d'[TrackInactive] == Flag(p.trackInactive)
            && HideTray in d' && d'[HideTray] == Flag(p.hideTray)
            && Lockout in d' && d'[Lockout].Locking?
            && d'[Lockout].kind == (if p.lockoutType == "" then "lock" else p.lockoutType)
            && (d'[Lockout].kind == SUSPENDWAKE ==>
                  d'[Lockout].wakeFrom + ";" + d'[Lockout].wakeTo
                  == (if p.wakeFrom == "" then "0" else p.wakeFrom) + ";" + (if p.wakeTo == "" then "23" else p.wakeTo))
            && (forall i | 0 <= i < |p.allowedHours| ::
                  View(d', HoursOf(p.allowedHours[i].day)) == Some(Plain(Hours(HoursToDbusPayload(p.allowedHours[i].records)))))
            && (forall day: Weekday | (forall i | 0 <= i < |p.allowedHours| :: p.allowedHours[i].day != day) ::
                  View(d', HoursOf(day)) == View(d, HoursOf(day)))
  {
    OkMeansDeviceMatches(accept, p, readable, d);
    hide HoursToDbusPayload, Push, ShowsPolicy, View;
    ShownFields(p, Push(accept, p, SnapshotOf(readable, d), d).device);
    forall day: Weekday | forall i | 0 <= i < |p.allowedHours| :: p.allowedHours[i].day != day
      ensures View(Push(accept, p, SnapshotOf(readable, d), d).device, HoursOf(day)) == View(d, HoursOf(day))
    {
      AbsentDayStays(accept, p, readable, d, day);
    }
  }

  /** A weekday absent from the payload is never written, whether the push succeeds or not. */
  lemma AbsentDayStays(accept: Acceptance, p: Policy, readable: bool, d: Device, day: Weekday)
    requires p.Valid() && forall i | 0 <= i < |p.allowedHours| :: p.allowedHours[i].day != day
    ensures View(Push(accept, p, SnapshotOf(readable, d), d).device, HoursOf(day)) == View(d, HoursOf(day))
  {
    if |p.dailyLimits| == 7 {
      hide HoursToDbusPayload, Project, LockoutValue;
      var steps, base := Steps(p), 7 + |p.allowedHours|;
      forall k | 0 <= k < |steps|
        ensures steps[k].setting != HoursOf(day)
      {
        assert k < 7 ==> steps[k] == FixedSteps(p)[k];
        assert 7 <= k < base ==> steps[k] == HourStep(p.allowedHours[k - 7]);
        assert k >= base ==> steps[k] == PlaytimeSteps(p.playtime)[k - base];
      }
      OtherSettingsStay(accept, p, SnapshotOf(readable, d), steps, d, HoursOf(day));
    }
  }

  /** A weekday with no records is never pushed as "nothing allowed": the push fails and the device keeps its hours. */
  lemma EmptyHoursAreRefused(accept: Acceptance, p: Policy, d: Device, i: nat)
    requires p.Valid() && |p.dailyLimits| == 7 && i < |p.allowedHours| && p.allowedHours[i].records == []
    ensures var push := Push(accept, p, None, d);
            !push.ok && View(push.device, HoursOf(p.allowedHours[i].day)) == View(d, HoursOf(p.allowedHours[i].day))
  {
    HourPlaces(p, i);
    StepsDistinct(p);
    PayloadKeys([]);
    var x := Steps(p)[7 + i];
    assert x in Steps(p) && x.desired == Hours(map[]);
    UnreadableSkipsNothing(p, x);
    hide Steps, Skipped, View, DistinctSettings, TakeSteps, ShowsPolicy, HoursToDbusPayload;
    OkMeansDeviceMatches(accept, p, false, d);
    EachSettingSettles(accept, p, None, Steps(p), d, 7 + i);
    HeldMeansView(d, Push(accept, p, None, d).device, x.setting);
  }

  lemma HeldMeansView(d: Device, d': Device, s: Setting)
    ensures Held(d', s) == Held(d, s) ==> View(d', s) == View(d, s)
  {
  }

  /** And the PlayTime fields, when the payload has them. */
  lemma OkMeansPlaytimeFields(accept: Acceptance, p: Policy, readable: bool, d: Device)
    requires p.Valid() && p.playtime.Some? && Push(accept, p, SnapshotOf(readable, d), d).ok
    ensures var d', pt := Push(accept, p, SnapshotOf(readable, d), d).device, p.playtime.value;
            && PtEnabled in d' && d'[PtEnabled] == Flag(pt.enabled)
            && PtOverride in d' && d'[PtOverride] == Flag(pt.overrideEnabled)
            && PtUnaccounted in d' && d'[PtUnaccounted] == Flag(pt.unaccounted)
            && PtAllowedDays in d' && d'[PtAllowedDays].Days? && StandsFor(pt.allowedWeekdays, d'[PtAllowedDays].days)
            && PtLimits in d' && d'[PtLimits].Limits?
            && LimitsFor(pt.dailyLimits, d'[PtAllowedDays].days, d'[PtLimits].limits)
            && PtActivities in d' && d'[PtActivities] == Activities(pt.activities)
  {
    OkMeansDeviceMatches(accept, p, readable, d);
    hide Push;
    ShownPlaytime(p, Push(accept, p, SnapshotOf(readable, d), d).device);
  }

  lemma ShownPlaytime(p: Policy, d: Device)
    requires p.Valid() && |p.dailyLimits| == 7 && p.playtime.Some? && ShowsPolicy(p, d)
    ensures var pt := p.playtime.value;
            && PtEnabled in d && d[PtEnabled] == Flag(pt.enabled)
            && PtOverride in d && d[PtOverride] == Flag(pt.overrideEnabled)
            && PtUnaccounted in d && d[PtUnaccounted] == Flag(pt.unaccounted)
            && PtAllowedDays in d && d[PtAllowedDays].Days? && StandsFor(pt.allowedWeekdays, d[PtAllowedDays].days)
            && PtLimits in d && d[PtLimits].Limits?
            && LimitsFor(pt.dailyLimits, d[PtAllowedDays].days, d[PtLimits].limits)
            && PtActivities in d && d[PtActivities] == Activities(pt.activities)
  {
    var base, pt := 7 + |p.allowedHours|, p.playtime.value;
    PlaytimePlaces(p, base);
    PtWeekdaysStandFor(pt);
    hide ShowsPolicy, Steps, Project, Playtime.Limits, PtWeekdays, StandsFor, LimitsFor, View, Show, Policy.Valid;
    PlainStepHeld(p, d, base);
    PlainStepHeld(p, d, base + 1);
    PlainStepHeld(p, d, base + 2);
    PlainStepHeld(p, d, base + 3);
    PlainStepHeld(p, d, base + 4);
    PlainStepHeld(p, d, base + 5);
  }

  lemma PlainStepHeld(p: Policy, d: Device, k: nat)
    requires p.Valid() && |p.dailyLimits| == 7 && ShowsPolicy(p, d) && k < |Steps(p)| && !Steps(p)[k].desired.Locking?
    ensures Held(d, Steps(p)[k].setting) == Some(Steps(p)[k].desired)
  {
    hide Steps;
    assert Steps(p)[k] in Steps(p);
    PlainShown(d, Steps(p)[k].setting, Steps(p)[k].desired);
  }

  lemma PtWeekdaysStandFor(pt: Playtime)
    requires pt.Valid()
    ensures StandsFor(pt.allowedWeekdays, PtWeekdays(pt))
    ensures LimitsFor(pt.dailyLimits, PtWeekdays(pt), Project(pt.Limits(), PtWeekdays(pt)))
  {
  }

  // ---------- pushing again ----------

  /** After any push from `d`, this step is still not recognised as done. */
  predicate Outstanding(accept: Acceptance, d: Device, x: Step) {
    !Accepts(accept, x.setting, x.desired) && View(d, x.setting) != Some(Show(x.desired))
  }

  /** Retried: outstanding itself, or a limits write whose weekday write is. */
  predicate Retried(accept: Acceptance, p: Policy, d: Device, x: Step) {
    Outstanding(accept, d, x) || (Leader(p, x.setting).Some? && Outstanding(accept, d, Leader(p, x.setting).value))
  }

  lemma MatchAfterPush(accept: Acceptance, p: Policy, snapshot: Option<Snapshot>, d: Device, d': Device, x: Step)
    requires ReadsBack(x.desired)
    requires Settled(accept, p, snapshot, x, d, d') && (snapshot == Some(Readback(d)) || snapshot == None)
    ensures Matches(Some(Readback(d')), x.setting, x.desired) <==> !Outstanding(accept, d, x)
    ensures Accepts(accept, x.setting, x.desired) ==> View(d', x.setting) == Some(Show(x.desired))
    ensures !Accepts(accept, x.setting, x.desired) ==> View(d', x.setting) == View(d, x.setting)
  {
    hide Accepts, Show, ReadsBack, Skipped, Matches, Readback;
    MatchesIff(d', x.setting, x.desired);
    UnreadableSkipsNothing(p, x);
    if Skipped(p, snapshot, x) {
      SkippedShows(p, d, x);
    }
  }

  lemma LeaderIsAStep(p: Policy, s: Setting)
    requires p.Valid() && |p.dailyLimits| == 7 && Leader(p, s).Some?
    ensures Leader(p, s).value in Steps(p)
  {
    FixedPlaces(p);
    if s == PtLimits {
      PlaytimePlaces(p, 7 + |p.allowedHours|);
    }
  }

  /** The device after `n` pushes of the same payload, each reading the device back first. */
  function Repeat(accept: Acceptance, p: Policy, d: Device, n: nat): Device
    requires p.Valid()
  {
    if n == 0 then d
    else
      var before := Repeat(accept, p, d, n - 1);
      Push(accept, p, Some(Readback(before)), before).device
  }

  /** The same for every device that shows `d` pushed once. */
  ghost predicate PushedOnce(accept: Acceptance, p: Policy, d: Device, d': Device)
    requires p.Valid() && |p.dailyLimits| == 7
  {
    forall x | x in Steps(p) ::
      && (Matches(Some(Readback(d')), x.setting, x.desired) <==> !Outstanding(accept, d, x))
      && View(d', x.setting) ==
         if Accepts(accept, x.setting, x.desired) then Some(Show(x.desired)) else View(d, x.setting)
  }

  lemma FirstPush(accept: Acceptance, p: Policy, d: Device)
    requires p.Valid() && |p.dailyLimits| == 7
    ensures PushedOnce(accept, p, d, Push(accept, p, Some(Readback(d)), d).device)
  {
    var steps, d' := Steps(p), Push(accept, p, Some(Readback(d)), d).device;
    StepsDistinct(p);
    StepsReadBack(p);
    hide Accepts, Show, Outstanding, Skipped, Matches, Steps, Readback, ReadsBack;
    forall x | x in steps
      ensures Matches(Some(Readback(d')), x.setting, x.desired) <==> !Outstanding(accept, d, x)
      ensures View(d', x.setting) ==
              if Accepts(accept, x.setting, x.desired) then Some(Show(x.desired)) else View(d, x.setting)
    {
      var k :| 0 <= k < |steps| && steps[k] == x;
      EachSettingSettles(accept, p, Some(Readback(d)), steps, d, k);
      MatchAfterPush(accept, p, Some(Readback(d)), d, d', x);
    }
  }

  lemma NextPush(accept: Acceptance, p: Policy, d: Device, d1: Device)
    requires p.Valid() && |p.dailyLimits| == 7 && PushedOnce(accept, p, d, d1)
    ensures PushedOnce(accept, p, d, Push(accept, p, Some(Readback(d1)), d1).device)
  {
    FirstPush(accept, p, d1);
    hide Accepts, Show, ReadsBack, Matches, Steps, Readback;
  }

  /** Every push after the first issues exactly the steps that stay outstanding, each with the limits
      write its weekday write forces. */
  lemma {:induction false} StuckSettersRetryAlone(accept: Acceptance, p: Policy, d: Device, n: nat)
    requires p.Valid() && |p.dailyLimits| == 7 && n >= 1
    ensures var again := Repeat(accept, p, d, n);
            && PushedOnce(accept, p, d, again)
            && forall x | x in Steps(p) ::
                 x in Issued(p, Some(Readback(again)), Steps(p)) <==> Retried(accept, p, d, x)
  {
    hide Accepts, Show, Outstanding, Matches, Steps, Readback;
    if n == 1 {
      FirstPush(accept, p, d);
    } else {
      StuckSettersRetryAlone(accept, p, d, n - 1);
      NextPush(accept, p, d, Repeat(accept, p, d, n - 1));
    }
    var again := Repeat(accept, p, d, n);
    IssuedMembers(p, Some(Readback(again)), Steps(p));
    forall x | x in Steps(p)
      ensures Skipped(p, Some(Readback(again)), x) <==> !Retried(accept, p, d, x)
    {
      if Leader(p, x.setting).Some? {
        LeaderIsAStep(p, x.setting);
      }
    }
  }

  /** Once a push has succeeded, pushing the same payload again writes nothing at all, however often; the wake
      window's join and split included. */
  lemma SettledPushIsSilent(accept: Acceptance, p: Policy, d: Device, n: nat)
    requires p.Valid() && n >= 1 && Push(accept, p, Some(Readback(d)), d).ok
    ensures var again := Repeat(accept, p, d, n);
            var push := Push(accept, p, Some(Readback(again)), again);
            push.called == [] && push.applied == 0 && push.ok && push.device == again
  {
    var again, steps := Repeat(accept, p, d, n), Steps(p);
    OkMeansDeviceMatches(accept, p, true, d);
    StuckSettersRetryAlone(accept, p, d, n);
    CallsAreIssuedSteps(accept, p, Some(Readback(again)), steps, again);
    IssuedMembers(p, Some(Readback(again)), steps);
    hide Accepts, Show, Matches, Steps, Readback, ReadsBack;
    var issued := Issued(p, Some(Readback(again)), steps);
    forall x | x in steps
      ensures !Outstanding(accept, d, x)
    {
      if Skipped(p, Some(Readback(d)), x) {
        SkippedShows(p, d, x);
      }
    }
    if issued != [] {
      var x := issued[0];
      assert x in issued;
      if Leader(p, x.setting).Some? {
        LeaderIsAStep(p, x.setting);
      }
      assert false;
    }
    NothingIssuedNothingChanged(accept, p, Some(Readback(again)), steps, again);
  }

  lemma {:induction false} NothingIssuedNothingChanged(accept: Acceptance, p: Policy, snapshot: Option<Snapshot>,
                                                       steps: seq<Step>, d: Device)
    requires Issued(p, snapshot, steps) == []
    ensures var st := TakeSteps(accept, p, snapshot, steps, d);
            st.ok && st.device == d
  {
    hide Skipped;
    if steps != [] {
      NothingIssuedNothingChanged(accept, p, snapshot, steps[..|steps| - 1], d);
    }
  }

  lemma WakeBoundsHaveNoSeparator(p: Policy)
    requires p.Valid()
    ensures ';' !in LockoutValue(p).wakeFrom && ';' !in LockoutValue(p).wakeTo
  {
  }

  /** Lockout is the one setting with a window, and it is the plan's seventh step. */
  lemma OnlyLockoutLocks(p: Policy)
    requires p.Valid() && |p.dailyLimits| == 7
    ensures forall x | x in Steps(p) ::
              if x.setting == Lockout then x == Step(Lockout, LockoutValue(p)) else !x.desired.Locking?
  {
    hide HoursToDbusPayload, Project, Or;
    var steps, base := Steps(p), 7 + |p.allowedHours|;
    forall i | 0 <= i < |steps|
      ensures if steps[i].setting == Lockout then steps[i] == Step(Lockout, LockoutValue(p)) else !steps[i].desired.Locking?
    {
      assert i < 7 ==> steps[i] == FixedSteps(p)[i];
      assert 7 <= i < base ==> steps[i] == HourStep(p.allowedHours[i - 7]);
      assert i >= base ==> steps[i] == PlaytimeSteps(p.playtime)[i - base];
    }
  }

  lemma StepsReadBack(p: Policy)
    requires p.Valid() && |p.dailyLimits| == 7
    ensures forall x | x in Steps(p) :: ReadsBack(x.desired)
  {
    OnlyLockoutLocks(p);
    WakeBoundsHaveNoSeparator(p);
    hide Steps, LockoutValue, Policy.Valid;
  }

  // ---------- the whole device, unread fields included ----------

  lemma JoinedWindowsAreEqual(f1: string, t1: string, f2: string, t2: string)
    requires f1 + ";" + t1 == f2 + ";" + t2 && ';' !in f2 && ';' !in t2
    ensures f1 == f2 && t1 == t2
  {
    var joined := f2 + ";" + t2;
    assert joined[|f1|] == ';' by { assert (f1 + ";" + t1)[|f1|] == ';'; }
    assert forall i | 0 <= i < |f2| :: joined[i] == f2[i];
    assert forall i | |f2| < i < |joined| :: joined[i] == t2[i - |f2| - 1];
    assert |f1| == |f2|;
    assert f1 == joined[..|f1|] && f2 == joined[..|f2|];
    assert t1 == joined[|f1| + 1..] && t2 == joined[|f2| + 1..];
  }

  /** The device is locked in the payload's way, by a type whose wake window is never read back, but holds another
      window than the payload's, which timekpr would accept. */
  predicate UnreadWindowDiffers(accept: Acceptance, p: Policy, d: Device) {
    var want := LockoutValue(p);
    && want.kind != SUSPENDWAKE
    && Lockout in d && d[Lockout].Locking? && d[Lockout].kind == want.kind && d[Lockout] != want
    && Accepts(accept, Lockout, want)
  }

  lemma SkippedHolds(p: Policy, d: Device, x: Step)
    requires !x.desired.Locking? && Skipped(p, Some(Readback(d)), x)
    ensures Held(d, x.setting) == Some(x.desired)
  {
    SkippedShows(p, d, x);
  }

  lemma LockoutSkipIff(p: Policy, d: Device)
    requires p.Valid()
    ensures var want := LockoutValue(p);
            Skipped(p, Some(Readback(d)), Step(Lockout, want)) && Held(d, Lockout) != Some(want) <==>
            want.kind != SUSPENDWAKE && Lockout in d && d[Lockout].Locking? && d[Lockout].kind == want.kind && d[Lockout] != want
  {
    var want := LockoutValue(p);
    WakeBoundsHaveNoSeparator(p);
    MatchesIff(d, Lockout, want);
    hide Matches, Policy.Valid, LockoutValue;
    if want.kind == SUSPENDWAKE && View(d, Lockout) == Some(Show(want)) {
      JoinedWindowsAreEqual(d[Lockout].wakeFrom, d[Lockout].wakeTo, want.wakeFrom, want.wakeTo);
    }
  }

  /** The diffed push leaves the very same device as calling every setter, unread fields included, exactly when
      the device does not hold another unread wake window under the payload's lockout type. */
  lemma DiffedEqualsFullIff(accept: Acceptance, p: Policy, d: Device)
    requires p.Valid()
    ensures Push(accept, p, Some(Readback(d)), d).device == Push(accept, p, None, d).device
            <==> |p.dailyLimits| != 7 || !UnreadWindowDiffers(accept, p, d)
  {
    if |p.dailyLimits| == 7 {
      DiffedEqualsFullForSeven(accept, p, d);
    }
  }

  lemma DiffedEqualsFullForSeven(accept: Acceptance, p: Policy, d: Device)
    requires p.Valid() && |p.dailyLimits| == 7
    ensures Push(accept, p, Some(Readback(d)), d).device == Push(accept, p, None, d).device
            <==> !UnreadWindowDiffers(accept, p, d)
  {
    var steps := Steps(p);
    StepsDistinct(p);
    OnlyLockoutLocks(p);
    FixedPlaces(p);
    LockoutSkipIff(p, d);
    hide Skipped, Accepts, Show, Steps, LockoutValue, Policy.Valid, Readback;
    var a, b := Push(accept, p, Some(Readback(d)), d).device, Push(accept, p, None, d).device;
    forall k | 0 <= k < |steps|
      ensures Held(a, steps[k].setting) == Held(b, steps[k].setting)
              || (steps[k].setting == Lockout && UnreadWindowDiffers(accept, p, d))
    {
      HeldAfterBoth(accept, p, steps, d, k);
      if Skipped(p, Some(Readback(d)), steps[k]) && steps[k].setting != Lockout {
        SkippedHolds(p, d, steps[k]);
      }
    }
    HeldAfterBoth(accept, p, steps, d, 6);
    if !UnreadWindowDiffers(accept, p, d) {
      forall s: Setting
        ensures Held(a, s) == Held(b, s)
      {
        if Mentions(steps, s) {
          var k :| 0 <= k < |steps| && steps[k].setting == s;
        } else {
          OtherSettingsStay(accept, p, Some(Readback(d)), steps, d, s);
          OtherSettingsStay(accept, p, None, steps, d, s);
        }
      }
      HeldMakesDevice(a, b);
    } else {
      assert Held(a, Lockout) != Held(b, Lockout);
    }
  }

  lemma HeldAfterBoth(accept: Acceptance, p: Policy, steps: seq<Step>, d: Device, k: nat)
    requires DistinctSettings(steps) && k < |steps|
    ensures var x := steps[k];
            var written := if Accepts(accept, x.setting, x.desired) then Some(x.desired) else Held(d, x.setting);
            && Held(TakeSteps(accept, p, None, steps, d).device, x.setting) == written
            && Held(TakeSteps(accept, p, Some(Readback(d)), steps, d).device, x.setting)
               == if Skipped(p, Some(Readback(d)), x) then Held(d, x.setting) else written
  {
    EachSettingSettles(accept, p, Some(Readback(d)), steps, d, k);
    EachSettingSettles(accept, p, None, steps, d, k);
    UnreadableSkipsNothing(p, steps[k]);
    hide Skipped, Accepts;
  }

  lemma HeldMakesDevice(a: Device, b: Device)
    requires forall s: Setting :: Held(a, s) == Held(b, s)
    ensures a == b
  {
    forall s: Setting
      ensures s in a <==> s in b
      ensures s in a ==> a[s] == b[s]
    {
      assert Held(a, s) == Held(b, s);
    }
  }

  /** A device that holds the window 7 to 9 while the policy's is 5 to 6, both under "lock": the diffed push leaves
      7 to 9, calling every setter would leave 5 to 6. */
  lemma UnreadWindowIsKept()
    ensures var d: Device := map[Lockout := Locking("lock", "7", "9")];
            var p := Policy(1, seq(7, i => 3600), [], [], 25200, 126000, "lock", "5", "6", false, false, None, "");
            var accept: Acceptance := (s, v) => true;
            && p.Valid()
            && Held(Push(accept, p, Some(Readback(d)), d).device, Lockout) == Some(Locking("lock", "7", "9"))
            && Held(Push(accept, p, None, d).device, Lockout) == Some(Locking("lock", "5", "6"))
  {
    var d: Device := map[Lockout := Locking("lock", "7", "9")];
    var p := Policy(1, seq(7, i => 3600), [], [], 25200, 126000, "lock", "5", "6", false, false, None, "");
    var accept: Acceptance := (s, v) => true;
    StepsDistinct(p);
    FixedPlaces(p);
    LockoutSkipIff(p, d);
    assert LockoutValue(p) == Locking("lock", "5", "6");
    assert Accepts(accept, Lockout, LockoutValue(p));
    hide Skipped, Steps;
    HeldAfterBoth(accept, p, Steps(p), d, 6);
  }

  // ---------- positional alignment ----------

  /** timekpr's lookup of a weekday's limit: by its place among the allowed days, 0 when it has none. */
  function LimitOn(allowed: seq<Weekday>, limits: seq<int>, day: Weekday): int {
    if allowed == [] || limits == [] then 0
    else if allowed[0] == day then limits[0]
    else LimitOn(allowed[1..], limits[1..], day)
  }

  lemma {:induction false} ProjectionLooksUpOwnLimit(dailyLimits: seq<int>, allowed: seq<Weekday>, day: Weekday)
    requires |dailyLimits| == 7
    ensures LimitOn(allowed, Project(dailyLimits, allowed), day) == if day in allowed then dailyLimits[day - 1] else 0
  {
    if allowed != [] {
      assert Project(dailyLimits, allowed)[1..] == Project(dailyLimits, allowed[1..]);
      ProjectionLooksUpOwnLimit(dailyLimits, allowed[1..], day);
    }
  }

  /** After a successful push, each weekday's lookup yields its own configured limit, 0 if not allowed,
      whatever weekdays and limits the device held before. */
  lemma PositionalAlignment(accept: Acceptance, p: Policy, readable: bool, d: Device, day: Weekday)
    requires p.Valid() && Push(accept, p, SnapshotOf(readable, d), d).ok
    ensures var d' := Push(accept, p, SnapshotOf(readable, d), d).device;
            && AllowedDays in d' && d'[AllowedDays].Days? && LimitsForDays in d' && d'[LimitsForDays].Limits?
            && LimitOn(d'[AllowedDays].days, d'[LimitsForDays].limits, day)
               == if p.allowedWeekdays == [] || day in p.allowedWeekdays then p.dailyLimits[day - 1] else 0
  {
    hide Push, View, HoursToDbusPayload, Project, LimitOn;
    OkMeansEveryField(accept, p, readable, d);
    OkMeansDeviceMatches(accept, p, readable, d);
    var d' := Push(accept, p, SnapshotOf(readable, d), d).device;
    OwnLimitIsFound(p.dailyLimits, d'[AllowedDays].days, d'[LimitsForDays].limits, day);
  }

  lemma OwnLimitIsFound(dailyLimits: seq<int>, days: seq<Weekday>, limits: seq<int>, day: Weekday)
    requires |dailyLimits| == 7 && LimitsFor(dailyLimits, days, limits)
    ensures LimitOn(days, limits, day) == if day in days then dailyLimits[day - 1] else 0
  {
    assert limits == Project(dailyLimits, days);
    ProjectionLooksUpOwnLimit(dailyLimits, days, day);
  }
}
