# Verified model of the pooled screen-time hub

One user's daily screen-time budget is pooled over several devices. On each device an agent reads the local
timekpr daemon, keeps its own counter of genuine use, reports that counter and the active time span to the hub,
is told the effective limit and the pooled total, and makes at most one balance write. The hub keeps the largest
counter each device ever reported, takes the union of the reported spans, and resends the day's policy until the
agent echoes its revision.

The model follows the program file by file. Code that computes values is a function here; code that changes an
object is a class whose methods are proved against such a function; the properties are lemmas about those
functions, over all inputs or all runs.

| file | what it models |
|---|---|
| `Convergence.dfy`, `ConvergenceEffect.dfy` | the convergence controller and what one write does to the daemon |
| `Daemon.dfy`, `LockingDevice.dfy` | the daemon's own accounting, and a device that locks at its limit |
| `Accounting.dfy` | the agent's counter against true activity, over any interleaving |
| `AgentTick.dfy` | one tick: measuring, reporting, acting on the answer, on silence, on refusal |
| `HubLedger.dfy`, `Delivery.dfy`, `SpendQueries.dfy` | the hub's tables, their totals, and the grouped forms of the totals as folds over the rows |
| `Protocol.dfy`, `PromptRuns.dfy`, `Overshoot.dfy`, `OvershootReached.dfy`, `Offline.dfy` | the step system: span conservation, the wall-clock sandwich and when it is tight, the overshoot bound and a run that comes within the deadband of it, outages |
| `PolicyPush.dfy`, `PushProperties.dfy`, `RevisionGate.dfy` | the diffed policy push, and the gate that decides when a payload is sent |
| `AllowedHours.dfy`, `AllowedHoursCodec.dfy`, `HoursEditor.dfy` | the allowed-hours codec, its validator, and the editor on top |
| `IntervalUnion.dfy` | the sort-and-sweep union against the set of covered seconds |
| `Limits.dfy` | the effective limit by its three paths |
| `Basics.dfy`, `Sorting.dfy`, `Sums.dfy`, `Grouping.dfy` | small shared definitions: options, a stable sort, SUM, MAX and GROUP BY over rows |

`dafny verify dfyconfig.toml` checks everything.

## Where the program does not do what one might expect

Each of these keeps the code as it is and proves exactly when the expected property holds.

- The counter can overcount if the daemon's flush interval is longer than 91 seconds: discarding more than the
  90-second tolerance looks like a midnight and credits the whole day again
  (`Accounting.OvercountFreeIffIntervalWithinTolerance`).
- After partly failed pushes, going back to the earlier payload matches the old echo, so nothing is resent; over any
  such run the device is right exactly when the last accepted write on each setting was of that payload's value
  (`RevisionGate.ReturnIsSafeIff`). `RevisionGate.PartlyFailingRun` and `RevisionGate.ReturnAfterFailureIsNotResent`
  give a run from a new device after which it keeps the wrong hours.
- A lockout type other than suspendwake is compared by type alone and its wake window is never read back. The diffed
  push ends showing what the full push would (`PushProperties.DiffedPushRefinesFullPush`), but in the very same device
  state exactly when the device does not hold another such unread window (`PushProperties.DiffedEqualsFullIff`, with
  an input in `PushProperties.UnreadWindowIsKept`).
- A local midnight inside the canonical day costs what was used since the last look before it; and if the first reading
  after it is not more than 90 seconds below the last one before, the new day's use is masked by the old reading
  (`Accounting.MidnightCreditsTheNewDayIff`, the exact total in `Accounting.ShortfallIsExactlyWhatWasLost`).
- The usage history always reads the wall-clock total. For a parallel user it agrees with the dashboard exactly when
  at most one device has counted anything, or every counted second is on record and no two devices recorded the same
  one (`SpendQueries.HistoryAgreesForParallelIff`).
- For a user without a policy the dashboard shows limit 0 while the history applies overrides and grants to a base
  of 0 (`Limits.WithoutPolicyPathsAgreeIff`).
- The editor shows a fully unaccounted day as "all day" and saves it as accounted. It gives a stored day back exactly
  when no record is empty, no hour is stored twice, and the day is one accounted window or uniform whole hours other
  than a full unaccounted day (`HoursEditor.EditorRoundTripIff`).
- Spans are keyed by device and end time without the user, so the order of reports can matter. It does not, from given
  tables, exactly when no two of the reports leave different rows under a key not stored yet
  (`Delivery.DeliveryIndependenceIff`); two users active on one device in the same tick are such a pair
  (`Delivery.CollidingKeysDependOnOrder`).

## Model

| member | source | states |
|---|---|---|
| ConvergenceEffect.TimeLeftLandsOnTarget | core/timekpr_hub_core/convergence.py:141-203 | after a write, time left is exactly L_eff - G unless the daemon's 86400-second bound on the balance forbids it; after NOOP it is within the deadband; the device's own limit does not matter |
| ConvergenceEffect.PlanByDistance | core/timekpr_hub_core/convergence.py:141-203 | the operation by the distance from the target balance: absolute only when forced, expired or more than 300 seconds off; nothing within 5; else the relative write of exactly that distance |
| ConvergenceEffect.WritesOnExpiredDevice | tests/fakes/fake_timekpr.py:82-108 | on an expired device a relative write starts from the limit and keeps the spent seconds; an absolute one forgets what was not flushed |
| ConvergenceEffect.RelativeWriteIsNeverClipped | core/timekpr_hub_core/convergence.py:179-203 | a relative write is planned only where the daemon's clamp to the limit leaves the balance alone, moves it by 6 to 300 seconds, and keeps the day's spent counter |
| ConvergenceEffect.RememberedOffsetIsWhatWasApplied | core/timekpr_hub_core/convergence.py:149-203 | the offset kept by the agent is the balance really left on the device minus the spent seconds it saw, exactly when nothing was written or the 86400-second bound leaves the target balance alone |
| ConvergenceEffect.ConvergeIsAFixpoint | core/timekpr_hub_core/convergence.py:149-203 | repeating the step with nothing changed leaves the daemon exactly as it is, forced or not |
| Daemon.FakeTimekprDaemon.constructor | tests/fakes/fake_timekpr.py:41-57 | a new daemon has nothing spent, saved or elapsed |
| Daemon.FakeTimekprDaemon.SaveSpent | tests/fakes/fake_timekpr.py:74-80 | a flush makes what is saved equal to what is counted, and restarts the interval |
| Daemon.FakeTimekprDaemon.Pass | tests/fakes/fake_timekpr.py:59-72 | time passing moves balance and counters only when active, and flushes when the interval is reached |
| Daemon.FakeTimekprDaemon.WriteTimeLeft | tests/fakes/fake_timekpr.py:82-108 | the three operations' whole effect: '=' discards unflushed time, '-' and '+' start from min(balance, limit), all are bounded and flushed |
| Daemon.FakeTimekprDaemon.DayChanged | tests/fakes/fake_timekpr.py:110-116 | local midnight: balance and day counter restart, the limit may change, the rest is saved |
| Daemon.FakeTimekprDaemon.WeekChanged | tests/fakes/fake_timekpr.py:118-120 | a new week clears only the week counter, and flushes the others |
| Daemon.FakeTimekprDaemon.MonthChanged | tests/fakes/fake_timekpr.py:122-124 | a new month clears only the month counter, and flushes the others |
| Daemon.MidnightStartsTheDayOver | tests/fakes/fake_timekpr.py:110-116 | local midnight gives the new day its whole limit, new or old; use counts against it and goes on counting for week and month |
| Daemon.WeekAndMonthStartOver | tests/fakes/fake_timekpr.py:118-124 | a new week or month restarts that counter alone and keeps what was unflushed on the others |
| Accounting.DisciplineKept | tests/fakes/fake_timekpr.py:59-116 | unflushed time never exceeds the time since the last flush, which stays below the save interval, whatever happens |
| Accounting.RunIsCovered | core/timekpr_hub_core/convergence.py:219-246 | in every run, all the next observation could credit is backed by activity not credited yet |
| Accounting.NeverOvercounts | core/timekpr_hub_core/convergence.py:219-246 | over any interleaving of activity, writes, observations and local midnights, the cumulative counter never exceeds true active seconds |
| Accounting.DoubleCountingRunOvercounts | core/timekpr_hub_core/convergence.py:219-246 | for every save interval above 91 there is a run that credits seconds twice |
| Accounting.OvercountFreeIffIntervalWithinTolerance | core/timekpr_hub_core/convergence.py:219-246 | no run overcounts if and only if the save interval is at most tolerance + 1 |
| Accounting.LossPerSetWrite | tests/fakes/fake_timekpr.py:92-99 | without local midnights, the seconds lost for good are at most (save interval - 1) for each '=' written |
| Accounting.ShortfallBoundedBySetWrites | core/timekpr_hub_core/convergence.py:219-246 | right after an observation the counter is short by at most (save interval - 1) for each '=', is never ahead, and is exact without '=' |
| Accounting.MissingIsTotalLost | core/timekpr_hub_core/convergence.py:219-246 | over every run, activity not credited and no longer creditable is exactly what '=' discarded, plus what midnights wiped and masked, minus what lower looks gave back |
| Accounting.ShortfallIsExactlyWhatWasLost | core/timekpr_hub_core/convergence.py:219-246 | so right after a look that is exactly how far the counter is short |
| Accounting.ShortfallAcrossMidnights | core/timekpr_hub_core/convergence.py:219-246 | over every run with local midnights the counter is short by at most (save interval - 1) for each '=' plus the exact cost of each midnight: what the next look would have credited, and, unless the new reading is more than 90 below the old, the lower of the two |
| Accounting.MidnightCreditsTheNewDayIff | core/timekpr_hub_core/convergence.py:240-244 | after a midnight, n seconds of use are credited in full exactly when the old reading is more than 90 above n, or there is no old reading or no use |
| AgentTick.ManagedUser.constructor | agent/timekpr_hub_agent/state.py:21-77 | the state of a user never seen before |
| AgentTick.ManagedUser.TakeMeasurement | agent/timekpr_hub_agent/tick.py:123-186 | first tick, canonical rollover or ordinary advance, the burned seconds, and the clamped span |
| AgentTick.MeasureWithinDay | agent/timekpr_hub_agent/tick.py:145-186 | within a day the counter grows by exactly the burned seconds, and a span ends now, starts no earlier than the last acknowledged end, and is never longer than what was burned |
| AgentTick.SpanIsEmitted | agent/timekpr_hub_agent/tick.py:170-186 | a span is emitted exactly when the user is logged in and the counter has grown, and it reaches back by that growth, or to the last acknowledged end if later |
| AgentTick.UseIsReported | agent/timekpr_hub_agent/tick.py:170-212 | use since the last look, begun after the last acknowledged span, is sent after the buffer as one span exactly as long |
| AgentTick.AcknowledgedEndIsRemembered | agent/timekpr_hub_agent/tick.py:244-249 | only an answer moves the acknowledged end, and only to the end of the span it acknowledged |
| AgentTick.EnforcedOffsetIsRemembered | agent/timekpr_hub_agent/tick.py:384-416 | after an enforced answer the remembered offset is the device's balance minus the spent seconds seen, where the bound allows it |
| AgentTick.BackoffDoublesUpToTheCap | agent/timekpr_hub_agent/tick.py:345-367 | k ticks without an answer, for whatever reason, multiply the poll interval by 2 to the k, up to 90 seconds |
| AgentTick.AnswerSetsThePoll | agent/timekpr_hub_agent/tick.py:214-223 | an answer sets the hub's own interval again, up to 90 seconds |
| AgentTick.NewDayIsSetAbsolutely | agent/timekpr_hub_agent/tick.py:127-144 | a first tick or a new canonical day is answered with an absolute write; the counter restarts at what the device shows, or at zero |
| AgentTick.NoWriteWithoutEnforcement | agent/timekpr_hub_agent/tick.py:256-345 | in observe mode and on a revoked device nothing is written and the remembered offset stays, while counting and buffering go on |
| AgentTick.ManagedUser.BufferSpan | agent/timekpr_hub_agent/tick.py:370-381 | an unsent span is appended, and the oldest entries beyond 200 go |
| AgentTick.ManagedUser.Converge | agent/timekpr_hub_agent/tick.py:384-416 | in observe mode neither the daemon nor the remembered offset moves; otherwise both follow the plan |
| AgentTick.ManagedUser.EnforceOffline | agent/timekpr_hub_agent/tick.py:419-497 | open or in grace: nothing; capped: the frozen ceiling against the live estimate; closed: no time left |
| AgentTick.ManagedUser.TakeNote | agent/timekpr_hub_agent/tick.py:235-277 | an answer refreshes every cached value, empties the buffer, and remembers where an emitted span ended |
| AgentTick.ManagedUser.Tick | agent/timekpr_hub_agent/tick.py:81-367 | the whole tick for one user: what is sent, the new state and the daemon's new state for an answer, silence or refusal, and a next poll never above 90 seconds |
| HubLedger.HubStore.constructor | hub/timekpr_hub/services/aggregate.py:21-73 | both tables start empty |
| HubLedger.HubStore.UpsertUsageCounter | hub/timekpr_hub/services/aggregate.py:21-47 | only the one counter changes, to the larger of old and reported |
| HubLedger.HubStore.InsertActivityInterval | hub/timekpr_hub/services/aggregate.py:50-73 | a row is stored only if its (device, end) key is new |
| HubLedger.HubStore.RecordContribution | hub/timekpr_hub/api/sync.py:119-149 | recording a report: the counter, then every non-degenerate span in order |
| HubLedger.InsertSpansKeys | hub/timekpr_hub/services/aggregate.py:70-73 | old rows stay as they are, every non-degenerate span's key ends up stored, and new rows are the report's own |
| HubLedger.RecordAddsReportedSeconds | hub/timekpr_hub/services/aggregate.py:50-73 | a record adds only seconds the report covers, only to its own user, day and device, and removes none |
| HubLedger.RecordMovesParallel | hub/timekpr_hub/services/aggregate.py:195-207 | the parallel total moves by the change of the reported counter alone |
| HubLedger.RecordMovesMax | hub/timekpr_hub/services/aggregate.py:76-112 | the largest counter becomes the larger of itself and the report |
| HubLedger.WallclockIsUnionSeconds | hub/timekpr_hub/services/aggregate.py:76-112 | the database's wall-clock total is the union of the user's recorded spans of the day, listed in any order, floored at the largest counter |
| Delivery.CountersAfter | hub/timekpr_hub/services/aggregate.py:39-47 | after any sequence of reports each counter is the largest value stored or reported for its key, and no other key exists |
| Delivery.SpansAfter | hub/timekpr_hub/services/aggregate.py:70-73 | after any sequence of reports stored rows are as they were, every new row is the one some report leaves under its key, and every key a report carries is stored |
| Delivery.DeliveryIndependence | hub/timekpr_hub/services/aggregate.py:39-73 | two deliveries of the same distinct reports, whatever their order, duplication and replay, end in the same tables when no two of them leave different rows under a new key |
| Delivery.DeliveryIndependenceIff | hub/timekpr_hub/services/aggregate.py:39-73 | that condition is exact: for any tables and reports, all deliveries of them agree if and only if it holds |
| Delivery.KeysConsistentIsEnough | hub/timekpr_hub/services/aggregate.py:50-73 | it holds when reports that share a span key carry the same span of the same user and day |
| Delivery.RetryIsFree | hub/timekpr_hub/services/aggregate.py:39-73 | delivering any earlier report again changes nothing, colliding keys or not |
| Delivery.CollidingKeysDependOnOrder | hub/timekpr_hub/services/aggregate.py:50-73 | two users' spans that end together on one device, under a key not stored yet: the order of their reports decides which is kept |
| Protocol.StepEffect | agent/timekpr_hub_agent/tick.py:188-367 | whatever the tick saw, one device moves by what it burned, its buffer is acknowledged or shifted by one span, and the hub records its report or nothing |
| Protocol.RunLedgerInv | agent/timekpr_hub_agent/tick.py:155-186 | in every run each device's counter pays for every second it emitted, its buffer is the newest part of its emissions, and the hub's rows are paid for by its counters |
| Protocol.WallclockSandwich | hub/timekpr_hub/services/aggregate.py:76-112 | in every run, for any number of devices and any mix of delivered, lost, unacknowledged and refused syncs: every counter <= wall-clock total <= sum of the counters |
| Protocol.SpanConservation | agent/timekpr_hub_agent/tick.py:188-248 | in every run with advancing clocks, each non-degenerate span is in the hub's table as produced, still buffered, or was pushed out of the buffer; the buffer holds at most 200 spans, always the newest |
| Protocol.DropsOnlyFromAFullBuffer | agent/timekpr_hub_agent/tick.py:370-381 | a tick drops a span only when the sync failed with the buffer at its cap, and then exactly the oldest |
| LockingDevice.UseCreditsAtMost | tests/unit/test_multi_device_simulation.py:55-92 | using a device lets the agent credit at most the seconds used, and nothing if it was locked, even after a discarded flush |
| Overshoot.TurnOfDevice | tests/unit/test_multi_device_simulation.py:55-92 | used, measured, answered and written to: afterwards agent and daemon are in step, and an unlocked balance is within the deadband of the total just told |
| Overshoot.TotalGrowsByBurned | hub/timekpr_hub/services/aggregate.py:76-112 | in either accounting mode one report raises the total by at most what the device burned |
| Overshoot.TurnsKeepFleetInv | tests/unit/test_multi_device_simulation.py:55-92 | through every turn of a round the total has grown by at most one poll interval for each turn since each agent was last told it |
| Overshoot.OvershootBound | core/timekpr_hub_core/convergence.py:141-203 | for every number of devices D, poll interval N and choice of who is active in each round, at every moment of every run the total is below limit + D * N + deadband, in both accounting modes |
| OvershootReached.UseIsCreditedInFull | tests/unit/test_multi_device_simulation.py:55-92 | an unlocked device in use burns, and its agent credits, every second of that use |
| OvershootReached.OvershootIsReached | core/timekpr_hub_core/convergence.py:141-203 | for every D and N a two-round run ends with the parallel total at limit - 1 + D * N |
| Offline.OfflineTickCredits | agent/timekpr_hub_agent/tick.py:346-367 | a tick without the hub credits at most the use it saw, none if locked, and keeps the last answer frozen |
| Offline.CappedTickLands | agent/timekpr_hub_agent/tick.py:457-480 | each past-grace tick leaves time left within the deadband of min(L - G, cap) minus how far the counter has moved since contact |
| Offline.ClosedLeavesNothing | agent/timekpr_hub_agent/tick.py:481-497 | under closed, a past-grace tick leaves no time beyond the deadband |
| Offline.NeverRefundsAndLands | agent/timekpr_hub_agent/tick.py:453-480 | over a whole outage the target time left falls by exactly what the counter moves, never rises, and each past-grace tick lands on it |
| Offline.OfflineStillCaps | agent/timekpr_hub_agent/tick.py:446-480 | whatever happened in grace, the counter's movement since contact stays below max(its movement in grace + 1, min(L - G, cap) + deadband) plus one poll interval |
| Offline.AnsweredTickMakesReady | agent/timekpr_hub_agent/tick.py:234-277 | any answered tick under capped, whatever the agent's state before it, leaves agent and daemon in the state an outage is reasoned about from |
| Offline.OutageAfterAnswerIsCapped | agent/timekpr_hub_agent/tick.py:446-480 | for every outage right after an answered tick, in the agent's own counter: the same bound on the counter at the end minus the counter at the answer |
| Offline.GraceLeavesTheDaemonAlone | agent/timekpr_hub_agent/tick.py:446-450 | during the answered grace period nothing is written, whatever ticks came before: the daemon is only used |
| PolicyPush.SplitOnce | agent/timekpr_hub_agent/policy_push.py:197-224 | splitting at the first ';' loses nothing and leaves no ';' in the first part |
| PolicyPush.Project | agent/timekpr_hub_agent/policy_push.py:48-59 | index i of the projected limits belongs to the i-th allowed weekday |
| PolicyPush.Enforcer.Call | agent/timekpr_hub_agent/enforcer.py:165-178 | a setter is refused for an empty hours dict, else accepted by its arguments alone, and changes only its own setting |
| PolicyPush.Pushing.constructor | agent/timekpr_hub_agent/policy_push.py:76-86 | a push starts successful with nothing applied, skipped or failed |
| PolicyPush.Pushing.Take | agent/timekpr_hub_agent/policy_push.py:94-108 | a step writes unless the known current value matches, and says whether it wrote, accepted or not |
| PolicyPush.Pushing.TakeFollower | agent/timekpr_hub_agent/policy_push.py:141-155 | once the weekdays were written, accepted or not, the limits readback no longer counts |
| PolicyPush.Pushing.ApplyFixed | agent/timekpr_hub_agent/policy_push.py:140-190 | weekdays, limits, week, month, two switches and lockout are taken in this order |
| PolicyPush.Pushing.ApplyAllowedHours | agent/timekpr_hub_agent/policy_push.py:227-265 | one step for each weekday present in the payload, in its order |
| PolicyPush.Pushing.ApplyPlaytime | agent/timekpr_hub_agent/policy_push.py:268-313 | the six PlayTime steps follow, or none when the payload has no PlayTime part |
| PolicyPush.ApplyPolicyPush | agent/timekpr_hub_agent/policy_push.py:111-194 | the whole push equals the fold of the planned steps over the device read once at the start; other than seven limits rejects everything |
| PushProperties.MatchesIff | agent/timekpr_hub_agent/policy_push.py:197-224 | a step is skipped for its own readback exactly when the device shows its value and that value survives the join and split of the wake window |
| PushProperties.EachSettingSettles | agent/timekpr_hub_agent/policy_push.py:93-108 | each setting ends showing its desired value if its write was issued and accepted, else what it showed before |
| PushProperties.CallsAreIssuedSteps | agent/timekpr_hub_agent/policy_push.py:93-108 | the calls made, and the two counts, are those of the steps not skipped, in order |
| PushProperties.VerdictIsAcceptance | agent/timekpr_hub_agent/policy_push.py:93-108 | the push is ok exactly when no step is listed as failed, exactly when every issued step was accepted |
| PushProperties.DiffedPushRefinesFullPush | agent/timekpr_hub_agent/policy_push.py:93-194 | for any device and acceptance, the diffed push ends showing what calling every setter would show, with a subset of the calls, and is ok whenever the full push is |
| PushProperties.DiffedEqualsFullIff | agent/timekpr_hub_agent/policy_push.py:93-224 | it ends in the very same device state, unread fields included, if and only if the device does not hold another acceptable wake window under the payload's own non-suspendwake type |
| PushProperties.UnreadWindowIsKept | agent/timekpr_hub_agent/policy_push.py:197-224 | an input where it does: a device locked with window 7 to 9 under a policy with 5 to 6 |
| PushProperties.OkMeansDeviceMatches | agent/timekpr_hub_agent/policy_push.py:93-194 | ok exactly when there are seven limits and every issued write was accepted; then the device shows the payload on every compared field |
| PushProperties.OkMeansEveryField | agent/timekpr_hub_agent/policy_push.py:140-224 | after a successful push the device shows the payload's weekdays, week and month limits, switches, lockout type, the wake window with its defaults when it is read, and each mentioned weekday's hours; other weekdays keep theirs |
| PushProperties.AbsentDayStays | agent/timekpr_hub_agent/policy_push.py:227-251 | a weekday absent from the payload is never written, whether the push succeeds or not |
| PushProperties.ShownFields | agent/timekpr_hub_agent/policy_push.py:140-224 | what showing a payload means field by field: the listed weekdays or all seven, each one's own limit, the other limits and switches, lockout, window and hours |
| PushProperties.EmptyHoursAreRefused | agent/timekpr_hub_agent/enforcer.py:165-178 | a weekday without records makes the push fail and leaves the device's hours for it as they were |
| PushProperties.OkMeansPlaytimeFields | agent/timekpr_hub_agent/policy_push.py:268-313 | after a successful push with a PlayTime part the device holds all six of its fields: the listed weekdays or all seven, each one's own limit or 0 when none are given, and the rest as sent |
| PushProperties.StuckSettersRetryAlone | agent/timekpr_hub_agent/policy_push.py:93-155 | every push after the first issues exactly the steps that stay outstanding, plus a limits write coupled to an outstanding weekday write |
| PushProperties.SettledPushIsSilent | agent/timekpr_hub_agent/policy_push.py:93-108 | after a successful push, pushing the same payload again, however often, writes nothing, succeeds and leaves the device alone, the wake window's join and split included |
| PushProperties.ProjectionLooksUpOwnLimit | agent/timekpr_hub_agent/policy_push.py:48-59 | positional lookup in the projection yields a weekday's own limit, and 0 when it is not allowed |
| PushProperties.PositionalAlignment | tests/e2e/harness.py:371-382 | after a successful push the device's lookup of every weekday yields its own configured limit, for every allowed-day list and previous device state |
| RevisionGate.EffectiveHours | hub/timekpr_hub/services/policy.py:202-242 | the effective payload differs from the standing one in hours only, and gives each weekday the hours due: today's override if that weekday may log in, else the standing hours or no restriction |
| RevisionGate.DeliverCleanly | hub/timekpr_hub/api/sync.py:182-191 | a tick whose push is accepted, or that needs none, leaves the echo and the device on the effective payload |
| RevisionGate.CleanRunKeepsGate | hub/timekpr_hub/api/sync.py:182-191 | in every run whose delivered pushes are accepted, an echoed revision is always that of a payload the device shows |
| RevisionGate.GateEndToEnd | hub/timekpr_hub/api/sync.py:182-191 | over any such run of edits, overrides, day changes and ticks, right after each enforced tick the device shows that day's effective payload on every compared field, and on each weekday today's override, else exactly its stored records, else 24 whole accounted hours |
| RevisionGate.OverridesEndWithTheirDay | core/timekpr_hub_core/effective_policy.py:53-69 | after an enforced tick on a day without an override every weekday is back to exactly its stored records, or the whole day when none are stored |
| RevisionGate.HoursDueAreDue | core/timekpr_hub_core/effective_policy.py:43-69 | the hours in the payload are the override's on today's weekday if the user may log in, else the stored records, else the whole day |
| RevisionGate.UnrestrictedIsWholeDay | core/timekpr_hub_core/effective_policy.py:31-40 | "no restriction" is 24 whole accounted clock hours |
| RevisionGate.WholeDayOnDevice | core/timekpr_hub_core/allowed_hours.py:153-166 | and reaches the device as 24 slots of 60 accounted minutes |
| RevisionGate.EditReachesDevice | hub/timekpr_hub/services/policy.py:144-199 | after a saved policy and one enforced tick the device holds the saved weekdays, limits, switches and lockout and the hours due under it, at the next version |
| RevisionGate.OverrideReachesDevice | hub/timekpr_hub/services/day_hours.py:79-112 | an override set for today is on the device after the next enforced tick, if the user may log in |
| RevisionGate.ClearReachesDevice | hub/timekpr_hub/services/day_hours.py:115-124 | clearing it brings every weekday back to its standing hours |
| RevisionGate.OneDayAtATime | hub/timekpr_hub/services/day_hours.py:79-124 | setting or clearing one date's override leaves every other date's alone |
| RevisionGate.EchoNeverAhead | hub/timekpr_hub/services/policy.py:144-199 | in every run, pushes failing or not, the echoed revision belongs to a payload no newer than the standing version |
| RevisionGate.EditIsAlwaysSent | hub/timekpr_hub/services/policy.py:144-199 | saving a policy, even unchanged, always makes the hub send the payload again |
| RevisionGate.RunHoldsLastWritten | agent/timekpr_hub_agent/tick.py:278-307 | over any run each setting holds the last value timekpr accepted for it, or what it held at the start |
| RevisionGate.ShowsIffLeftAsBefore | agent/timekpr_hub_agent/tick.py:278-307 | after any run, a device that showed a payload still shows it exactly when the last accepted write on each of its settings, if any, was of its value |
| RevisionGate.ReturnIsSafeIff | hub/timekpr_hub/api/sync.py:182-191 | over any run in which no delivered push succeeds and the payload comes back to the echoed one, nothing is resent, and the device shows it exactly under that condition |
| RevisionGate.NextDayPushFails | agent/timekpr_hub_agent/tick.py:278-307 | reverting yesterday's override succeeds while today's is rejected: the echo stays on yesterday's revision and the device has already moved |
| RevisionGate.ReturnAfterFailureIsNotResent | hub/timekpr_hub/api/sync.py:182-191 | setting the first override again a week later is not sent, and the device keeps the wrong hours |
| RevisionGate.PartlyFailingRun | hub/timekpr_hub/api/sync.py:182-191 | a run from a new device, with an override and one tick, reaches that situation, for every revision digest |
| AllowedHours.ValidateIntervals | core/timekpr_hub_core/allowed_hours.py:77-97 | accepts exactly the lists in which all pairs are disjoint and share no clock hour; otherwise names two that clash, and which way |
| AllowedHours.NeighboursDecide | core/timekpr_hub_core/allowed_hours.py:77-97 | comparing neighbours in start order decides all pairs, whatever the order of the list |
| AllowedHours.IntervalsToHours | core/timekpr_hub_core/allowed_hours.py:104-119 | the loop produces each interval's per-hour records in order |
| AllowedHours.HoursToIntervals | core/timekpr_hub_core/allowed_hours.py:122-150 | the loop over records sorted by hour produces the merged runs, skipping empty records |
| AllowedHoursCodec.DecodeThenEncode | core/timekpr_hub_core/allowed_hours.py:104-150 | every sorted list of non-empty distinct-hour records comes back, through intervals no two of which could be joined |
| AllowedHoursCodec.EncodeThenDecode | core/timekpr_hub_core/allowed_hours.py:104-150 | every sorted valid interval list without touching same-flag neighbours comes back |
| AllowedHoursCodec.EncodeKeepsMinutes | core/timekpr_hub_core/allowed_hours.py:104-119 | expanding keeps exactly the (minute, flag) pairs |
| AllowedHoursCodec.DecodeKeepsMinutes | core/timekpr_hub_core/allowed_hours.py:122-150 | merging keeps exactly the (minute, flag) pairs, for any records in any order |
| AllowedHoursCodec.RoundTripOfValidated | core/timekpr_hub_core/allowed_hours.py:77-150 | any accepted list, in any order, comes back as sorted, maximally merged intervals with the same (minute, flag) pairs |
| AllowedHoursCodec.PayloadKeys | core/timekpr_hub_core/allowed_hours.py:153-166 | the keyed payload has exactly the records' hours, and is empty only for no records |
| AllowedHoursCodec.AcceptedPayloadLosesNothing | core/timekpr_hub_core/allowed_hours.py:153-166 | for an accepted list the hour-keyed payload has one entry for each record, readable from its own key |
| HoursEditor.TimeRoundTrip | hub/timekpr_hub/api/ui/policy.py:148-149 | every minute of the day, both midnights included, survives printing and parsing |
| HoursEditor.ClassifyReadsInHourOrder | hub/timekpr_hub/api/ui/policy.py:81-145 | what the editor shows for any stored list is what it shows for its records in hour order |
| HoursEditor.ClassifyIgnoresOrder | hub/timekpr_hub/api/ui/policy.py:81-145 | so with no hour stored twice the stored order is irrelevant |
| HoursEditor.EditorSavesCanonical | hub/timekpr_hub/api/ui/policy.py:272-309 | whatever form is submitted, what is saved is sorted, with distinct hours and no empty record |
| HoursEditor.FormIsRefusedIff | hub/timekpr_hub/api/ui/policy.py:256-309 | a form is refused exactly when its window does not parse or does not start before it ends, or custom mode has no hour checked |
| HoursEditor.FormSavesItsMinutes | hub/timekpr_hub/api/ui/policy.py:272-309 | an accepted form saves exactly its minutes and flag: the whole day, the window, or the checked hours |
| HoursEditor.CustomWritesWholeHours | hub/timekpr_hub/api/ui/policy.py:294-309 | reading the checked boxes gives back the stored hours in order |
| HoursEditor.EditorRoundTripIff | hub/timekpr_hub/api/ui/policy.py:81-149 | for every list the wire model admits, classify, print, re-parse gives back the records in hour order if and only if none is empty, no hour is repeated, and the day is one accounted window or uniform whole hours other than a full unaccounted day; a day never set comes back unrestricted |
| HoursEditor.FullUnaccountedDayLosesItsFlag | hub/timekpr_hub/api/ui/policy.py:122-129 | every stored form of a full unaccounted day is saved back as accounted |
| IntervalUnion.UnionSeconds | core/timekpr_hub_core/interval_union.py:32-53 | the sweep returns the number of distinct seconds covered, for every list of spans in any order |
| IntervalUnion.UnionSecondsBruteforce | core/timekpr_hub_core/interval_union.py:56-66 | so does the oracle that grows a set |
| IntervalUnion.UnionDependsOnlyOnDistinctSpans | core/timekpr_hub_core/interval_union.py:32-53 | order and duplicates are irrelevant |
| IntervalUnion.UnionIsMonotone | core/timekpr_hub_core/interval_union.py:32-53 | more spans never lower the union |
| IntervalUnion.UnionBetweenLongestAndSum | core/timekpr_hub_core/interval_union.py:32-66 | at least the longest span, at most the sum of lengths, and equal to the sum exactly when no two spans share a second |
| SpendQueries.BatchMatchesSingle | hub/timekpr_hub/services/aggregate.py:115-171 | folding all rows into groups gives each user asked about, 0 when absent, that user's own query; an entry is absent exactly when there is no row |
| SpendQueries.HistoryMatchesSingle | hub/timekpr_hub/services/aggregate.py:210-244 | folding a user's rows into days gives each day, 0 when absent, that day's own wall-clock total; an entry is absent exactly when there is no row |
| SpendQueries.HistoryStaysInside | hub/timekpr_hub/services/aggregate.py:210-244 | and no day outside the window turns up |
| SpendQueries.WallclockWindowIsSumOfDays | hub/timekpr_hub/services/aggregate.py:247-260 | the wall-clock window is the sum of its days' own totals |
| SpendQueries.ParallelWindowIsSumOfDays | hub/timekpr_hub/services/aggregate.py:263-279 | the parallel window's single sum over counters is the sum of its days' own totals |
| SpendQueries.HistoryAgreesForParallelIff | hub/timekpr_hub/services/summaries.py:227-229 | in every run of the protocol the history's figure equals the parallel total exactly when at most one device counted anything, or every counted second is on record and no two devices recorded the same one |
| SpendQueries.ParallelUserHistoryDiffers | hub/timekpr_hub/services/summaries.py:227-229 | two devices busy in the same minute: 60 in the history, 120 on the dashboard |
| PromptRuns.PromptTick | agent/timekpr_hub_agent/tick.py:170-249 | a logged-in, answered tick whose use fits behind the last acknowledged span sends one span as long as the counter's growth and remembers its end |
| PromptRuns.PromptRunIsFullyRecorded | agent/timekpr_hub_agent/tick.py:155-249 | over every run of such ticks the hub has as many distinct seconds of each device as its counter charges |
| PromptRuns.PromptWallclockIsSumIff | hub/timekpr_hub/services/aggregate.py:76-112 | so there the wall-clock total is the sum of the counters exactly when no two devices were used in the same second, or at most one counted anything |
| Limits.GrantsBatchMatchesSingle | hub/timekpr_hub/services/limits.py:63-78 | a user's entry in the grouped grants, 0 when absent, is the user's own sum |
| Limits.GrantsHistoryMatchesSingle | hub/timekpr_hub/services/limits.py:81-92 | a day's entry in the grouped grants, 0 when absent, is the day's own sum |
| Limits.OrdinaryDayIsTheDevicesOwn | hub/timekpr_hub/services/limits.py:27-30 | without gate, override or grants the hub's limit of a day is the one the device looks up for that weekday after a push |
| Limits.LimitOfAnyDay | hub/timekpr_hub/services/limits.py:253-262 | nothing behind a closed gate; else the override, or that lookup, plus the day's grants, never below zero |
| Limits.GrantMovesTheLimit | hub/timekpr_hub/services/limits.py:39-48 | one more grant moves a positive limit by its seconds, never below zero, and does nothing for another user or day or while the gate is closed |
| Limits.ReleaseLiftsTheGate | hub/timekpr_hub/services/limits.py:253-262 | a released day has the limit of the same user without any gate; an unreleased gated day has 0 |
| Limits.SpentByUserMatchesSingle | hub/timekpr_hub/services/summaries.py:115-125 | updating one mode's batch with the other's gives each user the total of their own mode |
| Limits.ComputeUserSummaries | hub/timekpr_hub/services/summaries.py:133-178 | every dashboard row is what the single-user queries give for that user, in the order of the users |
| Limits.ComputeUsageHistory | hub/timekpr_hub/services/summaries.py:243-264 | consecutive days ending today, each what the single-day queries give |
| Limits.ThreeLimitPathsAgree | hub/timekpr_hub/services/limits.py:253-262 | for a user with a policy, /sync's lookup, the dashboard row and the last day of any history give the same limit |
| Limits.WithoutPolicyPathsAgreeIff | hub/timekpr_hub/services/summaries.py:143-156 | without a policy dashboard and history agree exactly when the day is still gated or override and grants leave nothing |
| Sorting.Sort | core/timekpr_hub_core/interval_union.py:38-40 | the sort by an integer key used by the sweep, the validator and the decoder: a sorted permutation |
| Sorting.SortIsStable | core/timekpr_hub_core/allowed_hours.py:122-150 | records with equal keys keep their order |
| Sorting.StrictlySortedUnique | core/timekpr_hub_core/allowed_hours.py:122-150 | a list sorted strictly by hour is determined by its records |

## Left out

- HubLedger.HubStore.UpsertUsageCounter: the activity state and update time columns are not modelled; no total reads them.
- Limits.ComputeUserSummaries: a row's activity state, as-of time and device names are not modelled.
- Limits.ComputeUsageHistory: the per-device split of the last day is not modelled.
- AgentTick.ManagedUser.Tick: models one managed user, a found observation and the enforced push kept apart; the loop over several users that share one request, a user missing from the answer, and the activity-state hint are not modelled.
- AgentTick.ManagedUser.Converge: `setTimeLeft`'s own success is not read by the program and not modelled; a write always reaches the daemon.
- Daemon.FakeTimekprDaemon.Pass: takes a non-negative number of seconds, where the source raises ValueError on a negative one.
- Accounting.NeverOvercounts: stays inside one canonical day of the agent; the canonical reset to 0 is in `AgentTick`.
- Protocol.WallclockSandwich: one pooled user on one canonical day, with one managed user on each device; replayed spans are stamped with the hub's day, so spans buffered across midnight are outside it.
- Protocol.SpanConservation: one managed user on each device, and each device's clock strictly advances.
- Overshoot.OvershootBound: device and hub limits are equal and do not change during the run, devices are visited in a fixed order, every sync is answered, and nothing is accounted on a locked device.
- RevisionGate.GateEndToEnd: nobody but the agent changes the device's configuration, and every delivered push is accepted; agents that report no revision take the version-only branch and are not modelled.
- HoursEditor.EditorRoundTripIff: times are digit strings; Python's `int` also takes signs, spaces and underscores, and a browser's time field would refuse 24:00.
- Instants are whole seconds; sub-second timestamps and the truncation of their sums are not modelled.
- Time zones and the calendar: the canonical day is an integer and the weekday a function of it.
- The digest inside the policy revision is an injective, non-empty function of the payload.
- timekpr's own validation is an acceptance that depends on a setter's arguments alone.
- Policy rows: an edit replaces the standing payload with the next version; older rows, the first-policy creation and row locks are not kept.
- Setting and clearing overrides, grants and gate releases are plain table writes and appear only as the data the queries read.
- HTTP, DBUS, SQL and file I/O, activity states, timestamps of rows, week and month limits in the answer, push error reporting, and the poll scheduler beyond the next interval.
