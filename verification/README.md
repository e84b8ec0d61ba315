# DisputeShield in Dafny

A model of DisputeShield's core, with proofs of what it promises: the SLA deadline engine and the
clock on top of it, the audit hash chain and its concurrent appends, the case state machine, mass
resolution, the monthly report runner with its outbox, intake routing, and crypto-shredding under
legal hold. `dafny verify dfyconfig.toml` checks everything; nothing here is executed.

How the modules follow the program:

- **Deadlines.** `BusinessCalendar`, `Pauses` and `Deadlines` hold the loops of `disputeshield/sla/calendar.py`
  and `disputeshield/sla/deadlines.py`. `Counting` is the independent reference: business time is the
  number of instants that are open on some day and not paused, and a deadline is the least instant by
  which the window has been counted. `DeadlineLaws` relates the two walks to each other, and `CalendarLaws`
  says when a calendar is open in terms of dates, weekdays and the zone, with an office whose deadlines are
  known.
- **Clock.** `Clocks` is the specification of start, pause, resume, stop and the rows they write;
  `ClockObject` is the object whose fields they update, proved against it; `ClockRows`, `ClockLaws`,
  `ClockHistory` and `ClockTime` say what holds in every run, including what the nightly check finds.
  `ClockMeaning` says what the rows show and what each operation writes in terms of the policy alone, and
  `ReconcileMeaning` what the nightly check covers. `Witness` is a plain policy on which concrete clocks and cases
  are run.
- **Audit.** `Json` and `Canonical` print and parse the canonical form, `CanonicalMeaning` says which values share
  one, `Chain` says what a hash covers and what a genuine chain is, `AuditLog` appends, `Verify` verifies,
  `Checkpoints` attests, and `Locking` interleaves any number of transactions under an advisory lock, whose
  savepoints and commits are in `TransactionLaws`.
- **Cases.** `Disputes` and `DisputeObject` are the transition table and the case that moves along it;
  `DisputeRules` has the moves and what they write one by one, and that every trail obeys them. `MassEvents` is the
  batched fan-out and the one-by-one reference it refines, `FanOutMeaning` what that comes to in cases and records.
- **Reports.** `Schedules` is the month arithmetic, `Recipients` the allowlist and the idempotency key,
  `ReportRuns` the protocol of runner, people and one dispatcher, `ReportDesk` the loops that refine it,
  `ReportGaps` what became of the months the record of progress has passed, `OutboxKeys` the outbox as it is
  stored, under digests, and `Dispatchers` any number of dispatchers that read first, write back later and
  commit a whole drain at its end. `ReportMeaning` gives the dates, the limits and the key in figures.
- **Intake, Vault, VaultObject.** Routing, and sealing with holds. Intake seals what it adds through `Vault`;
  that a subject's key is destroyed or made elsewhere is a step of its runs. `IntakeMeaning` and `VaultMeaning` say
  what their operations store and record, field by field.

The modules named after laws, rules and meaning, and the lemmas that end in `Writes`, restate the specification
from the outside, in stored fields, literal names, dates and figures, so that an error in a definition that a
method and its specification share does not pass.

What is taken as given. Instants are whole microseconds. A time zone is a pair of functions between local days and
instants; the deadline engine asks that a day's times fall between its midnight and the next and that no instant
precede the midnight of its own local day (`ZoneOk`), the month arithmetic and what is said of clocks that run round
the clock that an offset be shorter than a day (`OffsetsBounded`). SHA-256 and HMAC are arbitrary functions: no
theorem assumes they are injective, each says "or here are two texts that collide". `ReportRuns`, `ReportDesk` and
`Dispatchers` name a row by its period and attempt, where the outbox stores it under a shortened digest;
`OutboxKeys` proves that the two agree step by step, or that two such texts collide. Encryption is assumed only to
be undone by decryption under the same key, and a token to be no shorter than what it decrypts to. Clocks, new
identifiers, the current time, how a text is quoted in a reason and whether a mail provider accepts a message are
parameters. A clock's policy and calendar stay as they are while it runs: the code reads the calendar's live rows,
so after a change to its hours or holidays the nightly check can report running clocks, and a resume can move a row
earlier. A transaction that fails puts back what was stored.

What the proofs found in the code, as against what it says of itself. In each case the model does what
the code does:

- Acknowledging a case does not stop its acknowledgement clock, although the diagram in the repository's
  README.md (line 119) says so: `Disputes.AcknowledgingLeavesTheClock`, `Disputes.AcknowledgedAndBreached`.
- The two deadline walks are each other's inverse except on a calendar whose next 366 days are all closed,
  where one finds a deadline and the other raises: `DeadlineLaws.RoundTrip`, `DeadlineLaws.RoundTripCanFail`.
- Remaining time is not frozen by a pause while the deadline is still ahead: it goes on falling with every
  whole second of business time. From the deadline on it is frozen (`ClockTime.PausedReadingFallsExactlyWhen`,
  `ClockTime.PausedReadingDoesFall`). The nightly check reports a row of a paused clock exactly when the open
  pause holds business time before it (`ClockTime.PausedRowReportedExactlyWhen`, `ClockTime.PausedRowIsReported`).
- A case reopened after resolution can be investigated but never again wait for the customer:
  `Disputes.ClockRefusesExactlyWhen`, `Disputes.StoppedForGood`, `Disputes.ReopenedCannotWait`.
- A closed case can have an open external track, exactly when one was opened after the move that closed it and
  not closed since: `Disputes.ClosedCaseTracksExactlyWhen`, `Disputes.TrackOnClosedCase`.
- A checkpoint can attest, as verified, records it has not walked: those appended between its walk and its
  reading of the head (`Checkpoints.CreateExtendsTiling`, `Checkpoints.UnwalkedAttested`). They are genuine if
  every append was.
- "One month at a time" does not hold of the report runner, which does not stop at a month still in flight:
  a later month can be delivered first, and the earlier one is then never owed again
  (`ReportRuns.SteppedOverExactlyWhen`, `ReportRuns.JanuarySteppedOver`, `ReportRuns.PassedIsNeverOwed`). Every
  month passed was sent, given up or in flight when it was passed (`ReportGaps.BehindIsExplained`).
- A report can be mailed more than once. By one dispatcher, which marks it sent at most once
  (`ReportRuns.SentAtMostOnce`), exactly when a drain is rolled back after it was mailed and a later drain mails
  it again (`Dispatchers.OneDispatcherSendsTwiceExactlyWhen`, `Dispatchers.SentAgainAfterRollback`). By several also
  because each reads its rows first and writes them back later without looking (`Dispatchers.SentTwiceExactlyWhen`,
  `Dispatchers.SentTwice`); not while drains keep out of each other's way (`Dispatchers.CarefulDrainsSendOnce`).
- Not every inbound message is recorded: a blank one from a verified contact, one whose text cannot be sealed
  because the subject's key is destroyed or unusable, and one whose case cannot be opened, are rolled back whole
  (`Intake.RecordedExactlyWhen`, `Intake.UnrecordedMessages`, `Intake.ShreddedIsNotHeard`): with sealing on, an
  erased customer can neither reply nor complain anew through a channel. A held message still counts as the
  latest of its thread, so it can turn a customer's own replies away into review
  (`Intake.ThreadReplyLandsExactlyWhen`, `Intake.ThreadTurnedAway`).
- Holds are read before the transaction that destroys a key. A key is destroyed under hold exactly when a hold
  was placed, or a case filed that a hold covers, in between (`Vault.DestroyedOnlyUnheld`,
  `Vault.HeldSinceExactlyWhen`); both happen (`Vault.HoldPlacedMeanwhile`, `Vault.CaseFiledMeanwhile`).
- Shredding a subject that has no key yet destroys nothing and prevents nothing later
  (`Vault.ShredErasesExactlyWhen`, `Vault.ShredOfNothing`); with sealing off, text that begins with the sealing
  prefix does not read back (`Vault.UnsealedRoundTripExactlyWhen`).
- Removing the newest audit records leaves a chain the verifier accepts; the checkpoint's head hash is what
  catches it (`Verify.RemovedRecordShows`, `Checkpoints.CheckpointFixesPrefix`).

## Model

| member | source | states |
|---|---|---|
| BusinessCalendar.Interval.Intersect | disputeshield/sla/calendar.py:48-51 | The intersection contains exactly the instants both intervals contain, and is absent exactly when there is none |
| BusinessCalendar.RefusedExactlyWhenUnusable | disputeshield/sla/calendar.py:69-81 | A calendar is refused at construction exactly when it has no open weekday or an invalid one, unless it is always open |
| BusinessCalendar.SegmentInsideDay | disputeshield/sla/calendar.py:153-171 | A day's open segment lies between that day's local midnight and the next, so segments of successive days are ordered and disjoint |
| BusinessCalendar.OpenWithinDay | disputeshield/sla/calendar.py:153-171 | Between two midnights the business is open exactly where that one day's segment says |
| CalendarLaws.OpenInHours | disputeshield/sla/calendar.py:153-171 | A calendar with hours is open exactly on local days that are no holidays, between the opening and closing times listed for the weekday, counted from Monday 1970-01-05 |
| CalendarLaws.OpenAllDay | disputeshield/sla/calendar.py:153-171 | An always-open calendar is open exactly on local days that are no holidays, whatever hours it lists |
| CalendarLaws.ContinuousIsOpen | disputeshield/sla/calendar.py:87-90 | The calendar that stands in for round-the-clock policies is open at every instant |
| BusinessCalendar.SegmentWalk.Next | disputeshield/sla/calendar.py:121-151 | Each call yields the clipped segment of the next day that has one, skipping only days with nothing left; it ends at day 366, and fails exactly on meeting 366 closed days in a row |
| Pauses.Normalise | disputeshield/sla/deadlines.py:133-161 | The result is ordered, disjoint and non-touching, and covers exactly the instants some pause covers |
| Pauses.MergeNext | disputeshield/sla/deadlines.py:155-160 | Merging the next interval in start order keeps the list separated and adds exactly its instants |
| Pauses.NormalFormUnique | disputeshield/sla/deadlines.py:133-161 | Two separated lists covering the same instants are the same list, so order, splitting, duplication and overlap of pauses never show |
| Pauses.Subtract | disputeshield/sla/deadlines.py:164-178 | The pieces are ordered, disjoint, inside the segment, and cover exactly the instants of the segment that no pause covers |
| Deadlines.ComputeDeadline | disputeshield/sla/deadlines.py:30-65 | The two nested loops return the least instant by which the window has passed counted instant by instant, or the exact reason there is none |
| Deadlines.BusinessTimeBetween | disputeshield/sla/deadlines.py:68-98 | The independent measuring loop returns the number of open, unpaused instants of the span up to the horizon, or fails exactly when the walk under it does |
| DeadlineLaws.DeadlineIsLeast | disputeshield/sla/deadlines.py:30-65 | The business time from the start to the deadline is exactly the window, and to any earlier instant it is less |
| DeadlineLaws.RoundTrip | disputeshield/sla/deadlines.py:68-80 | Measuring up to a computed deadline gives the window back, except exactly when the 366 days after the first are all closed: then the measurement fails |
| DeadlineLaws.RoundTripCanFail | disputeshield/sla/calendar.py:135-146 | A calendar open on one day and then closed for 366: the deadline is found and the measurement up to it raises |
| DeadlineLaws.MeasuredThenWalked | disputeshield/sla/deadlines.py:68-80 | From a measurement, the walk finds an instant no later with nothing counted in between, and the measured end itself exactly when the instant before it counts |
| DeadlineLaws.NoDeadlineExactlyWhen | disputeshield/sla/deadlines.py:61-65 | There is no deadline exactly when nothing opens in the first 366 days or no instant inside the horizon completes the window |
| DeadlineLaws.AdditiveExactlyWhen | disputeshield/sla/deadlines.py:68-98 | Business time adds up across an instant, although the second walk restarts at that instant's local day, exactly when no business time lies between where the two walks stop seeing; so always up to both horizons |
| DeadlineLaws.WindowsOrdered | disputeshield/sla/deadlines.py:30-65 | A longer window has a strictly later deadline, and one exists for every shorter window |
| DeadlineLaws.OnlyPausedInstantsMatter | disputeshield/sla/deadlines.py:133-142 | Two pause lists with the same paused instants give both walks the same result, failures included |
| DeadlineLaws.MorePausesNeverEarlier | disputeshield/sla/deadlines.py:38-42 | More paused instants never make a deadline earlier and never make one computable |
| DeadlineLaws.PauseMovesDeadlineExactlyWhen | disputeshield/sla/deadlines.py:38-42 | One more pause leaves a deadline in place exactly when it removes no business time before it |
| DeadlineLaws.ElapsedFraction | disputeshield/sla/deadlines.py:101-118 | The used share over the measured total, clamped, with the same failures as the two measurements |
| DeadlineLaws.FractionReachesOneAtDeadline | disputeshield/sla/deadlines.py:101-118 | The share lies between 0 and 1 and equals 1 exactly from the deadline on |
| DeadlineLaws.FractionMonotone | disputeshield/sla/deadlines.py:101-118 | The share never goes down as time passes |
| CalendarLaws.AnHourFromSunday | disputeshield/sla/deadlines.py:30-65 | Monday to Friday, nine to five: an hour from Sunday midnight is over on Monday at ten |
| CalendarLaws.AnHourOverTheWeekend | disputeshield/sla/deadlines.py:30-65 | An hour from Friday half past four is over on Monday at half past nine, and on Tuesday when Monday is a holiday |
| CalendarLaws.ThreeWorkingDays | disputeshield/sla/deadlines.py:30-65 | Twenty-four business hours from Friday half past four are over on Wednesday at half past four |
| ClockObject.StartClock | disputeshield/sla/clock.py:35-65 | Starting creates the clock, every row its policy implies and its first event, or fails with the first deadline that cannot be computed |
| ClockObject.SLAClock.PauseClock | disputeshield/sla/clock.py:68-94 | Pausing: blank reason, then wrong state, then the event; any failure leaves the stored clock as it was |
| ClockObject.SLAClock.ResumeClock | disputeshield/sla/clock.py:97-128 | Resuming closes the open pause, rewrites the rows for the longer pause list and records the event, or changes nothing |
| ClockObject.SLAClock.StopClock | disputeshield/sla/clock.py:131-144 | Stopping deletes exactly the unfired rows that are not a reopen window, or changes nothing |
| ClockObject.SLAClock.MaterialiseDeadlines | disputeshield/sla/clock.py:178-229 | All instants are computed before any row is written; a failure writes none |
| ClockObject.SLAClock.Remaining | disputeshield/sla/clock.py:271-284 | The two branches of the remaining time, before and after the first resolution row, in whole seconds towards zero |
| ClockRows.WantedDistinct | disputeshield/sla/clock.py:186-210 | The wanted deadlines are pairwise different whatever thresholds the policy lists, and only the second is the resolution |
| ClockRows.UpsertAllEffect | disputeshield/sla/clock.py:212-229 | After writing, every wanted deadline has a row that shows its instant unless it fired, row identity is kept, and nothing else changed |
| ClockLaws.MaterialiseBringsIntoStep | disputeshield/sla/clock.py:178-229 | Materialising a running clock makes every unfired wanted row equal the pure deadline and leaves none missing |
| ClockLaws.StartInv | disputeshield/sla/clock.py:35-65 | A started clock has every wanted row, in step |
| ClockLaws.RunInv | disputeshield/sla/clock.py:68-229 | In every run of pause, resume, stop, mass stop, firing and scheme rows, each unfired wanted row equals the pure deadline for the closed pauses, and an unstopped clock has them all |
| ClockMeaning.UnfiredRowShows | disputeshield/sla/clock.py:150-229 | In every run each unfired acknowledgement, resolution and warning row shows the least instant by which its window, from the policy, has run: on the policy calendar if it counts business hours only, round the clock if not, pauses left out |
| ClockMeaning.EveryDeadlineHasARow | disputeshield/sla/clock.py:186-210 | Until it stops a clock has exactly one acknowledgement row, one resolution row and one row for each listed threshold between 0 and 100 |
| ClockMeaning.StartedClock | disputeshield/sla/clock.py:35-65 | A started clock runs, unpaused, with no row fired and its start logged with what is left |
| ClockMeaning.OfficeClocks | disputeshield/sla/clock.py:150-154 | One office, two policies: an hour to acknowledge and 24 to resolve, from Friday half past four, end on Monday and Wednesday in business hours, and on Friday and Saturday round the clock |
| ClockMeaning.PauseWrites | disputeshield/sla/clock.py:68-94 | When a pause goes through, and all it writes |
| ClockMeaning.ResumeWrites | disputeshield/sla/clock.py:97-128 | What a resume asks, and all it writes but the rows |
| ClockMeaning.StopWrites | disputeshield/sla/clock.py:131-144 | What a stop keeps: exactly the rows that fired and any reopen window |
| ClockMeaning.FireWrites | disputeshield/sla/sweeper.py:112-136 | A row fires exactly when unfired, due and on a clock not stopped: acknowledgement and resolution as breaches, all others as warnings |
| ClockMeaning.SchemeWrites | disputeshield/disputes/representment.py:108-138 | The scheme window in days of 24 hours from the chargeback, with warnings at 50, 80 and 95 per cent of it, none of which a pause moves |
| ClockHistory.ResumeMovesLater | disputeshield/sla/clock.py:114-116 | A resume moves rows only later and touches no fired and no unpausable row |
| ClockHistory.NoRowMovesEarlier | disputeshield/sla/clock.py:225-229 | In every run a row is never due earlier than before, never moves once fired, and never moves at all if it is not pausable |
| ClockHistory.RunLog | disputeshield/models/clock.py:16-20 | In every run, mass resolution included, replaying the event log gives the clock's state, when it was paused and its full list of closed pauses |
| ClockTime.WarningsInOrder | disputeshield/sla/clock.py:199-210 | Warnings fall strictly in the order of their thresholds and strictly before the resolution deadline |
| ClockTime.ResolutionInStep | disputeshield/sla/clock.py:276-278 | A clock that has not stopped has exactly one resolution row, and it is in step while unfired |
| ClockTime.RemainingIsWindowLessElapsed | disputeshield/sla/clock.py:271-284 | Conservation: on a running clock with its resolution row unfired, remaining time is the window less the elapsed business time, before the deadline and past it, less what lies beyond the horizon of the measuring walk, which is nothing when the walk sees the whole span |
| ClockTime.PausedReading | disputeshield/sla/clock.py:157-175 | A paused clock reads what is left from that very instant up to the deadline, whatever the pause; past the deadline it reads what had passed between the deadline and the pause, whatever the instant, each as far as the measuring walk sees |
| ClockTime.PausedReadingFallsExactlyWhen | disputeshield/sla/clock.py:271-284 | Between two instants of a pause the remaining time never rises, and falls exactly when a whole second of business time before the deadline lies between them; from the deadline on it is frozen |
| ClockTime.PausedReadingDoesFall | disputeshield/sla/clock.py:157-175 | A clock started and paused at once reads 86400 seconds, and 86399 a second later |
| ClockTime.ReconcileClock | disputeshield/sla/reconcile.py:70-109 | The check loop returns the unfired rows counted and exactly the rows whose recomputed instant differs, or the first failure |
| ClockTime.ReconcileFindsNothing | disputeshield/sla/reconcile.py:70-99 | For every running clock any run can reach, the check examines all unfired rows, fails on none and reports none |
| ClockTime.PausedRowReportedExactlyWhen | disputeshield/sla/reconcile.py:70-99 | Where the check gets through, an unfired row of a paused clock is among its mismatches exactly when the open pause holds business time before the instant the row shows |
| ClockTime.ReportsExactly | disputeshield/sla/reconcile.py:70-99 | Where the check gets through, the rows among its mismatches are exactly the unfired ones whose recomputed instant is another |
| ClockTime.PausedRowIsReported | disputeshield/sla/reconcile.py:78-97 | A clock paused at its start and checked a second later: both its rows are reported, each a second later than it shows |
| ClockTime.ReconcileAllFindsNothing | disputeshield/sla/reconcile.py:48-67 | A tenant none of whose clocks is paused gets a clean bill of health |
| ReconcileMeaning.ReconcileAllCovers | disputeshield/sla/reconcile.py:70-99 | A tenant's check covers its running and paused clocks and no other: when it gets through, how many rows it counts, and exactly what it reports |
| Json.RenderRead | disputeshield/audit/chain.py:44-46 | The parser reads every printed value back, whatever follows it: printing has a left inverse |
| Json.RenderPrintable | disputeshield/audit/chain.py:44-46 | Printed values are printable ASCII: every character is its own byte and none is NUL |
| Json.RenderInjective | disputeshield/audit/chain.py:44-46 | Two values with the same text are the same value |
| Canonical.TextDetermines | disputeshield/audit/chain.py:7-9 | Canonical texts are equal exactly when the values are equal up to member order, and parse back to the sorted value |
| Canonical.ObjectTextIsDictionary | disputeshield/audit/chain.py:44-46 | Two objects have the same canonical text exactly when they are the same dictionary |
| CanonicalMeaning.TextIsSame | disputeshield/audit/chain.py:44-46 | Two values have one canonical text exactly when they are the same but for the order of members, at every level |
| Canonical.BeforeIs | disputeshield/audit/chain.py:44-46 | Keys are ordered by the first character in which they differ, a proper prefix first |
| Canonical.TextOfOne | disputeshield/audit/chain.py:44-46 | One text in full: members by key, no spaces, a character outside ASCII escaped |
| Chain.CanonicaliseCovers | disputeshield/audit/chain.py:39-46 | A dictionary is refused exactly when a covered field is missing; a record is hashed over all of its covered fields |
| Chain.ContentNames | disputeshield/audit/chain.py:19-36 | Under each of the twelve covered names the hashed content holds that field of the record, and it holds nothing else |
| Chain.SplitAtNul | disputeshield/audit/chain.py:52 | Content, separator and predecessor split one way |
| Chain.HashInputDetermines | disputeshield/audit/chain.py:49-54 | The text hashed determines the covered content and the predecessor hash, and depends on nothing else |
| Chain.HashDetermines | disputeshield/audit/chain.py:49-54 | Equal hashes mean equal content and predecessor, or exhibit two texts that collide |
| Chain.HeadCommits | disputeshield/audit/verify.py:76-96 | Two genuine chains with the same head hash are the same record for record, or exhibit a collision |
| Verify.VerifyTenant | disputeshield/audit/verify.py:51-99 | The loop reports, record by record, exactly the gap, predecessor and content failures of the reference, and accepts exactly the genuine chains |
| Verify.AcceptsExactlyGenuine | disputeshield/audit/verify.py:34-36 | No failures exactly when the records are numbered from 1 without a gap and linked back to genesis |
| Verify.AlteredRecordShows | disputeshield/audit/verify.py:76-96 | Altering the covered content of record i fails the content check of every record from i on and the predecessor check of every later one, none before, with the first break at i; or exhibits a collision |
| Verify.RemovedRecordShows | disputeshield/audit/verify.py:60-69 | Removing a record is reported as a gap where it was, unless it was the last: then the rest is accepted |
| AuditLog.AuditTrail.Append | disputeshield/audit/service.py:54-112 | An append goes through exactly for a named actor in no foreign tenant context, refused in that order; otherwise it adds one record, after the greatest sequence number and with the hash found there, that says of its entry who, when, about what and with what payload, hashed over just that and the predecessor; a genuine chain stays genuine |
| AuditLog.AuditTrail.AppendBatch | disputeshield/audit/service.py:115-176 | A batch adds what that many appends one after another would, every field of every record accounted for, or is refused whole |
| AuditLog.AuditTrail.Correct | disputeshield/audit/service.py:179-197 | A correction leaves the original in place and appends a record that names it |
| AuditLog.AppendOneGenuine | disputeshield/audit/service.py:81-112 | Appending to a genuine chain gives a genuine chain |
| AuditLog.LinkWrites | disputeshield/audit/service.py:81-112 | The record of an append, field by field, and where it is placed |
| AuditLog.EachWritten | disputeshield/audit/service.py:153-175 | The same of each record of a batch |
| AuditLog.AppendEachGenuine | disputeshield/audit/service.py:153-175 | n appends extend a genuine chain by exactly n records |
| AuditLog.AppendEachSplits | disputeshield/audit/service.py:124-126 | How entries are split between batches does not show in the chain |
| AuditLog.GenuineNewest | disputeshield/audit/service.py:86-94 | In a genuine chain the greatest sequence number is the length and its hash the head |
| Locking.CommittedChainsVerify | disputeshield/audit/service.py:81-112 | In every interleaving of transactions that append to any tenants, take savepoints, roll back or commit, with lock keys shared in any way, each tenant's committed rows are a chain the verifier accepts |
| Locking.UniqueConstraintHolds | disputeshield/audit/service.py:200-210 | No transaction ever meets the unique constraint on tenant and sequence, against committed rows or its own |
| Locking.CommittedOnlyGrows | disputeshield/audit/service.py:81-112 | Committed rows are never rewritten: each tenant's chain only grows |
| Locking.LinksAreAppends | disputeshield/audit/service.py:153-175 | What a transaction writes from the head it read is what appending one record at a time gives |
| Locking.CommitKeepsOther | disputeshield/models/tenant.py:94-102 | A commit leaves every other open transaction, whose locks are disjoint, with the head it read still the head |
| Locking.TwoReadersFork | disputeshield/audit/service.py:200-210 | Without exclusion: two transactions that had read one head would commit two rows with one sequence number |
| TransactionLaws.SavepointUndone | disputeshield/audit/service.py:141-176 | Rolling back to a savepoint restores the rows a transaction had and the locks it held then, and no others, whatever was appended since and by whom |
| TransactionLaws.SavepointReleased | disputeshield/audit/service.py:141-176 | Releasing one keeps what was appended since, and the savepoints set before |
| TransactionLaws.CommitWrites | disputeshield/audit/service.py:81-112 | A commit adds exactly the rows of its transaction, in order, once no savepoint is open and no append under way |
| Checkpoints.CheckpointStore.Create | disputeshield/audit/checkpoints.py:70-116 | Nothing new makes no checkpoint; otherwise one from the last end plus one to the head as it is after the walk, marked with whether the chain walked verified and how many records it had |
| Checkpoints.CreateExtendsTiling | disputeshield/audit/checkpoints.py:77-107 | Over a genuine chain that grows, even between the walk and the reading of the head, a checkpoint closes the gap exactly; its record count falls short of its end exactly when records came in between, and those are attested without having been walked |
| Checkpoints.UnwalkedAttested | disputeshield/audit/checkpoints.py:77-107 | It happens: a tenant's first record, appended after the walk over nothing, is attested as verified by a checkpoint that counts no record |
| Checkpoints.CheckpointsTile | disputeshield/audit/checkpoints.py:86-99 | Over every growing genuine chain, whatever is appended during a checkpoint, successive checkpoints tile 1 to the head, and each attests the head hash at its end |
| Checkpoints.EachRecordOnce | disputeshield/audit/checkpoints.py:86-99 | Every record up to the last checkpoint is in exactly one range |
| Checkpoints.CheckpointFixesPrefix | disputeshield/audit/checkpoints.py:98-116 | A genuine chain with a checkpoint's head hash at its end has the attested records up to there, or exhibits a collision |
| Checkpoints.SignedTextDetermines | disputeshield/audit/checkpoints.py:43-67 | The signed text determines every published field |
| Checkpoints.SignedNames | disputeshield/audit/checkpoints.py:43-67 | What is signed, under which name |
| Checkpoints.AlteredCheckpointShows | disputeshield/audit/checkpoints.py:119-128 | Altering any published field of a validly signed checkpoint invalidates the signature, or exhibits a collision under the key |
| Disputes.FiledCaseInEveryRun | disputeshield/disputes/service.py:156-264 | In every run of a filed case (transitions, resolutions, mass resolutions, firings, scheme clocks, external tracks): awaiting the customer exactly when paused, submitted and acknowledged running, resolved, reopened and closed stopped; existing rows equal the queue columns; the audit trail leads to the status |
| Disputes.EveryRunKeeps | disputeshield/disputes/service.py:411-442 | Every move, and every run of moves, keeps the agreement of status, clock, rows, columns and audit trail |
| Disputes.TableFits | disputeshield/disputes/states.py:45-96 | Every row of the table leads to a status that fits the clock's state after the row's effect |
| Disputes.EveryMoveIsNoted | disputeshield/disputes/service.py:166-228 | A status changes only along the table, by an actor it allows, with a reason where it asks for one, leaving exactly one note that says who, why and what is left on the clock; never into a terminal status while a track is open |
| DisputeRules.TableIs | disputeshield/disputes/states.py:45-96 | The table pair by pair, written out on its own: the thirteen moves and triggers, who may make each and which ask for a reason |
| DisputeRules.RefusedExactlyWhen | disputeshield/disputes/service.py:166-192 | When a move is refused and with what, in the order of the checks; any other goes ahead |
| DisputeRules.MoveWrites | disputeshield/disputes/service.py:194-228 | All a move writes to its case: status, the two stamps, and the note |
| DisputeRules.MoveTouchesClock | disputeshield/disputes/service.py:411-421 | Which moves pause, resume and stop the clock; no other touches it |
| DisputeRules.ResolveWrites | disputeshield/disputes/service.py:231-264 | One of four outcomes, notes, and the finding kept with what was said |
| DisputeRules.MassResolveWrites | disputeshield/disputes/mass_events.py:153-198 | A mass finding resolves exactly the cases being investigated or escalated, and all it writes to them |
| DisputeRules.EveryNoteIsLawful | disputeshield/disputes/service.py:166-228 | In every run, every note of the trail is of one of the thirteen moves, by someone who may make it, named, with a reason where one is asked for: only the system closes a case automatically, only it or a user closes one |
| DisputeRules.FiledNotesAreLawful | disputeshield/disputes/service.py:84-136 | So for every run of every filed case |
| Disputes.ClockRefusesExactlyWhen | disputeshield/disputes/service.py:411-421 | The clock refuses a move for its state exactly when information is requested on a case whose clock has already stopped |
| Disputes.ReopenedCannotWait | disputeshield/disputes/states.py:85-96 | A case filed, resolved, reopened and picked up again: asking its customer for papers is refused because its clock is stopped |
| Disputes.StoppedForGood | disputeshield/disputes/states.py:87-88 | Once its clock has stopped, no continuation ever runs it again or has the case wait for the customer |
| Disputes.AcknowledgingLeavesTheClock | disputeshield/disputes/states.py:46 | Acknowledging changes nothing on the clock: an unfired acknowledgement row stays armed |
| Disputes.AcknowledgedAndBreached | disputeshield/disputes/states.py:46 | A case filed and acknowledged at once is in breach of its acknowledgement deadline an hour later |
| Disputes.TrackOpenExactlyWhen | disputeshield/disputes/escalation.py:12-136 | After any history a track is open exactly when some move opened it and none after that closed it, or it was open before and no move closed it |
| Disputes.ClosedCaseTracksExactlyWhen | disputeshield/disputes/service.py:177-191 | From the move that closes a case on, it stays closed, and its open tracks are exactly those opened after that move and not closed since: none was open at it |
| Disputes.ClosedByOneMove | disputeshield/disputes/states.py:98-104 | A case that is closed was closed by exactly one move of its history |
| Disputes.TrackOnClosedCase | disputeshield/disputes/escalation.py:12-47 | A case filed, resolved and closed with no track open, and then one opened: it is closed with an open track |
| Disputes.SyncInStep | disputeshield/disputes/service.py:424-442 | After syncing, both queue columns equal their rows |
| DisputeObject.FileDispute | disputeshield/disputes/service.py:84-136 | Filing starts the clock, takes both columns from its rows and keeps the sealed description, or creates nothing: the filer unnamed, a deadline not computable, or the description not sealed |
| DisputeObject.Case.TransitionTo | disputeshield/disputes/service.py:156-228 | The checks in their order, then status, stamps, clock effect, columns and note together, or nothing |
| DisputeObject.Case.ResolveCase | disputeshield/disputes/service.py:231-264 | A known outcome, notes, then the move to resolved with the finding, or nothing |
| DisputeObject.Case.SyncDeadlines | disputeshield/disputes/service.py:424-442 | The columns become the instants of the last row of each kind, where there is one |
| DisputeObject.Case.ResolveByMass | disputeshield/disputes/mass_events.py:153-198 | The in-place writes of a mass finding on one case are the reference step on it |
| MassEvents.MassEvent.ApplyOutcome | disputeshield/disputes/mass_events.py:90-143 | For every batch size of at least one: the final memberships, cases, SLA events and chain are those of handling the pending members one by one in key order, applied plus skipped is their number and none is left pending; with nobody named, nothing is resolved |
| MassEvents.MassEvent.ApplyBatch | disputeshield/disputes/mass_events.py:146-232 | One batch, its events and records written at its end, is its members handled one by one, or leaves nothing |
| MassEvents.SettledThenBooked | disputeshield/disputes/mass_events.py:163-230 | Writing a case now and its event and record at the end of the batch is resolving it at once |
| MassEvents.EachHandledOnce | disputeshield/disputes/mass_events.py:153-201 | A pending member's case ends resolved if it could be and untouched otherwise, whatever the other members, and its membership is marked |
| MassEvents.HandledLog | disputeshield/disputes/mass_events.py:203-230 | One record for each resolved case, extending a genuine chain to a genuine chain |
| FanOutMeaning.FanOutWrites | disputeshield/disputes/mass_events.py:116-201 | A member that was not removed and not handled is marked, and its case resolved with the finding if it was being investigated or escalated; every other member and case is as it was |
| FanOutMeaning.FanOutReports | disputeshield/disputes/mass_events.py:128-143 | The report counts the cases resolved and lists the others handled, in key order |
| FanOutMeaning.FanOutRecords | disputeshield/disputes/mass_events.py:203-230 | One record for each case resolved, in key order: the acting user, the case, both statuses, the finding and the event, each chained to the one before |
| FanOutMeaning.OtherCases | disputeshield/disputes/mass_events.py:146-232 | A case that is no member is untouched |
| MassEvents.PendingAfter | disputeshield/disputes/mass_events.py:116-126 | After the first k pending members are handled the pending query returns exactly the others |
| MassEvents.FanOutKeepsCases | disputeshield/disputes/mass_events.py:146-232 | A fan-out keeps the case invariant of every case |
| Schedules.MonthsAdjoin | disputeshield/reports/schedules.py:66-67 | The next month begins where this one ends, with the right number of days in every year |
| Schedules.PreviousHoldsTheDayBefore | disputeshield/reports/schedules.py:286-287 | The previous month is the one holding the day before the first |
| Schedules.MonthBoundsTile | disputeshield/reports/schedules.py:70-80 | Consecutive month bounds share their boundary instant and are never empty |
| Schedules.MonthsDisjoint | disputeshield/reports/schedules.py:73-75 | No instant is in two months |
| Schedules.FireTimesOrdered | disputeshield/reports/schedules.py:83-94 | Later months fall due strictly later |
| Schedules.DueMonthsAreClosed | disputeshield/reports/schedules.py:83-94 | A month falls due only after it has ended |
| Schedules.PeriodsOwed | disputeshield/reports/schedules.py:97-126 | The walk ends and returns the earliest twelve months after the anchor that are due and not abandoned |
| Schedules.EarliestOwedUnique | disputeshield/reports/schedules.py:97-126 | That list is the only one |
| ReportMeaning.FallsDue | disputeshield/reports/schedules.py:66-94 | Counting from 1970-01-01: a report falls due in the following month on the day and at the hour of its schedule, local time, and covers its month from midnight to midnight |
| ReportMeaning.JanuaryFallsDue | disputeshield/reports/schedules.py:66-94 | January 2026, due on the third at eight: from day 20454 to 20485, due on day 20487 |
| ReportMeaning.OwedIs | disputeshield/reports/schedules.py:97-126 | A month is owed exactly when it is after the last one reported, or not before the making of the schedule, has fallen due and was not given up |
| ReportMeaning.TwelveAtMost | disputeshield/reports/schedules.py:46-50 | At most twelve months a run, and all that are owed when they are fewer |
| Recipients.ResolveRecipients | disputeshield/reports/delivery.py:79-110 | The whole list is refused if any address is unknown; otherwise each wanted address once, in order, as registered |
| Recipients.ResolvedIsStable | disputeshield/reports/delivery.py:79-110 | A resolved list resolves to itself, so a schedule that stores it finds its own rows again |
| Recipients.KeySaysWhatItIsAbout | disputeshield/reports/delivery.py:293-315 | Two key texts are equal exactly when period, recipients in any order and attempt are equal |
| ReportMeaning.MaterialIs | disputeshield/reports/delivery.py:293-315 | The text of a key: period, addresses in order, and the number of a later attempt |
| ReportRuns.OneLiveRow | disputeshield/reports/schedules.py:162-193 | In every interleaving of runner, people and dispatcher a period has at most one row that has not failed |
| ReportRuns.SentAtMostOnce | disputeshield/notifications/dispatcher.py:155-194 | In every interleaving with one dispatcher, a period is marked sent at most once, and exactly once when one of its rows is |
| OutboxKeys.StoredRunAgrees | disputeshield/reports/delivery.py:293-315 | Stored under the digest of its material, the outbox goes through exactly the states of the protocol, row by row, in every interleaving, unless two different keys the run asked for have one digest |
| OutboxKeys.ClashIsCollision | disputeshield/reports/delivery.py:293-315 | Two different well-formed keys with one digest are two different texts that collide |
| OutboxKeys.StoredOneLiveRow | disputeshield/reports/delivery.py:293-315 | Of the rows as stored a period has at most one that has not failed, or here are two texts that collide |
| OutboxKeys.StoredSentAtMostOnce | disputeshield/reports/delivery.py:293-315 | The rows of a period as stored are marked sent at most once, or here are two texts that collide |
| Dispatchers.NotesTellExactlyWhen | disputeshield/notifications/dispatcher.py:155-194 | With any number of dispatchers, each committing a whole drain at its end, the messages of a period that went out are exactly as many as is noted in the store or in an open drain, none or one, exactly as long as nothing slips: no second message while the first is noted, no note of it lost with a drain rolled back or under a stale row |
| Dispatchers.SentTwiceExactlyWhen | disputeshield/notifications/dispatcher.py:155-194 | More than one message of a period goes out exactly when one goes out at, or any time after, such a slip |
| Dispatchers.CarefulDrainsSendOnce | disputeshield/notifications/dispatcher.py:164-192 | As long as a row is tried only while it waits and no other open drain has tried it, and no drain that has sent anything is rolled back, the invariant of the protocol holds with any number of dispatchers and a period goes out at most once |
| Dispatchers.CommitsWhole | disputeshield/notifications/dispatcher.py:155-194 | A drain commits only as a whole: it writes back every row it was asked for that waited when it began, and no other, whatever happened in between |
| Dispatchers.OneDispatcherIsProtocol | disputeshield/notifications/dispatcher.py:155-194 | On its own, a dispatcher that reads first, writes back later and commits whole drains reaches the states of the protocol |
| Dispatchers.OneDispatcherSendsTwiceExactlyWhen | disputeshield/tenancy/platform.py:58-64 | With one dispatcher, more than one message of a period goes out exactly when a drain that had sent it is rolled back and one goes out again later |
| Dispatchers.SentAgainAfterRollback | disputeshield/tenancy/platform.py:58-64 | One dispatcher and one request: the drain that sent it is rolled back, and the next drain sends it again |
| Dispatchers.SentTwice | disputeshield/notifications/dispatcher.py:155-194 | Two dispatchers read one row: it goes out twice, or it goes out, is marked waiting again by the one that failed, and goes out once more |
| ReportRuns.ProgressIsEarned | disputeshield/reports/schedules.py:169-182 | The record of progress only moves forward and only to a sent month; a month is abandoned only after three attempts each failed six times, and once |
| ReportRuns.PassedIsNeverOwed | disputeshield/reports/schedules.py:105-117 | A month behind the record of progress is never owed again in any continuation |
| ReportGaps.BehindIsExplained | disputeshield/reports/schedules.py:145-182 | In every interleaving, each month between the making of a schedule and its record of progress was sent, or given up with all its attempts failed, or was in flight when the runner looked at it and went past |
| ReportRuns.SteppedOverExactlyWhen | disputeshield/reports/schedules.py:145-157 | An uninterrupted run leaves a month behind, undelivered and not abandoned, exactly when it is in flight and the run reaches a later delivered month |
| ReportRuns.OneMonthSteppedOver | disputeshield/reports/schedules.py:152-157 | Whenever two months are owed, there is a run in which the first is still being tried when the second is delivered and recorded |
| ReportRuns.JanuarySteppedOver | disputeshield/reports/schedules.py:105-157 | A schedule it happens to: made in January 2026, it sends and records February's report while January's waits, and January is never owed again |
| ReportRuns.FinishIs | disputeshield/reports/schedules.py:141-159 | An uninterrupted run records the last delivered month before the first it has to queue, and abandons exactly the used-up ones before it |
| ReportRuns.AttemptsFound | disputeshield/reports/schedules.py:228-240 | The rows found for a period are attempts 0, 1, ... with none missing |
| ReportDesk.Desk.AdvanceOnePeriod | disputeshield/reports/schedules.py:162-225 | One month: which outcome its rows call for, and what that outcome writes |
| ReportDesk.Desk.RunSchedule | disputeshield/reports/schedules.py:141-159 | The loop over the owed months is the uninterrupted run of the protocol, and each counter is the number of months visited that had its outcome |
| ReportDesk.Desk.Drain | disputeshield/notifications/dispatcher.py:155-194 | Each claimed row is tried once; the counters are the numbers of rows that end up sent, waiting again and parked |
| ReportDesk.TriedOnceEach | disputeshield/notifications/dispatcher.py:164-192 | A dispatch changes each claimed row once and no other |
| ReportDesk.DispatchIsSteps | disputeshield/notifications/dispatcher.py:164-192 | A dispatch is a sequence of the dispatcher steps of the protocol |
| Intake.EveryMessageEarned | disputeshield/intake/router.py:105-139 | In every run, a message on a case has a sender who is a contact of it on that channel, who either opened it or was attributed by a named person with a reason |
| Intake.AppendedExactlyWhen | disputeshield/intake/router.py:68-139 | A received message is added exactly when it found the case, its sender was already a contact, its body is not blank and it can be sealed for the case's subject; it is stored sealed; a stranger's is held and changes nothing else |
| Intake.RecordedExactlyWhen | disputeshield/intake/router.py:54-82 | Everything received is recorded, except exactly: a message from a case's contact that is blank or cannot be sealed for its subject; and one that would open a case when no clock can be started, its text cannot be sealed for the sender or the names are taken |
| Intake.AttributedExactlyWhen | disputeshield/intake/router.py:203-236 | A decision goes through exactly when it has a reason and a name, message and case exist, and the message is not blank and can be sealed |
| Intake.ShreddedIsNotHeard | disputeshield/disputes/service.py:266-289 | A customer whose key was destroyed after the case was opened: neither a reply in the thread nor a new complaint is added or recorded |
| Intake.UnrecordedMessages | disputeshield/intake/router.py:54-82 | Both happen: the empty follow-up of a customer, and a first message when no clock can be started, are refused and leave no record |
| Intake.NobodyTalksTheirWayIn | disputeshield/intake/router.py:85-139 | No number of received messages, whatever threads and references they use, makes anyone a contact of an existing case or adds a non-contact to it |
| Intake.ThreadReplyLandsExactlyWhen | disputeshield/intake/router.py:90-102 | A contact's unquoted reply lands on their case exactly while the latest placed message of its thread is on that case, held ones included, and it can be sealed for the case's subject |
| Intake.ThreadTurnedAway | disputeshield/intake/router.py:90-121 | A customer's reply that would land on their case is held instead after a stranger's held message that quotes another case in the same thread |
| Intake.Router.ReceiveMessage | disputeshield/intake/router.py:45-82 | Record first, then decide; any failure, sealing included, leaves no trace |
| Intake.Router.AttributeMessage | disputeshield/intake/router.py:203-236 | A reason, an existing case, a body, its sealing and a named person; then contact, message, record and audit together |
| Intake.LatestOnThread | disputeshield/intake/router.py:91-99 | The latest placed message of a channel and thread, or none |
| IntakeMeaning.FindsCase | disputeshield/intake/router.py:85-102 | A quoted reference decides alone, known or not; without one the case is that of the latest message placed on the thread of the channel |
| IntakeMeaning.IgnoredWrites | disputeshield/intake/router.py:54-76 | Automatic replies and messages from nobody are recorded, sender and thread by digest, and nothing else happens |
| IntakeMeaning.AppendWrites | disputeshield/intake/router.py:105-139 | A message about a case is held for review unless its sender is a contact of the case, and then added to it, in text that reads back as sent |
| IntakeMeaning.FileWrites | disputeshield/intake/router.py:142-189 | Any other message opens a case with its sender as subject and first contact, or is left for review without a policy |
| IntakeMeaning.AttributeWrites | disputeshield/intake/router.py:203-236 | A decision puts the message on the case with who and why, in text that reads back, and makes its sender a contact |
| Vault.SealedContentInEveryRun | disputeshield/crypto/vault.py:102-133 | In every run sealed content reads back as written while its key is live and as the marker once destroyed, whatever happened to other subjects, and the audit chain is genuine |
| Vault.HeldSinceExactlyWhen | disputeshield/crypto/vault.py:162-171 | Once a shred has passed its checks, and whatever is done then, its subject is under hold exactly by way of an active hold placed since, or of a case filed since that an older active hold covers |
| Vault.HeldExactlyWhen | disputeshield/retention/holds.py:126-137 | A subject is held exactly when an unreleased hold names one of its cases, the subject, the category of one of its cases, or a period that one was submitted in |
| Vault.HeldAndNot | disputeshield/models/holds.py:92-107 | A hold on a case and holds on periods at both ends: which keep the case back |
| Vault.PlacedExactlyWhen | disputeshield/retention/holds.py:32-76 | What a hold must have to be placed, text by text and scope by scope |
| Vault.DestroyedOnlyUnheld | disputeshield/crypto/vault.py:153-189 | In every run, a destroyed key was asked for by two different people with a reason, and its shred had found no hold earlier in the run; the subject is held at the destruction exactly by way of a hold placed or a case filed in between, so not at all when there is none |
| Vault.HoldLiftedOnlyByTwo | disputeshield/retention/holds.py:79-115 | A hold is lifted only by its own release, by two different people with a reason, and no step changes it otherwise or removes it |
| Vault.DestroyedForGood | disputeshield/crypto/vault.py:72-90 | Once a key is destroyed no step gives its subject another, and its sealed content reads as the marker |
| Vault.ShredErasesExactlyWhen | disputeshield/crypto/vault.py:170-189 | A shred that goes through is final exactly when the subject already had a key; with none, the next text sealed is readable |
| Vault.ShredOfNothing | disputeshield/crypto/vault.py:170-189 | It happens: a shred before anything was sealed goes through, is recorded and destroys nothing, and what is sealed next is readable |
| Vault.SealRefusedExactlyWhen | disputeshield/crypto/vault.py:85-109 | Sealing fails exactly when it is on, the text is not empty and the subject has a key that is destroyed or that the master key cannot unwrap, and says which |
| Vault.UnsealedRoundTripExactlyWhen | disputeshield/crypto/vault.py:104-124 | With sealing off, text reads back as it is exactly when it does not begin with the sealing prefix |
| VaultMeaning.SealWrites | disputeshield/crypto/vault.py:102-133 | Text is stored behind the sealing prefix under a data key that the master key unwraps, and reads as written; with sealing off it is stored as it is |
| Vault.HoldPlacedMeanwhile | disputeshield/crypto/vault.py:162-171 | A run in which a hold on the subject is placed between the check and the transaction, and the key is destroyed under hold |
| Vault.CaseFiledMeanwhile | disputeshield/crypto/vault.py:162-171 | A run in which a case of the subject is filed between the two, covered by a hold on its category, and the key is destroyed under hold |
| VaultObject.Tenant.HoldsForCustomer | disputeshield/retention/holds.py:126-137 | The loops find exactly the unreleased holds of the four kinds that keep the subject back: on one of its cases, on it, on the category or the submission of one of its cases |
| VaultObject.Tenant.HoldsOn | disputeshield/models/holds.py:92-107 | Exactly the active holds whose scope covers the case |
| VaultObject.Tenant.PlaceHold | disputeshield/retention/holds.py:32-76 | A matter and a reason, then the texts that must be there and fit and the field its scope needs, then hold and record together |
| VaultObject.Tenant.ReleaseHold | disputeshield/retention/holds.py:79-115 | A reason, a second and different person, an active hold, then release and record together |
| VaultObject.Tenant.ShredKey | disputeshield/crypto/vault.py:140-207 | The checks in order, refused for a hold exactly when one of the four kinds keeps the subject back; then destruction and record together |
| VaultMeaning.ShredWrites | disputeshield/crypto/vault.py:140-207 | When a shred goes through, and all it writes: the key gone but for what was signed, and one record of it |
| VaultMeaning.PlaceWrites | disputeshield/retention/holds.py:32-76 | The record of a hold placed |
| VaultMeaning.ReleaseWrites | disputeshield/retention/holds.py:79-115 | When a release goes through, and all it writes |
| VaultObject.Tenant.SealText | disputeshield/crypto/vault.py:102-109 | Sealing under the subject's key, made on first use and never replaced |

## Left out

- Python's dates: naive datetimes, the year limits of `datetime` and the clipping at its maximum; calendar hours are whole microseconds of a local day.
- Payload values outside RFC 8259 sections 4 to 7: floating-point numbers, strings with lone surrogates and values rendered by `default=str`; timestamps in audit content are already-rendered strings.
- The audit records written inside clock and case operations are kept as notes and events on those objects; their placing on the chain is modelled in AuditLog, Locking, MassEvents and Vault, where an operation writes both together.
- DeadlineLaws.RoundTrip: equality fails on the closed-year calendar, as stated; it holds for every other calendar, start, window and set of pauses.
- ClockTime.PausedReadingFallsExactlyWhen: where the walk from either instant reaches the deadline; ClockTime.PausedReading says what is read where it does not.
- Locking.CommittedChainsVerify: transactions read committed data and their own writes, as under READ COMMITTED; deadlock and lock timeouts are not modelled.
- ReportRuns.SentAtMostOnce: rows marked sent, by one dispatcher; Dispatchers counts messages that go out, with any number of dispatchers and drains rolled back.
- ReportRuns.SteppedOverExactlyWhen: the run is not interleaved with other steps; ReportGaps.BehindIsExplained is about every interleaving.
- OutboxKeys.StoredOneLiveRow: for bounds without a bar and addresses with a domain and no comma, as in Recipients.KeySaysWhatItIsAbout.
- OutboxKeys.StoredSentAtMostOnce: for the same keys, rows marked sent by one dispatcher.
- Checkpoints.CheckpointsTile: the record count a checkpoint attests is how many records were walked; it equals the end of its range only when nothing was appended meanwhile, as Checkpoints.CreateExtendsTiling says. One checkpoint is made at a time: two that read the same previous one and different heads would write ranges that overlap, since only the end of a range is unique.
- ReportRuns.ProgressIsEarned: one runner at a time, interrupted anywhere; recipients are fixed while it runs, because the idempotency key depends on them.
- Recipients.KeySaysWhatItIsAbout: for bounds without a bar and addresses with a domain and no comma; the same instants written with another UTC offset are another key.
- VaultObject.Tenant.ShredKey: the check and the destruction with nothing in between; Vault has them as two steps of a run.
- MassEvents.MassEvent.ApplyOutcome: skipped cases are listed by identifier rather than by reference, and memberships added while it runs are not modelled.
- Intake.RecordedExactlyWhen: the caller works for the tenant it receives for, so that no audit record is refused, and what is received fits its columns; a case's sealed description is not kept in the model.
- Disputes.FiledCaseInEveryRun: for cases filed through the service; cases and clocks created by the CSV importer have no events and start stopped.
- Two requests changing one case at the same time, and the Python objects left in memory after a rollback.
- The sweep itself: firing a due row is an environment step on the clock, and breach flags on the case are not modelled.
- Truncation of stored reasons to the length of their column, and ties between messages of one thread received at the same instant, where the model keeps the earlier row.
- Deciding erasure requests, retention sweeps, anchoring, connectors, webhooks, deflection, triage and analytics: simple writes, foreign calls or aggregates.
- The database itself, row-level security, Celery, HTTP views, serializers, authentication and the widget: infrastructure and input and output.
- Channel normalisation and regular expressions, e-mail sending, PDF, ZIP and CSV rendering.
