# knievel: verified models of the hot path and the background jobs

knievel is an ad server: a decision endpoint answers from an in-memory snapshot,
signed URLs come back as impressions and clicks, events are buffered and flushed to
a day-partitioned table, and leader-elected jobs premake partitions and roll events
up by the hour. This project models that logic in Dafny and proves what it is for.
It depends on nothing outside this directory.

| module | models |
|---|---|
| `Calendar`, `LeafNames` | epoch day to civil date, daily partition names and their string order |
| `Partitions`, `PartitionRuns` | maintenance passes over a catalog of partitions, with failing DDL |
| `Rollup`, `RollupRunners`, `RollupResults`, `RollupWatermark` | the hourly rollup, with any number of overlapping runners, arrivals and detached days |
| `Retention` | the retention sweep and the rollup together |
| `Leader` | leader election over one session-owned lock |
| `Snapshots`, `SnapshotLoader` | the snapshot reload, and the loader racing with writers |
| `Selection`, `SampleRolls` | filter, priority tier, weighted sampling without replacement; what the rolls decide |
| `Base64Url`, `Wire`, `SignedUrls`, `EventEndpoints` | the signed record, verification, the event endpoints |
| `Decisions`, `DecisionProperties`, `Explain` | a whole decision request, and the explainer |
| `Events` | the bounded event channel and its flusher |
| `Batch` | batch upserts with one savepoint per row |
| `Pagination` | cursors, and walks over changing tables |

How it is modelled:

- Postgres is maps and sequences changed by atomic steps. Concurrent parts
  (`RollupRunners`, `Leader`, `SnapshotLoader`) are step systems with arbitrary
  interleaving; the sequential jobs are classes and methods tied to functions.
- The MAC, template rendering, host extraction and user-agent hashing are arbitrary
  functions; random rolls are an arbitrary stream, another one for every request; the clock, DDL outcomes, crashes
  and flush failures are inputs. Cursor JSON is any printer with a parser that undoes it.
- Integers are unbounded except where width matters: the year narrowed to 32 bits, the
  candidate count narrowed to 32 bits, the 64-bit weight total, wrapping nonce
  arithmetic, big-endian 64-bit fields, saturating age. Unsigned subtractions in the
  date arithmetic are on `nat`, so none underflows.

Assumptions: no event earlier than a target already used by a rollup pass, and none of
a detached day, arrives or changes its duplicate mark later. `date_trunc` works in UTC.
Database sessions own the advisory lock, and a failed liveness check means the session
is lost. Ids are unique where a row says so.

Where the code and its description differ, the code is modelled, and the exact
condition under which it does what is described is proved:

- Premake covers today and the next three days, not today plus four
  (`PartitionRuns.PassIsExact`); aged leaves are detached, not dropped, and by name, not
  by bound. Names order as days iff the cutoff is in year 9999 or before
  (`LeafNames.LeafOrderIsDayOrderIff`).
- The seed leaf of a fresh install spans the year 2026. After any run of passes from an
  install, the next pass succeeds iff the seed is gone or none of its four days is in
  2026 (`PartitionRuns.InstalledPassIff`); passes during 2026 change nothing at all, so
  no leaf for 2027 exists until the first pass in 2027 (`PartitionRuns.SeedStalls2026`).
  The sweep takes the seed as soon as the cutoff enters 2026, before its rows are all
  aged (`PartitionRuns.SeedSweptIff`).
- The rollup watermark is said to advance monotonically. It does while no two runners
  are in the middle of a pass at once (`RollupWatermark.LoneRunnersOnlyAdvance`); a step
  sets it back exactly when its runner writes below it
  (`RollupWatermark.StepLowersWatermarkIff`), which overlapping leaders reach
  (`RollupWatermark.OverlapCanSetWatermarkBack`). No row is wrong for it. A pass that
  finds its first event at or past the target returns that hour without storing it
  (`RollupWatermark.LoneFinish`).
- The retention sweep does not look at the rollup. Rows stay right as long as a day is
  detached after the watermark has passed it (`RollupResults.RollupIsOneGroupBy`); a day
  detached earlier stays as wrong as it was (`RollupResults.DetachedRowsAreFrozen`). With
  an up-to-date rollup that holds for every retention of a day or more, except in the
  first hour of 2027 on an installation that still has its seed leaf: there the sweep
  takes the last hour of 2026 before it is rolled up, with the default retention too. At
  retention 0 it fails in the first hour of every day
  (`Retention.PassWaitsForRollupIff`, `Retention.LastHourOf2026IsLost`).
- A pass reports success for a day whose name is a table but not a leaf, and leaves it
  without a partition, as when the clock has gone back past a sweep
  (`PartitionRuns.SuccessCoversIff`).
- Changes are said to reach the snapshot within a poll. No statement of the repository
  draws a number from the `config_version` sequence, and without one an up-to-date store
  is never loaded again, whatever is committed
  (`SnapshotLoader.WithoutNumbersNothingReloads`). Where writers do draw numbers, a number
  shows before its data commits, and the first number drawn shows already, so a commit
  after its number was polled waits for the next number
  (`SnapshotLoader.OpenWritesArePickedUpIff`, `SnapshotLoader.WriteIsPickedUpIff`). What a
  reload promises holds when nothing was open as the version was read
  (`SnapshotLoader.ServedCoversItsVersion`).
- The overlap after a secret rotation does not exist: no reload fills in a previous
  secret, so a URL signed before the rotation is refused after it, but for a tag collision
  (`EventEndpoints.ReloadedSnapshotsDoNotOverlap`).
- The explainer is said to match what a decision would have done. Each request seeds its
  own generator, so without an override the two pick the same ads, whatever the rolls, iff
  the rounds drawn are none or cover every top-tier ad that can be drawn
  (`Explain.PicksAgreeIff`); all else it reports does not depend on the rolls
  (`Explain.RollsDecideOnlyPicks`).
- A decision request that is refused for a saturated channel has queued the events before
  the first refusal all the same (`Decisions.Respond`).
- The reload guards the template join by project, and no other join
  (`Snapshots.ClickTargetIsOwnIff`, `Snapshots.FlightTakesReferredRows`).
- When the best tier has only ads of weight 0, nothing is served, even if a lower tier
  could (`Selection.ServesNothingIff`).
- Two placements of one response that serve the same ad share a nonce and a dedup key
  (`DecisionProperties.SameAdSharesDedupKey`).
- Blocked creative ids are accepted and never consulted. The explainer has no rule for
  dates or zones (`Explain.ListedRulesIff` says exactly what it leaves out).

## Model

| member | source | states |
|---|---|---|
| Calendar.CivilFromDaysCorrect | src/partitions.rs:47-60 | for every day number, negative ones included, the arithmetic yields a date that exists and whose independently counted day number is the input |
| Calendar.CivilInvertsDayNumber | src/partitions.rs:47-60 | and it inverts counting on every valid date, so the two are a bijection |
| Calendar.CivilFollowsCalendar | src/partitions.rs:47-60 | consecutive day numbers are consecutive calendar dates under the 4/100/400 rule |
| Calendar.DateOrderIsDayOrder | src/partitions.rs:47-60 | dates compare as their day numbers do |
| Calendar.YmdExactIffYearFits | src/partitions.rs:48-59 | narrowing the year is harmless iff the true year fits 32 bits |
| LeafNames.LeafSpellsDate | src/partitions.rs:38-43 | a leaf name spells the true civil date of its day |
| LeafNames.LeafOrderIsDayOrder | src/partitions.rs:38-43 | leaf names compare byte-wise exactly as days do, for leaves in years 0000 to 9999 and cutoffs down to the first representable year; names are unique |
| LeafNames.LeafOrderBreaksAtYear10000 | src/partitions.rs:99-100 | every cutoff from year 10000 on, as far as the year fits 32 bits, sorts before the last day of year 9999 |
| LeafNames.LeafOrderIsDayOrderIff | src/partitions.rs:96-100 | so comparing names as strings is comparing days for every leaf iff the cutoff is in year 9999 or before |
| Partitions.DayStart | src/partitions.rs:32-35 | the truncated instant is the midnight of its UTC day, for negative instants too |
| Partitions.PartitionedTable.RunOnce | src/partitions.rs:65-123 | a pass, statement by statement and with any DDL failing, has the effect of the pass function that the lemmas below characterise |
| Partitions.PartitionedTable.PremakeLeaves | src/partitions.rs:68-92 | the premake loop stops at the first failure and keeps what it made |
| Partitions.PartitionedTable.DetachAged | src/partitions.rs:101-121 | the sweep loop detaches the aged names whose detach works, in any listing order |
| PartitionRuns.SweepIsExact | src/partitions.rs:96-121 | on any catalog with leaves of other names too, the sweep by name detaches exactly the daily leaves whose whole day ends at or before the cutoff midnight |
| PartitionRuns.PassIsExact | src/partitions.rs:65-123 | when an undisturbed pass succeeds, and which daily leaves it leaves, day by day, for any retention, also if it stops half-way |
| PartitionRuns.TodaySurvivesIff | src/partitions.rs:93-97 | the day a successful pass runs on keeps its leaf iff retention is not negative |
| PartitionRuns.PassKeeps | src/partitions.rs:65-123 | any sane pass, failed or not, keeps every leaf from its own day on, and a successful one covers four days |
| PartitionRuns.RunCovers | src/partitions.rs:18-29 | over any run of passes with failures, every day from the last pass's up to three days after any successful pass has its leaf |
| PartitionRuns.PassKeepsDisjoint | src/partitions.rs:69-76 | no pass makes leaves overlap, on any catalog |
| PartitionRuns.RunKeepsDisjoint | src/partitions.rs:69-76 | nor does any run, whatever its clocks, retentions and faults |
| PartitionRuns.InstantIsRouted | src/partitions.rs:69-76 | a covered instant belongs to the leaf of its UTC day and to no other |
| PartitionRuns.SecondPassIsIdle | src/partitions.rs:62-64 | a second pass on the same day changes nothing, on any catalog |
| PartitionRuns.SuccessCoversIff | src/partitions.rs:74-80 | after a successful pass over any catalog, each of its four days has a leaf iff it had one or its name was not a table |
| PartitionRuns.PremakeSucceedsIff | src/partitions.rs:68-80 | premaking any catalog succeeds iff no missing day overlaps an attached range |
| PartitionRuns.InstalledPassIff | migrations/0010_events_raw.sql:59-61 | after any run of passes from a fresh install, the next one succeeds iff the seed leaf is gone or none of its days is in 2026 |
| PartitionRuns.SeedStalls2026 | migrations/0010_events_raw.sql:55-61 | passes that run in 2026, however many and whatever fails, all fail and leave the installed catalog as it is |
| PartitionRuns.SeedSweptIff | src/partitions.rs:112-116 | the seed leaf is swept iff the cutoff has reached 2026 |
| PartitionRuns.SeedIs2026 | migrations/0010_events_raw.sql:59-61 | the seed leaf spans exactly the days of civil year 2026 |
| Rollup.RollupJob.RunOnceOnDb | src/rollup.rs:49-86 | the catch-up loop with its cold-start clamp, killed after any number of commits, computes the pass function |
| Rollup.RollupJob.EarliestEvent | src/rollup.rs:107-120 | scanning the events gives the first event hour, or none |
| Rollup.HourBecomesExact | src/rollup.rs:146-223 | one hour's transaction makes its rows exact and leaves every exact row exact, so repeating it is harmless |
| Rollup.CountInWiderWindow | src/rollup.rs:196-213 | grouping hour by hour counts the same as grouping over any aligned span |
| RollupRunners.StepKeeps | src/rollup.rs:49-160 | every step of every runner, crash, arrival or detached day keeps all rows exact below the stored watermark, below each runner's own and on detached days |
| RollupRunners.RunKeeps | src/rollup.rs:49-160 | so does every interleaving |
| RollupResults.RollupIsOneGroupBy | src/rollup.rs:172-223 | for any number of overlapping runners, with days detached once the watermark has passed them, the table below the watermark is one GROUP BY over all events ever inserted there, and its counts add up to their number; the watermark stays on the hour |
| RollupResults.RowsCountTheirEvents | src/rollup.rs:181-223 | a row counts the non-duplicate events ever inserted that match it column by column, 0 standing for a missing dimension, and a row without events is absent |
| RollupResults.DetachedRowsAreFrozen | src/rollup.rs:190-217 | once a day is detached, whether a row of it is right never changes again, under any run |
| Retention.CutoffIsRolledUpIff | src/partitions.rs:96 | an up-to-date rollup has passed every day before the cutoff iff retention is at least 1, or it is 0 and the first hour of the day is over |
| Retention.PassWaitsForRollupIff | src/partitions.rs:96-121 | on any catalog reached from an install: an undisturbed pass detaches only leaves an up-to-date rollup has passed, iff it is not in the first hour of a day with yesterday's leaf and retention 0, or of 2027 with the seed and retention up to 365 |
| Retention.RunsReach | src/partitions.rs:65-123 | every run of sane passes from a fresh install reaches such a catalog |
| Retention.WaitingIsPassed | src/partitions.rs:96-121 | and then it meets the condition under which the rollup stays one GROUP BY |
| Retention.LastHourOf2026IsLost | migrations/0010_events_raw.sql:55-61 | the failing case: passes in 2026, then one in the first hour of 2027; the rows of the last hour of 2026 are wrong after every further run |
| RollupWatermark.LoneRunnersStayBehind | src/rollup.rs:146-160 | with no two runners in a pass at once, no row is ahead of the stored watermark |
| RollupResults.RunnersAreRight | src/rollup.rs:79-85 | each runner is right about the hours it has passed up to its target |
| RollupWatermark.PassIsARun | src/rollup.rs:49-86 | a whole pass is a run of the step system, so all of the above holds for it |
| RollupWatermark.PassOnlyAdvances | src/rollup.rs:60-86 | a pass over unchanging events never moves the watermark back, and returns the stored one unless the events start at or past the target |
| RollupWatermark.LoneRunnersOnlyAdvance | src/rollup.rs:49-86 | in every run where no two runners are in the middle of a pass at once, with arrivals, crashes and detached days at any point, the stored watermark never decreases |
| RollupWatermark.LoneFinish | src/rollup.rs:66-86 | a lone runner's pass ends by returning the stored watermark, at or past the target, or an hour at or past the target that it does not store |
| RollupWatermark.StepLowersWatermarkIff | src/rollup.rs:79-84 | exactly the steps that set the stored watermark back |
| RollupWatermark.OverlapCanSetWatermarkBack | src/rollup.rs:79-84 | and a run of two runners that takes such a step |
| RollupRunners.TargetIsSettledHour | src/rollup.rs:52-60 | the target is the last hour boundary at least an hour old |
| RollupResults.GroupTotals | src/rollup.rs:198-213 | the counts of a GROUP BY add up to the number of rows grouped |
| Leader.StepKeeps | src/leader.rs:94-139 | each step of any process keeps lock ownership equal to a live session inside the hold |
| Leader.AtMostOneLiveLeader | src/leader.rs:106-138 | over every run at most one process holds with a live session |
| Leader.StaleFlagExplained | src/leader.rs:100-128 | a leader flag without the lock exists only between giving the lock up and the next clearing of the flag |
| Leader.CheckLeavesIff | src/leader.rs:118-133 | once ticks stop, a check leaves the hold and frees the lock iff it is past the budget or the session is dead |
| Leader.HoldIsBounded | src/leader.rs:39-41 | with timely checks no process holds longer than the budget plus one sleep after its last tick |
| Leader.FreeLockIsTaken | src/leader.rs:109-115 | whoever tries while the lock is free becomes the flagged leader |
| Snapshots.LoadSnapshot | src/snapshot.rs:254-440 | the per-table loops build exactly the grouping of all rows by active project, labelled with the version read first |
| Snapshots.FillTable | src/snapshot.rs:302-317 | the loop over one table adds each row to its own project, in order; rows of unknown projects are dropped |
| Snapshots.ProjectHoldsItsOwnRows | src/snapshot.rs:265-366 | a project holds each flight, ad, site and zone exactly as often as it was returned under its id |
| Snapshots.SnapshotHasActiveProjects | src/snapshot.rs:265-288 | exactly the active projects are present, with their own secret, organisation and flag, and no previous secret |
| Snapshots.FlightRowMembers | src/snapshot.rs:290-317 | a flight carries the tier of its priority and the advertiser of its campaign; unmatched rows drop out |
| Snapshots.CreativesStayInProject | src/snapshot.rs:386-428 | a creative is its project's own row and names a template only of the same project |
| Snapshots.ClickTargetIsOwnIff | src/snapshot.rs:368-384 | an ad's click target is that of the creative it refers to, and comes from the ad's own project iff that creative row has the ad's project id |
| Snapshots.ForeignClickTarget | src/snapshot.rs:368-384 | rows for which it does not |
| Snapshots.FlightTakesReferredRows | src/snapshot.rs:290-298 | a flight takes tier and advertiser of the rows it refers to, of whatever project |
| SnapshotLoader.StepKeeps | src/snapshot.rs:198-241 | the served version never falls and each swap raises it |
| SnapshotLoader.ServedCoversItsVersion | src/snapshot.rs:254-263 | over any interleaving with writers that draw numbers before they commit: no table of a served snapshot is older than its version says, each has every write up to that version that was over when the version was read, and all of them if nothing was open then |
| SnapshotLoader.EqualVersionsEqualContents | src/snapshot.rs:226-236 | if the served version is the database's, the contents are equal too, provided nothing was open when the version was read and no change went unnumbered since |
| SnapshotLoader.QuietTickCatchesUp | src/snapshot.rs:224-240 | once writes stop, one successful tick makes the snapshot equal the database if the version moved, or nothing was open when the served one was read and no change went unnumbered since; further ticks change nothing |
| SnapshotLoader.OpenWritesArePickedUpIff | migrations/0001_init.sql:20-34 | every write that has drawn a number and is still open reaches the next tick after its commit, whatever it writes, iff there is none |
| SnapshotLoader.WithoutNumbersNothingReloads | src/snapshot.rs:224-240 | while no number is drawn, an up-to-date store is never loaded again, whatever is committed |
| SnapshotLoader.UnnumberedWriteIsServedIff | src/snapshot.rs:227-236 | a change that draws no number is served iff it changes nothing that is loaded |
| SnapshotLoader.WriteIsPickedUpIff | migrations/0001_init.sql:25-34 | a whole write is picked up by the next tick iff it did not draw the sequence's first number |
| SnapshotLoader.SnapshotStore.RunLoader | src/snapshot.rs:198-242 | the loop over ticks, with failed polls and reloads, serves what the tick function says |
| SnapshotLoader.LoopNeverGoesBack | src/snapshot.rs:224-240 | the loop never returns to an older version and reaches at least every version a working tick polled |
| Selection.Filter | src/selection.rs:94-123 | the nested loops produce the filtered list, flights in order and ads in order within a flight |
| Selection.FilteredAreEligible | src/selection.rs:89-123 | a pair is kept iff it is of the snapshot and meets all rules at once |
| Selection.PriorityKeepsTop | src/selection.rs:125-137 | kept, each as often as before, are the candidates no other outranks |
| Selection.PickIsShare | src/selection.rs:167-178 | every roll below the total lands in exactly one slot, the one whose share contains it |
| Selection.PickIsProportional | src/selection.rs:163-178 | the number of rolls that pick a slot equals its weight |
| Selection.Roll | src/selection.rs:167-179 | the inner loop finds that slot and never runs off the end |
| Selection.DrawnSlots | src/selection.rs:162-182 | for every stream of rolls: as many distinct slots as were asked for and still have weight |
| Selection.SampleIsExact | src/selection.rs:144-184 | the sample is drawn at distinct positions of positive weight and has the promised size iff cutting the length to 32 bits does not interfere |
| Selection.SampleOf2To32IsEmpty | src/selection.rs:160 | a list of exactly 2^32 candidates yields nothing |
| Selection.TotalFitsI64 | src/selection.rs:156-163 | the weight total of up to 2^32 candidates fits 64 bits |
| Selection.WeightedRandom | src/selection.rs:144-184 | the sampling loop returns that sample |
| SampleRolls.DrawnSetIsFixedIff | src/selection.rs:161-182 | the set of slots drawn is the same for all rolls iff nothing, or everything that can be drawn, is |
| Selection.ServesNothingIff | src/selection.rs:125-184 | nothing is served iff nothing was asked for, every best-tier ad has weight 0 or less, or their number is a multiple of 2^32 |
| Base64Url.DecodeIffEncoded | src/hmac.rs:142-164 | the decoder accepts exactly what the encoder writes, and gives it back |
| Base64Url.NoDotInEncoding | src/hmac.rs:134-136 | encoded text never contains the separator |
| Wire.I64RoundTrip | src/hmac.rs:94-115 | eight bytes and a signed 64-bit value determine each other |
| Wire.U64RoundTrip | src/hmac.rs:97-120 | the same for unsigned values |
| SignedUrls.PackRecord | src/hmac.rs:86-100 | the grown record parses back to the payload whatever follows it, and every buffer that parses as the payload starts with it |
| SignedUrls.UnpackRecord | src/hmac.rs:102-132 | the advancing index reads the fields at their offsets, or rejects |
| SignedUrls.PackedSlices | src/hmac.rs:83-100 | which bytes of a packed record are which field |
| SignedUrls.UnpackedIffPackedPrefix | src/hmac.rs:86-132 | a buffer parses as a payload iff it starts with that payload's packed form |
| SignedUrls.PackingIsInjective | src/hmac.rs:83-100 | different payloads pack differently |
| SignedUrls.SplitOnceIff | src/hmac.rs:158 | splitting is at the first dot |
| SignedUrls.Verify | src/hmac.rs:151-181 | the straight-line check with its rotation fallback computes the verdict function |
| SignedUrls.VerifiedIff | src/hmac.rs:147-181 | exactly what is accepted: a record that starts with the packed payload, tagged under the current or previous secret, within the TTL |
| SignedUrls.SignThenVerify | src/hmac.rs:137-181 | a signed payload verifies while its secret is accepted and the TTL lasts, and has expired afterwards |
| EventEndpoints.PeekAgreesWithVerify | src/event_endpoints.rs:238-255 | whatever verifies names its own project in the unauthenticated prefix |
| EventEndpoints.AcceptedIff | src/event_endpoints.rs:208-236 | a URL is accepted iff it verifies under the secrets of the project its payload names |
| EventEndpoints.MintedUrlIsAccepted | src/event_endpoints.rs:208-236 | a minted URL is accepted until its TTL and expired after |
| EventEndpoints.NoOverlapWithoutPrevious | src/event_endpoints.rs:226-234 | without a previous secret a minted URL is accepted within its TTL iff the current secret gives the tag it was signed with |
| EventEndpoints.ReloadedSnapshotsDoNotOverlap | src/snapshot.rs:278-284 | and that holds for every snapshot the loader serves |
| EventEndpoints.HandleImpression | src/event_endpoints.rs:51-82 | the reply never tells whether the URL verified; if it did, one event goes to the channel, if there is one and it has room |
| EventEndpoints.HandleClick | src/event_endpoints.rs:91-135 | a click is refused, or recorded and redirected to the ad's target or the placeholder |
| Decisions.ServePlacement | src/decisions.rs:254-354 | filter, priority, sampling and the override together give the served ads and their events; the assertion on the id length fails iff something was picked |
| Decisions.ServePicks | src/decisions.rs:277-353 | the loop that signs, renders and emits both sides of each pick |
| Decisions.DecidePure | src/decisions.rs:220-364 | which requests are rejected and why, and the response and events of the others |
| Decisions.Respond | src/decisions.rs:504-518 | a request is answered iff the channel took all its events; otherwise exactly those before the first refusal are queued |
| DecisionProperties.FirstHaltIff | src/decisions.rs:243-253 | a request ends at the first placement with a site and no ad types, or whose picks cannot be signed, and is answered iff there is none |
| DecisionProperties.AdsAndEventsInStep | src/decisions.rs:330-354 | one entry per placement, and one agreeing Decision event per returned ad, in placement order |
| DecisionProperties.OnlyFailedRendersDrop | src/decisions.rs:300-328 | a failed render removes an ad from both sides and nothing else is removed |
| DecisionProperties.ForcedServesItOrNothing | src/decisions.rs:267-275 | an override serves exactly that ad if it exists, its flight exists and it renders, else nothing |
| DecisionProperties.ForcedCandidateIff | src/decisions.rs:585-589 | the override finds a candidate iff the first ad with the id exists and its flight is in the snapshot |
| DecisionProperties.FoundAd | src/decisions.rs:585-589 | looking up an ad fails only if none has the id, and finds the first |
| DecisionProperties.FoundFlight | src/decisions.rs:585-589 | the same for flights |
| DecisionProperties.ServedAreEligible | src/decisions.rs:262-265 | every ad served without override is eligible, has positive weight, and no eligible one has a better tier |
| DecisionProperties.ServedCountIsBounded | src/decisions.rs:254 | at most the asked-for number of ads, kept within 1 to 10 |
| DecisionProperties.ReturnedUrlsVerify | src/decisions.rs:283-298 | the URLs of a returned ad verify at the endpoint until the TTL and then expire, and yield the ids and nonce of its event |
| DecisionProperties.ClickLandsOnTarget | src/event_endpoints.rs:109-135 | a click on a returned URL lands on the current target of that very ad until the TTL, then it is refused |
| DecisionProperties.NonceCollidesIff | src/decisions.rs:771-776 | when two mints at any times give the same nonce |
| DecisionProperties.NonceIsPerAd | src/decisions.rs:771-776 | at one instant, iff they are for the same ad |
| DecisionProperties.SameAdSharesDedupKey | src/hmac.rs:198-207 | so placements of one response that serve the same ad share the dedup keys of their pings |
| DecisionProperties.PingMatchesDecision | src/event_endpoints.rs:175-198 | the recorded ping names the same ad and nonce as the decision, and the same creative unless that is id 0 |
| DecisionProperties.SiteResolution | src/decisions.rs:736-750 | a placement resolves to the first fitting site, by id if given, else URL or alias, and fails only if none fits |
| Explain.ExplainRequest | src/decisions.rs:873-1120 | which requests are refused, and the explanations and dummy ads of the others |
| Explain.ExplainPlacement | src/decisions.rs:916-1112 | per placement: one entry per ad with a known flight, the selection run again, its tier and first pick reported, and the picked ad's entries marked |
| Explain.PicksAgreeIff | src/decisions.rs:1028-1054 | without an override, explanation and decision pick the same ads whatever the rolls of each, iff the rounds drawn are none or cover every top-tier ad that can be drawn |
| Explain.PickOrderAgreesIff | src/decisions.rs:764-770 | and in the same order, so with the same ad selected, iff none is drawn or at most one can be |
| Explain.RollsDecideOnlyPicks | src/decisions.rs:916-1063 | tier, candidates and rule verdicts do not depend on the rolls, and with an override nothing does |
| Explain.ExplainerShowsTheDecision | src/decisions.rs:1030-1092 | when both made the same picks, the explainer's ads are the decision's but for URLs and creatives, if every pick renders |
| Explain.ReportedTierIsServed | src/decisions.rs:1042-1056 | the reported tier is that of every ad served without override |
| Explain.ListedRulesIff | src/decisions.rs:926-1015 | all listed rules pass iff the pair would be eligible ignoring its date window and zones |
| Explain.ServedAdsPassTheExplainer | src/decisions.rs:919-1027 | with unique flight ids every served ad has an entry without a failed rule |
| Events.Flusher.TrySend | src/events.rs:77-83 | when a send is accepted, refused as full, or refused as closed |
| Events.Flusher.DrainToSender | src/decisions.rs:683-700 | of one request's events, whatever other senders and the flusher do in between, the channel takes a prefix, the whole iff none is refused |
| Events.Flusher.RecvMany | src/events.rs:104-107 | receiving nothing means asked for none, or closed and drained |
| Events.Flusher.OnReceive | src/events.rs:104-123 | one turn on the receive arm, its flush, and exit exactly when closed and drained |
| Events.Flusher.OnTick | src/events.rs:124-131 | one turn on the timer arm |
| Events.Flusher.FlusherLoop | src/events.rs:95-135 | under any schedule and any flush failures, accepted events are the flushed batches, then the batch, then the queue; on exit all were flushed |
| Events.StoredWithoutFailures | src/events.rs:117-132 | the database has every flushed event iff no batch failed |
| Batch.Transaction.RunBatchWithSavepoints | src/batch.rs:103-171 | the loop over rows and savepoint commands computes the batch function |
| Batch.RowIsIsolated | src/batch.rs:118-168 | one row: its commands worked and only its success moved the data, or the transaction is left aborted |
| Batch.BatchIsolatesRows | src/batch.rs:82-102 | one result per row in order; the data is that of the successful rows alone, or a failed command aborts all that follows |
| Batch.BatchAbortsIff | src/batch.rs:138-145 | when no savepoint command fails by itself, the batch is aborted iff some row, run on what the earlier successes left, reports success while aborted |
| Batch.RowAbortsIff | src/batch.rs:118-168 | the same for one row |
| Pagination.CursorResumesItsKindOnly | src/pagination.rs:64-92 | a minted cursor resumes its own kind and is refused by every other; limits outside 1 to 500 are refused |
| Pagination.ResolvedCursorIsOfItsKind | src/pagination.rs:136-149 | which strings resolve as a cursor |
| Pagination.PageIsExact | src/advertisers.rs:270-290 | a request returns the next rows in order and a cursor iff rows remain |
| Pagination.WalkEnumerates | src/pagination.rs:10-16 | over a table changed at will between requests: strictly descending, nothing twice, nothing present throughout missed |
| Pagination.WholeWalkTerminates | src/pagination.rs:10-16 | the walk ends however rows come and go |
| Pagination.FixedTableWalk | src/pagination.rs:115-129 | on a fixed table all rows in order, in the expected number of pages |
| Pagination.PageCountIsCeiling | src/pagination.rs:115-129 | that number is the row count over the limit, rounded up, and at least one |

## Left out

- CRUD handlers, organisations, tokens, taxonomy, creatives and ad-library endpoints, configuration, request logging, the admin UI: SQL plumbing and response shaping.
- Row-level security, roles, migrations other than the seed leaf, and the enabling of RLS on new leaves (only its failure is modelled).
- HMAC, SHA-256, the random generator, Liquid rendering and JSON: arbitrary functions as listed above.
- Duplicate marking on insert: `duplicate` is a given attribute of an event.
- The force gate itself (its outcome is an input), audit rows and HTTP status mapping of the decision handlers.
- Leader: modelled as a step system on values, because its processes run concurrently; update in place and the pooled connection behind a session are not captured.
- RollupRunners, RollupResults, RollupWatermark, SnapshotLoader: step systems on values for the same reason; the sequential loops they interleave are also given as methods.
- Selection.WeightedRandom: beyond 2^32 candidates the total is modelled as unbounded, not as wrapping.
- Snapshots: creative columns that are only carried through are one opaque field.
- Explain: only the rule names and verdicts of an evaluation, not its detail text.
- Stored timestamps are exact milliseconds; rounding in `to_timestamp` is not modelled.
