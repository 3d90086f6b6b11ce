# gopartman, verified

gopartman keeps time-partitioned PostgreSQL tables supplied with partitions.
A parent table has an interval (hourly, daily, weekly or monthly) and perhaps
a tenant column; its partitions cover half-open windows of the UTC calendar.
The same windows live in three places: in calendar arithmetic, in the rows of
`partman.partitions`, and in the children PostgreSQL has. This project models
the code that keeps the three in agreement and proves what it promises.

PostgreSQL is plain state: the default partition is a map from physical
address to row, the catalog a map from table to attachment, the metadata a
sequence of rows under the uniqueness rules of `schema.sql`. Maintenance sees
of a default's rows what routes them, their tenant and control value. A
statement is the meaning of its SQL, a transaction an atomic step that may fail
and change nothing. Clocks, hooks, failures, cancellations, panics and the order
in which Go iterates maps or PostgreSQL breaks ties are parameters or free
choices, so the theorems hold for all of them.

| file | contents |
|---|---|
| `calendar.dfy`, `periods.dfy` | the proleptic Gregorian calendar on unbounded nanoseconds, and the windows |
| `text.dfy`, `naming.dfy`, `boundtext.dfy` | names of partitions, bound expressions, and their parsers |
| `metadata.dfy` | metadata rows, insert-or-ignore, ordered listings |
| `importer.dfy`, `alignment.dfy` | reconciling existing partitions; what is provisioned comes back aligned |
| `retry.dfy` | the attempt loop and its backoff |
| `drain.dfy`, `drainloop.dfy` | one batch of a drain and whole runs; the loop that performs them |
| `catalog.dfy`, `provisioner.dfy`, `retention.dfy` | tables, tenants and DDL; creating and retiring partitions |
| `consistency.dfy`, `maintenance.dfy` | the invariant of one parent; what provisioning and sweeping keep of it |
| `waiting.dfy`, `races.dfy` | rows in the default, attached or not; plans that are committed late |
| `reimport.dfy`, `adoption.dfy` | importing a maintained parent, and one that nobody has tracked |
| `history.dfy` | runs over all parents of a database |
| `collisions.dfy`, `neighbours.dfy` | names that collide, and what is reported then; which parents share tables |
| `endtoend.dfy` | the drain in a maintained database, with the default attached or detached |
| `scheduler.dfy`, `locks.dfy`, `maintainer.dfy` | the loop protocol, the advisory lock, a maintenance pass |
| `wrappers.dfy` | Option and Result |

Main results:

* Every kind of window tiles all of time, and the SQL test `>= from AND < to`
  selects exactly the instants whose window it is (`CalendarTiles`).
* A batched drain refines routing every row at once, for every batch size, group
  order, retry pattern and tie-break; rows are conserved at every step; and the
  batches are bounded if and only if stuck rows cannot fill them
  (`DrainLoop.Drainer.PartitionData`, `BatchesBoundedIff`).
* Over every run of all calls, for any number of parents in one database,
  metadata, catalog and calendar agree, and no window is retired before it is over
  (`HistoryKeeps`, `CoverageLasts`); `ApartIff` says exactly which parents may be
  in one database.
* Whatever fails or panics in a maintenance pass, each tenant whose own call gets
  through has its partitions, and the report of a sweep is true and complete
  (`Maintainer.Maintain`, `SweepReportsAll`).
* A row that comes before its partition shuts that partition out, until the
  default is detached (`EnsureAcceptedIff`, `BlockedUntilDetached`,
  `AttachedMovesNothing`); detaching, ensuring, draining and attaching again is
  the way out (`WayOut`).
* An interrupted import converges; what is provisioned is imported without
  drift; and an import of untracked children gives metadata in order under an
  exact condition (`ImportSurvivesCuts`, `ProvisionedThenImported`,
  `ImportAdoptsIff`).

Where the code does less than its documentation suggests, the code is
modelled as it is, and the exact condition is proved:

* ADR 0009 has the drain move rows that came into the default before their
  partition existed. PostgreSQL refuses a partition while an attached default
  holds a row of it, so every EnsurePartitions that requires it fails, and a drain
  finds no target; the integration test of the drain detaches the
  default for that reason, the code never does.
* An unlimited drain of more than 21844 groups without a target (32767 for an
  untenanted parent) always fails, because each adds parameters to the read
  (`ParamsFitIff`).
* EnsurePartitions called by RegisterParent and RegisterTenant takes no lock. A
  plan that is committed after a sweep has dropped one of its windows brings the
  table back without an active row (`CommitKeepsIff`).
* An unlimited drain need not end when a row has an empty-string tenant or an
  infinite control value and no target: the exclusion clause turns `''` into
  NULL, and Go reads `infinity` as the zero time, whose window no infinite value
  lies in (`BatchesBoundedIff`, `InfinityIsEndless`).
* A second partition of the same name is dropped without an error, and
  EnsurePartitions reports it as created (`ReportCountsIff`). Tenants that differ
  in case only and the hours of one day always collide, as do all days of a name
  that the server clips at 63 bytes (`TablesDifferIff`, `TableIsOwnIff`).
* Importing a maintained parent registers its tenants a second time, in upper
  case, unless they are so spelled already (`ImportKeepsIff`).
* Names do not read back for a tenant with an underscore, nor for an untenanted
  parent that ends in an upper-case segment (`BuildThenParse`); bounds do not for
  a session whose time zone is off UTC by half hours (`RenderedBoundReads`);
  `unquote` loses adjacent quotes and everything after the last `::`
  (`UnquoteWrapped`).
* The cutoff of a sweep can lie in the future (`CutoffNeverAheadIff`): for a
  negative period, which registering a parent accepts
  (`RegisteredIsReasonableIff`), and for 2,562,048 hours, as only a row of
  `parent_tables` written with SQL can hold, because microseconds are multiplied in
  64 bits. And the cutoff goes back while the clock goes on for all periods with
  months but multiples of 400 years (`CutoffMonotoneIff`).
* The comment on `retry.Do` bounds the backoff by MaxDelay, but jitter is added
  after the cap (`DelayUnderCapIff`), and a base delay of 2^33 ns or more
  overflows its shift (`BackoffPositiveIff`). Every caller in the repository
  passes the default policy, whose five attempts sleep at most 1.8 seconds in all
  (`DefaultSleeps`).
* A lock does not exclude a caller whose database session has ended. The unlock
  uses the context of the call, so after a cancellation it fails, and the lock
  stays with the pooled connection until that closes (`EntryIff`,
  `EndedContextLeaks`, `LeakShutsOut`).
* Stop followed by Start can leave two loops on one channel, let stop return
  without an error while a loop is live, or panic in the wait group; none of it
  happens to callers who start again only after the last stop has returned without
  an error (`WaitingKeepsOneLoop`, `WaitedNilIsTrue`, `WaitingAvoidsPanic`).

## Model

| member | source | states |
|---|---|---|
| `Calendar.MonthStartMonotone` | internal/provisioner/bounds.go:113-114 | months start in order, at least 28 days apart, before and after the origin |
| `Calendar.MonthOfUnique` | internal/provisioner/bounds.go:101-118 | the month found for a day is the only one that contains it |
| `Calendar.YearStartIsSum` | internal/provisioner/bounds.go:105-114 | for every year, the closed leap-year form of January 1st equals the sum of the lengths of all months in between |
| `Calendar.DateOfParts` | internal/provisioner/bounds.go:105-107 | building a date from the parts of an instant gives the instant back, and the parts are in range |
| `Calendar.PartsOfDate` | internal/provisioner/bounds.go:105-114 | the parts of a date that exists are those it was built from |
| `Calendar.ZeroTimeIs` | internal/importer/importer.go:307-311 | the zero time, which stands for no range, is the first midnight of year 1 |
| `Calendar.MonthStartCycles` | internal/retention/cutoff.go:25-27 | any number of 4800-month steps, forward or back, moves a month's start by 146097 days each |
| `Calendar.LeastDaysIsLeast` | internal/retention/cutoff.go:25-27 | the fewest days a number of months can take: a bound for every start, and reached by one |
| `Calendar.UnevenMonths` | internal/retention/cutoff.go:25-27 | any number of months that is not a multiple of 4800 leads from some month to a shorter one |
| `Periods.HourWindow` | internal/provisioner/bounds.go:104-105 | the hourly window is the hour of 3600 seconds counted from the origin |
| `Periods.DayWindow` | internal/provisioner/bounds.go:106-107 | the daily window runs from midnight to midnight |
| `Periods.MondayIsMonday` | internal/provisioner/bounds.go:108-112 | the start of an ISO week is a Monday, the only one of its seven days, and the start for all of them |
| `Periods.WeekWindow` | internal/provisioner/bounds.go:108-112 | the weekly window is the seven days from that Monday |
| `Periods.MonthWindow` | internal/provisioner/bounds.go:113-132 | the monthly window runs from the 1st to the next 1st, although the step is an AddDate and the interval constant 30 days |
| `Periods.LabelWindow` | internal/provisioner/bounds.go:24-45 | the label of a parent names a window exactly if it is one of the four: the hour, the day, the seven days from Monday or the month of an instant, counted on the calendar |
| `Periods.DurationWindow` | internal/provisioner/bounds.go:47-75 | the same for the interval constants, an hour and 1, 7 and 30 days, the last of which stands for a month |
| `Periods.CalendarTiles` | internal/provisioner/bounds.go:68-75 | for every kind and all instants, a window contains exactly the instants whose own window it is |
| `Periods.BoundsForTiles` | internal/provisioner/bounds.go:49-75 | BoundsFor contains its instant, agrees for exactly the instants inside, and fails only for an interval that is none of the four |
| `Periods.EqualOrDisjoint` | internal/provisioner/bounds.go:68-75 | any two computed windows are the same or do not overlap |
| `Periods.WindowsAbut` | internal/provisioner/bounds.go:120-136 | the end of a window is the start of the next, and each is the window of its start |
| `Periods.NextIsWindow` | internal/provisioner/bounds.go:120-136 | stepping from a floor gives the window of that floor and lands on a floor |
| `Periods.NextBoundsUTC` | internal/provisioner/bounds.go:82-98 | the loop returns `count` windows, the first containing now, each starting where the one before ends; nothing for a count of zero or less; an error only for an unknown interval |
| `Periods.WindowsCover` | internal/provisioner/bounds.go:77-98 | no instant between the first window's start and the last one's end is outside the list |
| `Text.ParseDateThenFormat` | internal/naming/naming.go:16 | eight bytes that parse as a date are a midnight of the years 0 to 9999 and format back byte for byte |
| `Text.FormatDateThenParse` | internal/naming/naming.go:78 | the date written for an instant of those years parses to its midnight |
| `Text.FormatDateInjective` | internal/naming/naming.go:78 | in every year, different days are written differently |
| `Naming.Build` | internal/naming/naming.go:53-84 | the piecewise writer returns schema, parent, upper-cased tenant and suffix joined, or the first component's error |
| `Naming.Parse` | internal/naming/naming.go:92-143 | the stepwise parser splits at the first dot and the last underscores, with each error in its place |
| `Naming.ParseThenBuild` | internal/naming/naming.go:53-143 | for every string that parses, building the result gives that string |
| `Naming.BuildThenParse` | internal/naming/naming.go:53-143 | a built name parses to its components, the tenant in upper case, if and only if the tenant has no underscore, an untenanted parent does not end like a tenant, and the start is a midnight of the years 0 to 9999 |
| `Naming.BuiltNamesDiffer` | internal/naming/naming.go:66-79 | within a parent, equal names mean the same upper-cased tenant, the same start day, and the same default flag |
| `BoundText.SplitTuple` | internal/importer/parse_bounds.go:112-144 | the byte loop computes the scan the two lemmas below speak of, errors included |
| `BoundText.SplitUndoesQuoting` | internal/importer/parse_bounds.go:112-144 | quoting any non-empty list of strings, joining with a comma and splitting gives each string in single quotes with its own quotes single |
| `BoundText.UnquoteWrapped` | internal/importer/parse_bounds.go:149-165 | unquote recovers a wrapped string if and only if it has no two adjacent quotes and no cast to strip |
| `BoundText.StampReads` | internal/importer/parse_bounds.go:29-36 | a timestamp as PostgreSQL writes it, with the offset of the session's time zone, reads back to the second if and only if that offset is whole hours, and is not read at all otherwise, for local years 1 to 9999 |
| `BoundText.RenderedEndsRead` | internal/importer/parse_bounds.go:47-107 | of two ends with a `\w+` tenant or none each, only those of one tenant read back: a tenant at one end only, two tenants, and offsets that are not whole hours are each an error of their own |
| `BoundText.RenderedBoundReads` | internal/importer/parse_bounds.go:47-107 | for every `\w+` tenant or none, the bound expression of a created partition parses to the same range and the upper-cased tenant if the zone is whole hours off UTC at both ends, and to an error otherwise |
| `BoundText.BlanksAround` | internal/importer/parse_bounds.go:47-52 | ASCII white space before and after an expression makes no difference |
| `Metadata.OrderByFrom` | internal/partitions/repo/queries.sql.go:138-143 | a listing is some order of the selected rows, sorted by the start of the range |
| `Metadata.InsertIffUnique` | schema.sql:33-58 | insert-or-ignore adds a row if and only if the unique constraints of the table allow it beside the others |
| `Alignment.AlignedIffReadable` | internal/importer/importer.go:267-288 | a created partition, its name clipped by the server, comes back with the components it was created from if and only if its name is readable, fits 63 bytes, and its bound is printed in whole hours |
| `Alignment.ClippedIsAnother` | internal/importer/importer.go:165-187 | a clipped name never reads as the partition it was built for |
| `Alignment.DefaultAlignedIff` | internal/importer/importer.go:267-272 | a default whose name fits is aligned if and only if the parser finds a parent in its name; one that is aligned rebuilds its name if and only if it fits |
| `Alignment.WindowsMatchInterval` | internal/importer/interval.go:45-58 | the importer's own measure of one period accepts, of all ranges with the start of a window, that window and no other |
| `Alignment.ProvisionedThenImported` | internal/importer/importer.go:130-187 | every bounded partition that NextBoundsUTC asks for, of a daily, weekly or monthly parent, comes back without drift and on its interval if and only if its name fits and its bound is printed in whole hours |
| `Alignment.ImportKeepsProvisioned` | internal/importer/importer.go:199-226 | importing a tracked partition adds no row, only the upper case of its tenant |
| `Importer.CutRunConverges` | internal/importer/importer.go:165-232 | after any number of a run's writes, finishing with a full run reaches the store of one full run |
| `Importer.ImportIsIdempotent` | internal/importer/importer.go:130-248 | a second import changes nothing |
| `Importer.ImportSurvivesCuts` | internal/importer/importer.go:130-248 | a run cut short anywhere and then repeated ends where one run ends |
| `Importer.WritesRegisterFirst` | internal/importer/importer.go:199-219 | at every point of a run each row's tenant is registered, as the trigger demands |
| `Importer.ReportRepeats` | internal/importer/importer.go:172-248 | a repeated run reports the same drifted and skipped children and the same orphans |
| `Importer.PresentIffUnobstructed` | internal/importer/importer.go:293-325 | every aligned child ends up with its row if and only if no row or other child conflicts with it at the start |
| `Importer.SecondImportIsQuiet` | internal/importer/importer.go:222-231 | the second import reports nothing imported if and only if nothing was in the way of the first |
| `Importer.Database.WriteChild` | internal/importer/importer.go:199-229 | one child's writes, tenant before row, as far as the connection carries |
| `Importer.Database.MainPass` | internal/importer/importer.go:165-233 | the loop performs the writes the lemmas speak of, or the part before the connection gives out, and builds their report |
| `Importer.Database.Import` | internal/importer/importer.go:107-249 | the call ends in an interval mismatch if and only if some child prints a range that is not one period long, then names the first and writes nothing; otherwise all writes and the full report, or a prefix of the writes and an error |
| `Importer.Preflight` | internal/importer/importer.go:131-146 | a child is found if and only if one prints a range that is not one period long, and it is the first such child |
| `Importer.IntervalMatchesIff` | internal/importer/interval.go:45-58 | a range is accepted if and only if it is an hour, a day, seven days or its start's month long; on the calendar's grid, if and only if it is the window of its start; a month off the grid, if and only if it ends on the same day and clock of the next month, where that has the day |
| `Importer.FindOrphans` | internal/importer/importer.go:234-246 | the rows of the listing without a child, in its order |
| `Importer.AlignedIsNamed` | internal/importer/importer.go:267-288 | a bounded child that is taken in carries the name that its own tenant and start give; a default that is taken in is named as one |
| `Importer.DriftIsReal` | internal/importer/importer.go:267-288 | a drift reports what the name and the bound say, and its reason is the first way in which they differ |
| `Importer.ReportedAlike` | internal/importer/importer.go:330-366 | what is reported of an imported child is what its new row would be reported as if it were an orphan |
| `Importer.OrphanShown` | internal/importer/importer.go:346-366 | an orphan is reported by its name's schema and parent, its row's tenant and range, and no range for a default |
| `Retry.Do` | internal/retry/retry.go:63-93 | success if and only if an attempt within the limit is reached and commits; then one commit, else none; and which error when |
| `Retry.BackoffPositiveIff` | internal/retry/retry.go:153-167 | every backoff is positive if and only if the base delay is below 2^33 nanoseconds |
| `Retry.BackoffGrows` | internal/retry/retry.go:153-167 | no attempt backs off longer than the 31st |
| `Retry.DelayWithinJitter` | internal/retry/retry.go:153-173 | jitter never shortens a delay and adds at most its share, also beyond the cap |
| `Retry.DelayUnderCapIff` | internal/retry/retry.go:63-67 | every sleep of a policy stays at or under MaxDelay if and only if the longest backoff leaves room for its jitter |
| `Retry.CapIsExceeded` | internal/retry/retry.go:63-67 | a sixth backoff with the default's base, cap and jitter would be two seconds plus the random share of a fifth: above the cap |
| `Retry.DefaultSleeps` | internal/retry/retry.go:51-58 | the four sleeps of a call under the default policy are 100, 200, 400 and 800 milliseconds plus the random share of a fifth; 1.8 seconds in all at most |
| `Drain.ExclusionIsGroup` | internal/drain/sql.go:58-67 | the exclusion clause of a recorded key selects exactly the rows of that key, unless the key came from an empty-string tenant or the control value is infinite |
| `Drain.StuckNeverExcluded` | internal/drain/sql.go:58-83 | no recorded key excludes a stuck row: empty-string tenant or infinite control value |
| `Drain.MovedRowsFit` | internal/drain/drain.go:256-289 | every moved row lies inside its target's range and has its tenant |
| `Drain.StepShrinksLive` | internal/drain/drain.go:225-290 | without stuck rows a batch takes the batch size, or everything, off the rows still to be read, and adds none |
| `Drain.StepKeepsRecorded` | internal/drain/drain.go:263-273 | a recorded key has no target, and its count lies between one and the rows left, after every batch |
| `Drain.RunConserves` | internal/drain/drain.go:225-290 | after any number of batches of any size, the default and the targets hold each row once, each moved row in its place |
| `Drain.RunIsBounded` | internal/drain/drain.go:225-246 | without stuck rows a run has at most N / batch size batches, rounded up |
| `Drain.DrainedIsRouted` | internal/drain/drain.go:225-290 | a run that reads to the end leaves in the default exactly the rows with a NULL control, outside the filter or without a target, and each child gains exactly the rows that name it; with a filter on a tenant column no row of another tenant leaves |
| `Drain.DrainedAnomaliesExact` | internal/drain/drain.go:460-490 | the recorded keys are exactly those of rows left, each with a count from one to the rows left |
| `Drain.BatchesBoundedIff` | internal/drain/drain.go:225-246 | as long as reads do not fail, the batches of a drain are bounded if and only if stuck rows (empty-string tenant or infinite control, target missing) cannot fill them: there is none, or a row whose move the server refuses must come into a batch |
| `Drain.RunEnds` | internal/drain/drain.go:225-246 | otherwise every run is over after as many batches as there are rows that can move or be recorded |
| `Drain.EndlessWhenStuck` | internal/drain/drain.go:225-246 | where no move would be refused, that condition is simply that a row is stuck |
| `Drain.InfinityIsEndless` | internal/drain/drain.go:326-343 | one row with control `infinity` and no target makes a drain endless, although it has no empty-string tenant |
| `Drain.DryMeansNoneStuck` | internal/drain/drain.go:225-248 | a run that reads to the end had neither stuck nor refused rows to begin with |
| `Drain.RecordsMissing` | internal/drain/drain.go:263-273 | the keys a run has recorded are among those that had rows and no target at the start |
| `Drain.ParamsAreArgs` | internal/drain/sql.go:53-73 | the parameters that are counted are the values a read sends along: the tenant asked for, two or three for each clause, and the batch size |
| `Drain.ParamsFitIff` | internal/drain/sql.go:53-72 | a read carries at most 65535 parameters if and only if it excludes at most 21844 keys of a tenanted parent, or 32767 of another |
| `Drain.FullRunLength` | internal/drain/drain.go:225-248 | when no target is missing, a complete run takes exactly N / batch size batches, rounded up |
| `Drain.DefaultShrinks` | internal/drain/drain.go:287 | the default shrinks by the number of rows moved |
| `Drain.RowsConserved` | internal/drain/sql.go:85-101 | default and children together hold the same multiset of rows before and after |
| `DrainLoop.AnomalyTracker.Record` | internal/drain/drain.go:469-474 | a key is listed once, at its first mention, and its counts add up |
| `DrainLoop.AnomalyTracker.List` | internal/drain/drain.go:480-490 | one anomaly for each recorded key, in the order met |
| `DrainLoop.SummarizeNulls` | internal/drain/drain.go:393-427 | one anomaly with the exact count for each tenant with NULL-control rows under the filter; a scan that fails half-way leaves the anomalies of the tenants before it |
| `DrainLoop.ReadBatch` | internal/drain/sql.go:31-74 | the read returns the batch-size rows with the least control values, in order, of those with a control value, with the tenant asked for, and outside every recorded range and tenant; fewer only if there are no more |
| `DrainLoop.GroupByBounds` | internal/drain/bounds_group.go:35-50 | the buckets partition the batch by tenant and window, each row once |
| `DrainLoop.DeleteReturning` | internal/drain/sql.go:89-101 | exactly the addressed rows leave, and exactly they are returned |
| `DrainLoop.Drainer.MoveGroup` | internal/drain/drain.go:348-370 | the committed move delivers the group to its child and reports its size |
| `DrainLoop.Drainer.RouteGroup` | internal/drain/drain.go:256-289 | a group moves to a found target, or is recorded without one; an error leaves tables and anomalies alone |
| `DrainLoop.Drainer.ProcessGroups` | internal/drain/drain.go:251-289 | in any order of groups, a batch moves exactly the rows with a target and records the other groups; after an error, what was moved was moved rightly |
| `DrainLoop.OthersUntouched` | internal/drain/sql.go:53-56 | a drain with a tenant filter, however it ends, leaves every row of another tenant or of none in place and reports no anomaly of another tenant |
| `DrainLoop.HomeIsTarget` | internal/drain/drain.go:326-346 | in terms of the label, the tenant column and the tenant asked for: which rows a call reads, and that the target of a row is the active partition of its own window and tenant |
| `DrainLoop.Drainer.Drain` | internal/drain/drain.go:225-308 | the loop keeps the contract of the next row, for every pattern of faults and control values NULL, finite or infinite; no row of another tenant than the one asked for moves or is reported; no batch is run past a cancellation or a failing read, and an error is one that was met; without faults and refused moves it fails only when the keys without a target are too many for one read |
| `DrainLoop.Drainer.PartitionData` | internal/drain/drain.go:157-309 | from the lock on: the first thing missing ends the call and changes nothing; an unlock is tried once for every grant, and the grant is left behind exactly when the context is over by then, as after a cancellation, and the session is not; then, for every end of the call, every row that left was one asked for and went to the active partition of its tenant and window, RowsMoved is their number and no more than the batches hold, 1000 rows each unless the call says otherwise, and rows of other tenants than the one asked for stay and are not reported; a call that reads to the end leaves of the rows asked for exactly those with a NULL control value or without such a partition, and its anomalies are about these, each with a count from one to theirs, exact for NULL; exactly N / batch size batches when no target is missing |
| `Retry.RunTx` | internal/retry/retry.go:63-93 | a transaction takes effect if and only if the server accepts it and one of five attempts commits, all before it having failed for a passing reason with an undisturbed backoff; after five such failures it gives up, and otherwise the last attempt says which error |
| `Retry.FiveAttempts` | internal/retry/retry.go:51-58 | under the default policy a transaction gets through if and only if one of the first five attempts commits and all before it failed for a passing reason, uncancelled |
| `Provisioner.BuildExistingSet` | internal/provisioner/provisioner.go:332-355 | the set holds exactly the bounds of the tenant's active bounded rows |
| `Provisioner.PlanCreation` | internal/provisioner/provisioner.go:153-179 | exactly the required windows without an active row are to be created, in order, and the default if no row is its |
| `Provisioner.CreateInTx` | internal/provisioner/provisioner.go:207-311 | the statements in turn give the transaction the lemmas of Maintenance speak of, or nothing |
| `Catalog.CreateRefusedIff` | internal/provisioner/provisioner.go:233-305 | the server refuses a partition whose name is free if and only if its bound does not have the columns of the key, is empty, shares an instant with a sibling of its tenant or is a second default, or an attached default holds a row of it |
| `Provisioner.EnsurePartitions` | internal/provisioner/provisioner.go:122-200 | a call does nothing, all it set out to do, or fails and changes nothing; for a tenant that matches and a known label it succeeds if and only if there is nothing to do, or its transaction gets through and the server accepts it; and a tenant missing or too many or an unknown label has its own error |
| `Retention.CutoffNotAfterNow` | internal/retention/cutoff.go:20-35 | for a reasonable period the cutoff is not after now, day overflow in months included |
| `Retention.CutoffNeverAheadIff` | internal/retention/cutoff.go:20-35 | for a period of any 32-bit months and days and 64-bit microseconds, that holds at all times if and only if the duration left of its microseconds is at most the fewest days its negated months and days take, the least 32-bit value included, whose negation wraps |
| `Retention.OrdinaryIsReasonable` | internal/retention/cutoff.go:20-35 | non-negative months, days and microseconds that fit 64 bits as nanoseconds are reasonable |
| `Retention.StoredPeriodIs` | internal/registry/registry.go:358-363 | the period that registering a parent stores of a Go duration is its whole microseconds, towards zero |
| `Retention.RegisteredIsReasonableIff` | internal/registry/registry.go:358-363 | the period that registering a parent stores of any Go duration is reasonable if and only if that duration is not negative, to the microsecond |
| `Retention.LongPeriodIsAhead` | internal/retention/cutoff.go:31-33 | 2,562,048 hours, as a row written with SQL may hold, put the cutoff after now |
| `Retention.CutoffMonotoneIff` | internal/retention/cutoff.go:20-35 | for every period, the cutoff never goes back while the clock goes on if and only if its months are a multiple of 4800 |
| `Retention.CutoffGoesBack` | internal/retention/cutoff.go:25-27 | for every other period, two instants between which it does |
| `Retention.Sweep` | internal/retention/retention.go:131-251 | a sweep settles the expired rows in some listed order and reports each fate, true and complete by `SweepReportsAll`; a failing query changes nothing; a panic of the hook, if it is asked about a candidate and panics, leaves the candidates before it settled |
| `Retention.SweepCandidate` | internal/retention/retention.go:164-247 | the fate and the effect of one candidate, for every decision, dry or real: dropped, its table is gone; detached, it hangs below nothing; archived, below nothing in the archive and gone from where it was; its row says so, and nothing else changes |
| `Retention.ActedUponIff` | internal/retention/retention.go:296-355 | a candidate is acted upon if and only if its transaction gets through, its name splits, its table is there, and it is to be dropped, or is a child and is to be detached, or is a child and is to be archived to where no other table is |
| `Retention.UnsplitIsSkipped` | internal/retention/retention.go:386-402 | a row whose name has no dot is shown as nothing and skipped, whatever is decided |
| `Retention.ConsideredIsSum` | internal/retention/retention.go:162-250 | Considered is the number of expired rows and the sum of the four lists, and a dry run changes nothing |
| `Retention.DryRunPredictsIff` | internal/retention/retention.go:195-248 | over one listing, the lists of a dry run are those of a real run if and only if no transaction fails |
| `Retention.DryRunPredicts` | internal/retention/retention.go:195-248 | so they are, as multisets, when the two runs list ties in different orders |
| `Consistency.StartsConsistent` | internal/provisioner/provisioner.go:122-200 | a newly registered parent, with no row, child or name in the way, satisfies the invariant |
| `Consistency.ConsistentMeans` | internal/provisioner/provisioner.go:148-200 | under the invariant, active ranges of a tenant are disjoint and each is the window of its start |
| `Consistency.WantedIsFree` | internal/partitions/repo/queries.sql.go:202-224 | no name, table, sibling or row, of this parent or another, stands in the way of a missing required window |
| `Consistency.CreatesWanted` | internal/provisioner/provisioner.go:233-267 | the server creates a missing required window if and only if an attached default holds no row of it; then its attached table and its row come, nothing else does, and the invariant is kept |
| `Consistency.CreatesDefault` | internal/provisioner/provisioner.go:269-305 | so for the default, once per parent |
| `Consistency.OthersStayConsistent` | schema.sql:33-58 | what one parent's calls change in the shared tables keeps the invariant of every parent that shares no table with it |
| `Maintenance.RequiredWindows` | internal/provisioner/provisioner.go:153-156 | the required windows are different windows of the calendar, none of them over |
| `Maintenance.EnsureKeeps` | internal/provisioner/provisioner.go:148-200 | every call keeps the invariant and every row and touches nothing of another parent; it adds as many rows as it reports; after success the default and all required windows are active |
| `Maintenance.EnsureAcceptedIff` | internal/provisioner/provisioner.go:185-189 | for every consistent parent whose names can be built and fit, the server accepts the transaction of a call if and only if an attached default holds no row of a window to be created |
| `Maintenance.EnsureSucceedsIff` | internal/drain/integration_test.go:88-95 | so a call can succeed exactly then |
| `Maintenance.WaitingHasNone` | internal/drain/integration_test.go:217-220 | no row of an attached default has an active partition of its tenant and window |
| `Maintenance.WaitingBlocks` | internal/drain/integration_test.go:88-95 | once a row waits in the attached default, every call that requires its window fails and changes nothing |
| `Maintenance.EnsureTwice` | internal/provisioner/provisioner.go:181-183 | a second call at the same instant does nothing |
| `Maintenance.EnsureCovers` | internal/provisioner/provisioner.go:117-121 | after success an active partition contains each instant from the current window's start to the last premade one's end |
| `Maintenance.ApplyKeeps` | internal/retention/retention.go:296-355 | dropping, detaching or archiving an expired partition keeps the invariant, marks its row only, touches nothing of another parent, and puts the table where the decision says: nowhere, where it was, or in the archive and not where it was |
| `Maintenance.SweepKeeps` | internal/retention/retention.go:151-248 | for every hook and pattern of failures a sweep keeps the invariant, the default, every range not over and all of the other parents' |
| `Maintenance.SweepCutKeeps` | internal/retention/retention.go:164-182 | so does a sweep that a panicking hook ends |
| `Maintenance.SweepPlaces` | internal/retention/retention.go:164-248 | the fate of every candidate of a real sweep, judged by the tables from before it, with the table's place and the archive's after it, for every hook that is shown the partition's own range, schema, parent and tenant, and every pattern of failures |
| `Maintenance.SweepReportsAll` | internal/retention/retention.go:162-250 | whatever a real sweep lists as dropped, detached, archived or skipped is an active bounded row of the parent that ended by the cutoff, and its table and row are now just that; and every such row is listed |
| `Maintenance.SkippedAreStillActive` | internal/retention/retention.go:225-247 | after a real sweep the candidates still active are exactly those reported as skipped |
| `Maintenance.SweepClears` | internal/retention/retention.go:179-248 | without a hook and with transactions that get through, no expired partition is left |
| `Waiting.RoutedIff` | internal/drain/drain.go:256-262 | an attached partition takes a row exactly when its tenant has an active row for its window |
| `Waiting.InsertWaitsIff` | docs/adr/0009-partition-data-drain.md:10-14 | an inserted row waits in the default exactly when that is attached and its tenant has no active partition for its window |
| `Waiting.InsertKeeps` | docs/adr/0009-partition-data-drain.md:10-14 | inserted rows, routed to a partition or to the default, keep the invariant |
| `Waiting.DetachKeeps` | internal/drain/integration_test.go:107-114 | so does detaching the default |
| `Waiting.AttachKeeps` | internal/drain/integration_test.go:215-220 | and attaching it again, where the server allows it |
| `Waiting.AttachableIff` | internal/drain/integration_test.go:215-220 | the server allows it exactly when every row with an active partition has left the default |
| `Waiting.AttachedDrainsNothing` | docs/adr/0009-partition-data-drain.md:10-14 | while the default is attached, a drain takes nothing out of it |
| `Waiting.ExampleRefused` | internal/drain/integration_test.go:88-95 | a daily parent in order whose next EnsurePartitions is refused |
| `Races.ToCreateIsPlan` | internal/provisioner/provisioner.go:153-179 | what a call plans is a plan in the sense of the next rows |
| `Races.CommitKeepsIff` | internal/registry/registry.go:154-158 | a plan that is committed later, after anything else, keeps the invariant if and only if none of its windows has a row whose table is gone; otherwise a table comes back that no active row names |
| `Races.CommitInTime` | internal/registry/registry.go:203-208 | so does every plan that is committed before any of its windows is over |
| `Reimport.ImportAdds` | internal/importer/importer.go:165-232 | importing a maintained parent, to the end or cut short, writes no row, only upper-cased tenants of aligned children, after the end all of them |
| `Reimport.ImportKeepsIff` | internal/importer/importer.go:199-207 | a complete import keeps the invariant if and only if the tenant of every aligned child is in upper case already |
| `Reimport.ImportKeeps` | internal/importer/importer.go:165-232 | then an import cut short anywhere keeps it too, and touches nothing of another parent |
| `Adoption.ImportAdoptsIff` | internal/importer/importer.go:165-248 | a complete import of a parent that nobody has tracked puts its metadata in order if and only if every child is aligned, a window of the grid under the parent's own name for it, with its tenant in upper case, no other table has such a name, and the tenants are told apart |
| `History.StepKeeps` | schema.sql:33-58 | any one of the calls of the next row keeps every parent in order |
| `History.HistoryKeeps` | internal/maintainer/maintainer.go:296-353 | over every run of EnsurePartitions, commits of older plans, sweeps, imports, tenant registrations, inserts, drains, and detaching and attaching of defaults, for any number of parents in one database, by a clock that never goes back, every parent's invariant holds and no range is retired before it is over |
| `History.CoverageLasts` | internal/maintainer/maintainer.go:296-353 | a window required by a successful call keeps its active partition, through all later calls for any parent, until it is over |
| `History.WaitingLasts` | internal/drain/integration_test.go:88-95 | in every such run a row stays in an attached default until that is detached |
| `History.BlockedUntilDetached` | docs/adr/0009-partition-data-drain.md:10-14 | and until then every EnsurePartitions for its tenant that requires its window fails, whatever drains and sweeps come before it |
| `Collisions.ReportCountsIff` | internal/provisioner/provisioner.go:185-199 | EnsurePartitions reports the number of rows that came if and only if no planned row conflicts with another or with one in the metadata; otherwise it reports more |
| `Collisions.TwinReport` | internal/provisioner/provisioner.go:185-199 | once one spelling of a tenant has its partitions, a successful call for another spelling reports every window as created and adds no row |
| `Collisions.HoursOvercounted` | internal/naming/naming.go:74-79 | a call that sets out to create two hours of one day reports more rows than come |
| `Collisions.TablesDifferIff` | internal/naming/naming.go:53-84 | in the years 0 to 9999, the days of a tenant have clipped table names of their own if and only if parent, tenant and date fit 63 bytes |
| `Collisions.TableIsOwnIff` | internal/provisioner/provisioner.go:248-266 | a partition whose row comes has the table its row speaks of if and only if the clipped name was free or that very partition's; otherwise no table is created and the row is active all the same |
| `Neighbours.OwnsIff` | internal/retention/retention.go:296-355 | a parent's partitions are, by name, its default's table in its schema and its windows' tables in its schema or archive, kept whole by the server |
| `Neighbours.ApartIff` | internal/naming/naming.go:53-84 | for any two parents: no partition of one can have a table of the other, in its schema or its archive, if and only if they are different and neither their defaults nor their windows can be named alike: same table, or one named as the other's upper-case tenant would begin, with room for a date |
| `Neighbours.TenantLikeParent` | internal/naming/naming.go:66-73 | a tenanted parent and an untenanted one named like its tenant use the same names for the same windows |
| `EndToEnd.TargetsAreUnique` | internal/partitions/repo/queries.sql.go:14-23 | maintained metadata has at most one target for a tenant and window |
| `EndToEnd.DrainIsStep` | internal/drain/drain.go:225-290 | a drain, however it ends, takes out of the default only rows that have an active partition: the step of the runs above |
| `EndToEnd.AttachedMovesNothing` | internal/drain/drain.go:146-156 | a drain of a parent in order whose default is attached moves no row |
| `EndToEnd.DetachUnblocks` | internal/drain/integration_test.go:107-114 | once the default is detached, a call of EnsurePartitions can succeed, whatever rows are in it |
| `EndToEnd.EnsuredThenDrained` | internal/drain/drain.go:146-156 | with the default detached, after a successful EnsurePartitions a complete drain moves each of the tenant's rows in the covered windows from the default to its partition |
| `EndToEnd.DrainedIsAttachable` | internal/drain/drain.go:225-290 | after a complete drain of a detached default, without a tenant filter, the default can be attached again |
| `EndToEnd.WayOut` | internal/drain/integration_test.go:88-114 | detach the default, ensure, drain to the end, attach: the parent is in order all along, and no row that is left has an active partition |
| `Scheduler.RunKeepsInv` | internal/maintainer/scheduler.go:31-112 | in every interleaving each channel is closed at most once, all but the current one are closed, that one is open exactly while running, the wait group counts the live loops, and while running a live loop holds the current channel or is about to read it |
| `Scheduler.RunningGoesOn` | internal/maintainer/scheduler.go:85-93 | while running, some loop can go on, to read its channel or to its next tick, and none that holds the current channel can exit |
| `Scheduler.StoppedLoopsWillExit` | internal/maintainer/scheduler.go:78-93 | while not running, every live loop holds or will read a closed channel, and can go on to exit |
| `Scheduler.StopDrains` | internal/maintainer/scheduler.go:46-73 | without a new start, each read or exit of a loop shortens what is left and nothing lengthens it |
| `Scheduler.StopCompletes` | internal/maintainer/scheduler.go:61-72 | a stopped scheduler's loops can go on to exit, and then every waiting stop can go on to its return |
| `Scheduler.WaitAdvances` | internal/maintainer/scheduler.go:61-65 | with no loop left, the next step of a stop's wait ends it, and the stop can return without an error |
| `Scheduler.NilMeansNoLoop` | internal/maintainer/scheduler.go:61-72 | when the last stop has returned without an error and nothing was started since, no loop is live |
| `Scheduler.WakesWhenEmpty` | internal/maintainer/scheduler.go:61-65 | in every run a wait is over only when no loop is live |
| `Scheduler.StopEndsOnce` | internal/maintainer/scheduler.go:67-72 | in every run a call of stop returns once, with or without an error |
| `Scheduler.NilWhileLive` | internal/maintainer/scheduler.go:61-72 | a run in which another caller's start makes stop return without an error while a loop is live |
| `Scheduler.AtMostOneLoopIff` | internal/maintainer/scheduler.go:31-44 | at most one loop is ever live if and only if no start comes while a loop is live |
| `Scheduler.WaitingKeepsOneLoop` | internal/maintainer/scheduler.go:46-73 | callers who start again only after the last stop has returned without an error have one loop at most, in every run |
| `Scheduler.WaitedNilIsTrue` | internal/maintainer/scheduler.go:46-73 | and with such callers no stop returns without an error while a loop is live |
| `Scheduler.TwoLoopsShareAChannel` | internal/maintainer/scheduler.go:78-83 | a run that ends with two live loops on the one open channel |
| `Scheduler.NoPanicIff` | internal/maintainer/scheduler.go:39-63 | the wait group can never panic for being reused if and only if no start comes between the last exit and the waking of the stops it releases |
| `Scheduler.WaitingAvoidsPanic` | internal/maintainer/scheduler.go:39-63 | callers who wait for every stop never meet that panic |
| `Scheduler.ReusePanics` | internal/maintainer/scheduler.go:39-63 | a run that ends in it |
| `Scheduler.LoopScheduler.Start` | internal/maintainer/scheduler.go:31-44 | start is the step of the system above, refused exactly while running |
| `Scheduler.LoopScheduler.Stop` | internal/maintainer/scheduler.go:49-59 | stop is the step of the system above, idle exactly when not running |
| `Scheduler.LoopScheduler.TakeChannel` | internal/maintainer/scheduler.go:81-83 | a loop's locked read of the channel is the step of the system above |
| `Scheduler.LoopScheduler.Exit` | internal/maintainer/scheduler.go:78-93 | a loop that finds its channel closed leaves by the step of the system above |
| `Locks.RunKeepsInv` | internal/maintainer/advisory_lock.go:21-85 | in every run connections are unshared, a key is held by one session, and the server's counts are those of callers inside plus leaked grants |
| `Locks.MutualExclusion` | internal/maintainer/advisory_lock.go:61-85 | of two callers inside for one key, one has lost its session, whatever the hash and however many unlocks fail |
| `Locks.EntryIff` | internal/maintainer/advisory_lock.go:21-31 | with nobody else in the way, a second caller is granted the key if and only if the one inside has lost its session |
| `Locks.RefusedIff` | internal/maintainer/advisory_lock.go:21-31 | in every run a caller is refused the key if and only if another is inside with its session alive or a grant of another session was left behind; otherwise it is granted |
| `Locks.LostSessionAdmitsAnother` | internal/maintainer/advisory_lock.go:11-17 | a run with two callers inside for one parent |
| `Locks.NoLeaksNoLocks` | internal/maintainer/advisory_lock.go:33-51 | without failing unlocks or lost replies, a key is held exactly while a caller is inside |
| `Locks.LeakLasts` | internal/maintainer/advisory_lock.go:75-83 | a leaked grant outlives any number of further lock and unlock pairs on its session and keeps all other sessions out |
| `Locks.EndedContextLeaks` | internal/maintainer/advisory_lock.go:75-83 | a run in which a caller whose context is over leaves its grant with the pooled session |
| `Locks.LeakShutsOut` | internal/maintainer/advisory_lock.go:75-83 | after such a call, in every run, every other session is refused the key until that session ends |
| `Maintainer.Work` | internal/maintainer/maintainer.go:296-353 | whatever fails or panics, the invariant, all ranges not over and all other parents are kept; each target whose own call is reached and gets through has its windows covered unless a row of an attached default waits for one, whatever becomes of the other targets; if the sweep is reached and meets no failure or hook, nothing expired is left; and the partitions counted as created are the rows that came |
| `Maintainer.DueSucceeds` | internal/maintainer/maintainer.go:321-340 | a target's call succeeds, however the calls for the targets before it went |
| `Maintainer.ProcessParent` | internal/maintainer/maintainer.go:263-366 | the deferred calls try to unlock a granted lock exactly once on every exit, a refused one never, and leave the grant behind exactly when the context is over and the session is not; no panic escapes; the result tells which: processed only if every call was made and none panicked; without the lock nothing changes |
| `Maintainer.ServedStays` | schema.sql:33-58 | what each target of a parent was promised, and what its sweep was, stays kept through the passes over other parents, before and after |
| `Maintainer.Maintain` | internal/maintainer/maintainer.go:194-247 | in one database shared by all parents, each automatic parent before a cancellation has its promises at the end of the pass, target by target, and the others are undisturbed; each is counted once, under the right counter for a lock not obtained or a panic; and a pass leaves at most one grant behind, when its context ends during a parent's work |

## Left out

- SQL text, identifier quoting and row scanning: a query is its WHERE clause, order, limit and conflict rule.
- Concurrent writers to the default or to the metadata during one drain, SKIP LOCKED and reuse of physical addresses: only the drain changes the default, and targets are looked up in the metadata it began with.
- Transactions whose outcome is unknown after a lost connection: a failed transaction changed nothing.
- The classification of errors as retriable: an attempt is given as commit, passing failure or final failure.
- Failing reads before a transaction (the parent's row, listings in EnsurePartitions): the call returns an error and has changed nothing.
- Removing parents and tenants, DropAll, changing a parent's settings, migrations, options and the facade: thin.
- Logging, metrics, ULIDs, timestamps of rows, tickers.
- DrainLoop.Drainer.PartitionData: an unlimited call requires that stuck rows cannot fill its batches, because the loop need not end; Drain.BatchesBoundedIff proves that this is the exact condition. What a grant that is left behind does to others is in Locks.
- BoundText.StampReads: whole seconds, in the layout PostgreSQL prints by default; fractional seconds, the other layouts the parser tries, `infinity` and years before 1 or of five digits are not modelled.
- Text: bytes are characters, upper-casing and white space are ASCII.
- The Interval field of a table name, which neither Build nor Parse reads.
- Rows of partitions other than the default, and rows whose control value is NULL or infinite, which no partition takes: maintenance does not see them.
- Retention.ComputeCutoff: the cutoff is an unbounded instant; one that 64-bit microseconds cannot hold, which the query would refuse, is not modelled.
- Retry.DelayWithinJitter: the jitter is computed over the reals, in float64 by the code.
- Retention.Sweep: an archive schema that does not exist is one of the transaction's failures; moving a table to the schema it is in is taken to do nothing.
- History.HistoryKeeps: for daily, weekly and monthly parents with a reasonable retention period that share no table (Neighbours.ApartIff), names that fit, tenants that differ beyond case, and plans none of whose windows was retired away; Collisions, Reimport.ImportKeepsIff, Races.CommitKeepsIff and Retention.CutoffNeverAheadIff show what happens otherwise. Parents are not added, removed or changed during a run, and operators do to tables only what the steps say.
- Maintainer.Maintain: other processes write nothing during the pass; calls of several processes interleave in History.
- Locks: processes that do not use the lock functions; a session that ends while its caller is still connecting.
