# RecDesk: interview scheduling, verified

A Dafny model of how RecDesk turns a weekly availability into a confirmed interview, and of what it
prints and imports around that: the slot engine and its time zones, the booking protocol under
concurrent requests, the calendar invite and its email, message templates, and the import of
applications from mailboxes. `dafny verify dfyconfig.toml` checks the whole project.

## How it is organised

| files | what they hold |
|---|---|
| `Calendar`, `Text`, `Zones` | civil dates (section 21.4.1 of ECMA-262), fixed-width date and time strings, wall time to UTC |
| `SlotConflicts`, `Sorting`, `SlotEngine`, `GridFacts`, `GridOrder`, `Availability` | the slot grid as loops and as a declarative set, its order, rule validation |
| `Interviews`, `BookingSafety`, `BookingLife`, `BookingFinality`, `BookingRaces`, `LiveOffers`, `RequestFacts`, `InterviewsServices` | the tables, every request as a read and a write, runs of interleaved requests, each request said on its own terms, the service class |
| `Strings`, `Ics`, `Invites`, `Encodings`, `Mime`, `MimeFacts` | splitting and joining text, iCalendar (sections 3.1 and 3.3.11 of RFC 5545), UTF-8 and Base64 (section 6.8 of RFC 2045), multipart messages (section 5.1.1 of RFC 2046) |
| `Templates`, `TemplateFacts`, `TemplateSeams` | token replacement one by one against replacement at once |
| `EmailImport`, `EmailFacts`, `EmailProcessing`, `ImportRuns`, `ImportAlone`, `ImportIndexes`, `ImportOnce`, `ImportRoutes` | one email's fate, the services, polls interleaved call by call, at most one candidate for each message |

Code that changes things step by step (`computeSlotGrid`, `zonedWallTimeToUtc`, `validateRules`, `upsertMine`,
the interviews service, `render`, `foldLine`, the import and poll services) is a method or a class, proved
against a function; the theorems are lemmas about those functions and about runs built from them. What a request, an
email, a grid, an invite or a message must come to is said a second time, in literal terms and by readers that share
nothing with the printers (`RequestFacts`, `EmailFacts`, `GridFacts`, and the readers in `Invites` and `MimeFacts`).

## The two systems of runs

Bookings. A request is a `Plan` that it reads and a write of that plan. In `RacyNext` every request reads in one
step and writes in a later one, in any order with all others. In `AtomicNext` only `book` is split into its
snapshot and its transaction; creating, submitting, sharing, cancelling and expiring check and write at once.
The transaction body (src/interviews/interviews.service.ts:527) is one step in both: the code sets no isolation
level, and this is an assumption. The offer mode of a row defaults to FIXED (prisma/schema.prisma:420).

* No double booking needs no more than that: it holds in every racy run, with stale snapshots, stale offer-time
  checks, and `cancel` and `expireStale` writing without a guard. Every state of an atomic run occurs in a racy one
  (`AtomicRunIsRacy`), so it holds in those too.
* Finality of SCHEDULED, stale slot safety, offers that stay bookable, the shape of each status and the bounded
  lifetime are proved for atomic runs. For each there is a racy run that breaks it: `UnguardedCancelBreaksFinality`
  (`cancel` reads an open offer, the offer is confirmed, `cancel` writes CANCELLED, and a FIXED booking whose slot
  row that confirmation had pruned then commits), `RacesBreakShape`, `RacesBreakOffers` and `RacesUnboundChanges`.
* In racy runs finality has an exact condition: a confirmed interview and its slot rows stay as they are in every
  continuation if and only if no pending write is a cancellation, an expiry or an offer of that interview
  (`FinalExactlyUnthreatened`). A FIXED claim commits without its slot row if and only if, at the transaction, the
  interview can be claimed, the time is free and the row is gone (`CommitDanglesExactly`).

Imports. A poll is a chain of awaited calls; any step of any poll may come next, along with deleting a candidate,
creating one by hand, the two cleaning jobs and, where stated, a restart that forgets locks and polls. Every
foreign call and every look-up may fail. A write fails when its row is gone, and when one of the unique indexes, on
the message id of a row and on the import of a candidate (prisma/schema.prisma:593 and :290), refuses it; other
writes succeed.

* The indexes alone give one row for each message and at most one candidate linked to it, in every run, whichever
  connections deliver a message (`OneRowOneLink`). They are never needed if and only if every message is delivered
  on one connection (`IdleExactlyOnOneRoute`).
* They do not give one candidate for each message: with two connections, a poll that looked the row up early can
  overwrite it as SKIPPED after the other has linked a candidate to it; the clean-up then deletes the row and the
  link, and the message is imported again (`TwoCandidates`). At most one surviving candidate comes from each message
  in every run if and only if no message that two connections deliver is delivered by one that imports
  automatically (`OnceExactlyOnSafeRoutes`).

## Other assumptions

* A zone is a base offset and a sorted list of shifts, each offset a whole number of seconds and less than 24 hours (`ValidZone`); where the source asks Intl for
  local fields, the model adds the offset. Instants lie in the years 1001 to 9997, because `parseNaive` reads
  four-digit years; within that, dates, offsets and shifts are arbitrary.
* The clock is a parameter of each step and may move either way. Identifiers are numbers from a counter, in place
  of UUIDs. Rows returned without an order may come in any order; `expireStale` gets any 500 of the rows it asks for.
* `localeCompare` on dates and times of fixed width is code-unit order.
* The bounds that the transfer objects impose are a duration of 10 to 480 minutes, a step of 5 to 60 and a horizon of
  1 to 60 days; theorems that need one say so, the others hold without.
* One server process, as the in-memory lock of the polls requires.

## What turned out false, and exactly when it holds

* `addCivilDays` does not always compose: `Date.UTC` reads years 0 to 99 as 1900 to 1999. It composes if and only
  if the intermediate date is outside those years (`AddCivilDaysComposes`).
* Two offset changes close together defeat the two passes of `zonedWallTimeToUtc` (`TwoNearbyShiftsDefeatIt`).
  For every zone and wall time the passes are right if and only if the zone does not shift between their two guesses,
  or its last shift there restores the offset (`TwoPassExactly`). With at most one shift in reach that is: if and
  only if the wall time exists (`TwoPassIsExact`).
* The comment at src/interviews/interviews.service.ts:762-770 says that re-validation never rejects a shown time.
  Among the steps a query may ask for, that is true for exactly the multiples of five
  (`RevalidationIsSafeForMultiplesOfFive`). A wall time that its zone repeats is found again, but not always as the
  slot that was picked: that one is booked if and only if no earlier slot of the re-validation grid has its wall time
  (`ShownSlotIsBooked`, with a zone that falls back in `RepeatedTimeBooksEarlier`).
* Rendering an accepted template with brace-free values is not always simultaneous substitution: in
  `{{interview_time}{{booking_link}}}` an empty booking link completes a later token. For one template it holds if
  and only if no step meets such a seam, and for all accepted templates if and only if every value but the last
  listed one has text (`RenderingIsSimultaneous`, `ListedOrderIsSafeExactly`).
* Confirmed interviews are not always final, slot rows of bookings do not always stand, and a message is not always
  imported once: the exact conditions are above.
* A header value is not always read back: plain text in the form of an encoded word is printed as it is
  (`HeaderReadsBack` gives the exact condition).

## Model

| member | source | states |
|---|---|---|
| Calendar.DayFromYearClosedForm | src/availability/utils/slot-engine.util.ts:89-98 | counting the days of the years one by one gives the formula of section 21.4.1 of ECMA-262, for every year |
| Calendar.CivilOfDay | src/availability/utils/slot-engine.util.ts:81-94 | every day number, before or after 1970, has a real civil date whose day number it is |
| Calendar.CivilRoundTrip | src/availability/utils/slot-engine.util.ts:81-94 | a real date is the only one with its day number |
| Calendar.CivilAscends | src/availability/utils/slot-engine.util.ts:166-169 | later day numbers are later dates, and only those |
| Calendar.ShortYearMoves | src/availability/utils/slot-engine.util.ts:89-98 | `Date.UTC` gives a date its own day if and only if its year is not 0 to 99 |
| Calendar.AddCivilDaysComposes | src/availability/utils/slot-engine.util.ts:89-94 | adding n then m days is adding n + m, for every date and any signs, if and only if the date in between is not in the years 0 to 99 |
| Calendar.WeekdayAdvances | src/availability/utils/slot-engine.util.ts:96-98 | n days later the weekday is n further, modulo 7 |
| Calendar.FieldsRoundTrip | src/interviews/utils/timezone.util.ts:40-67 | composing the fields of an instant loses its milliseconds and nothing else |
| Calendar.ComposeRoundTrip | src/interviews/utils/timezone.util.ts:97-115 | the fields of a composed time are the ones it was composed of |
| Text.DateKeyAscends | src/availability/utils/slot-engine.util.ts:63-65 | for four-digit years date keys are equal, and ordered as strings, exactly as their dates are |
| Text.DateKeysDiffer | src/availability/utils/slot-engine.util.ts:63-65 | no two dates of any year have one key |
| Text.HHMMRoundTrip | src/availability/utils/slot-engine.util.ts:100-109 | a minute of the day is printed as a valid time and read back |
| Text.TimesAscend | src/availability/availability.service.ts:174-196 | comparing HH:mm strings is comparing minutes |
| Text.WallRoundTrip | src/interviews/utils/timezone.util.ts:19-34 | a wall time printed to the minute parses to its fields |
| Text.WallWithSecondsParses | src/interviews/utils/timezone.util.ts:19-34 | so does one with seconds, either separator, and text after them |
| Text.WallStringsDiffer | src/interviews/utils/timezone.util.ts:97-115 | different wall times have different strings |
| Zones.ConvertWallTime | src/interviews/utils/timezone.util.ts:73-91 | the two assignments of `offset` and `result` compute `ZonedWallTimeToUtc`, including the unreadable text where the source throws |
| Zones.OffsetIsRead | src/interviews/utils/timezone.util.ts:40-67 | reading local fields and composing them recovers the offset of the zone |
| Zones.TwoPassIsExact | src/interviews/utils/timezone.util.ts:73-91 | with at most one shift in reach, the result has local time w if and only if some instant has, for either sign of the offset and either direction of the shift |
| Zones.TwoPassNeedsOneOffset | src/interviews/utils/timezone.util.ts:73-91 | for every zone and wall time, the result has local time w if and only if the zone has the same offset at both guesses |
| Zones.TwoPassExactly | src/interviews/utils/timezone.util.ts:73-91 | that is, if and only if no shift lies between the guesses or the last one there restores the offset in force at the earlier |
| Zones.SkippedTimeMovesByTheGap | src/interviews/utils/timezone.util.ts:73-91 | a wall time that a shift skips comes out moved by exactly the gap, forward or backward by its side of the shift |
| Zones.RepeatedTimeChoice | src/interviews/utils/timezone.util.ts:73-91 | which of the two instants a repeated wall time becomes |
| Zones.TwoNearbyShiftsDefeatIt | src/interviews/utils/timezone.util.ts:73-91 | a valid zone with two shifts in reach and an existing wall time that is converted wrongly |
| Zones.WallTimeRoundTrip | src/interviews/utils/timezone.util.ts:73-115 | an existing wall time string comes back from its instant |
| Zones.InstantRoundTrip | src/interviews/utils/timezone.util.ts:73-115 | an instant on a whole local minute comes back with the same wall time, and as itself when the offset is constant in reach |
| SlotConflicts.FindConflicts | src/interviews/utils/slot-conflicts.util.ts:10-15 | the candidates that overlap some booking, and no others |
| SlotConflicts.OverlapIsSharing | src/interviews/utils/slot-conflicts.util.ts:6-8 | ranges with a length overlap if and only if they share an instant, so touching ends do not |
| Sorting.SortPermutes | src/availability/utils/slot-engine.util.ts:154-156 | sorting loses and repeats nothing |
| Sorting.SortSorts | src/availability/utils/slot-engine.util.ts:201-206 | for a total preorder the result is in order |
| SlotEngine.GroupRules | src/availability/utils/slot-engine.util.ts:148-156 | each day's list is the sorted rules of that weekday, and a day without rules has none |
| SlotEngine.IndexOverrides | src/availability/utils/slot-engine.util.ts:158-161 | looking a date up gives its last override |
| SlotEngine.ResolvedWindows | src/availability/utils/slot-engine.util.ts:111-125 | what the two maps resolve to is the override of the date if there is one, else the rules of its weekday |
| SlotEngine.DatesAreConsecutive | src/availability/utils/slot-engine.util.ts:163-169 | the loop visits consecutive real dates from today on, each with the weekday of its day number |
| SlotEngine.WallIsReadable | src/availability/utils/slot-engine.util.ts:180-181 | the wall time that the loop writes is read back as that minute of that date |
| SlotEngine.SlideWindow | src/availability/utils/slot-engine.util.ts:171-197 | the innermost loop files exactly the open starts of the window, each in the bucket of its local date |
| SlotEngine.ComputeSlotGrid | src/availability/utils/slot-engine.util.ts:138-207 | the nested loops, buckets and sorts compute `SlotGrid` |
| GridFacts.CandidatesAreTheOffered | src/availability/utils/slot-engine.util.ts:166-199 | the loops meet x if and only if x is a start at some step of some window of some date of the horizon, later than now and overlapping no booking |
| GridFacts.WindowsAreThoseOfTheDay | src/availability/utils/slot-engine.util.ts:111-125 | the windows of a visited date are those of the last override with its day number, else those of the rules of its weekday |
| GridFacts.GridPermutes | src/availability/utils/slot-engine.util.ts:189-207 | bucketing and sorting lose and repeat nothing |
| GridFacts.GridIsExact | src/availability/utils/slot-engine.util.ts:138-207 | the grid holds exactly the offered slots: nothing missing, nothing extra, each end its duration after its start |
| GridFacts.GridSlotsAreOpen | src/availability/utils/slot-engine.util.ts:181-187 | for zones of any kind, every slot is in the future, free, and as long as asked |
| GridOrder.GridIsPartitioned | src/availability/utils/slot-engine.util.ts:189-207 | days ascend, none is empty, each slot stands under the civil date of its local day in the interview zone, in time order |
| GridOrder.SlotsStandUnderTheirDay | src/availability/utils/slot-engine.util.ts:189-206 | the date of a slot's day is the first ten characters of its wall time, and two slots stand under one day if and only if their local day numbers are equal |
| GridOrder.GridAscends | src/availability/utils/slot-engine.util.ts:201-207 | if dates in the interview zone never go back, the days run together in time order |
| GridOrder.GridAscendsStrictly | src/availability/utils/slot-engine.util.ts:201-207 | with validated rules and a schedule zone without shifts no instant is offered twice |
| GridOrder.SuggestionsAreEarliest | src/availability/utils/slot-engine.util.ts:214-228 | the suggestions are the wall times of the earliest `count` offered slots of the 30-minute grid, or of all if there are fewer |
| Availability.GroupByDay | src/availability/availability.service.ts:174-188 | groups the rules by weekday and rejects exactly if some range does not start before it ends |
| Availability.NeighboursDecide | src/availability/availability.service.ts:189-196 | in a sorted list of proper ranges, no two neighbours overlap if and only if no two ranges do |
| Availability.ValidateRules | src/availability/availability.service.ts:174-196 | accepts if and only if every range has start before end and the ranges of each day are pairwise disjoint |
| Availability.AvailabilityService.UpsertMine | src/availability/availability.service.ts:23-47 | replaces rules, and the zone if one is given, exactly for accepted lists; stored lists stay valid |
| BookingSafety.BuiltSlotsLast | src/interviews/interviews.service.ts:712-723 | every slot that is built lasts as long as its interview |
| BookingSafety.LiveSlotLasts | src/interviews/interviews.service.ts:771-788 | so does the slot that a LIVE booking resolves to, and it is free in the bookings it was computed from |
| BookingSafety.AtomicIsRacy | src/interviews/interviews.service.ts:257-275 | an atomic step is a read and its write with nothing in between: no step, one racy step or two |
| BookingSafety.AtomicRunIsRacy | src/interviews/interviews.service.ts:257-275 | every state of an atomic run occurs in some racy run with the same last state, so theorems on racy runs cover atomic ones |
| BookingSafety.ClaimIsSafe | src/interviews/interviews.service.ts:576-602 | a claim that passes the in-transaction check adds a booking that overlaps none of its interviewer's |
| BookingSafety.StepIsSafe | src/interviews/interviews.service.ts:494-661 | every read and every write, however stale, keeps the tables free of double bookings |
| BookingSafety.NeverDoubleBooked | src/interviews/interviews.service.ts:494-661 | in every state of every racy run, two SCHEDULED interviews of one interviewer have disjoint [scheduledAt, scheduledAt + duration) |
| BookingLife.CommittedSlotStands | src/interviews/interviews.service.ts:527-602 | a FIXED booking that commits, however old its snapshot, points at a slot row that exists with startsAt = scheduledAt |
| BookingLife.ClaimsPersist | src/interviews/interviews.service.ts:511-548 | whatever happens meanwhile, a pending claim's row still stands or its time is taken, as long as it can be claimed |
| BookingLife.CommitEffectOnOthers | src/interviews/interviews.service.ts:620-657 | after a commit an open offer of the interviewer has lost precisely its overlapping slots, is EXPIRED if and only if it lost one and keeps no future one; every other interview is unchanged |
| BookingLife.CommitEffectOnItself | src/interviews/interviews.service.ts:527-574 | the booked interview is SCHEDULED at the range that was claimed, and holds its slot |
| BookingLife.CommitIsOrderly | src/interviews/interviews.service.ts:527-661 | a commit keeps the shape of every status, the bookability of every offer and the safety of every pending claim |
| BookingLife.RequestIsOrderly | src/interviews/interviews.service.ts:307-401 | so does every other request as one step |
| BookingLife.AtomicRunIsOrderly | src/interviews/interviews.service.ts:55-661 | in every atomic run: AWAITING_MANAGER has no slots, FIXED offers have one or more, LIVE offers none, SCHEDULED holds its slot (and LIVE no other), and no offered slot overlaps a confirmed interview of its interviewer |
| BookingLife.FreshFixedBookingCommits | src/interviews/interviews.service.ts:578-602 | a FIXED booking from a current snapshot never meets the conflict error |
| BookingLife.FreshLiveBookingCommits | src/interviews/interviews.service.ts:549-602 | nor does a LIVE one whose grid used the current bookings |
| BookingLife.ChangesSpendRank | src/interviews/interviews.service.ts:257-275 | every change of status spends at least one of three ranks |
| BookingLife.AtMostThreeChanges | src/interviews/interviews.service.ts:257-275 | in any atomic run an interview changes status at most three times |
| BookingLife.ConfirmedIsFinal | src/interviews/interviews.service.ts:257-275 | a SCHEDULED or CANCELLED row is never touched again, and a confirmed one keeps its slot row in every later state |
| BookingLife.ExpiryIsExact | src/interviews/interviews.scheduler.ts:165-205 | of whatever rows it is given, `expireStale` expires exactly open FIXED offers without a slot after now and requests created more than 14 days ago; nothing else changes, and a LIVE offer never does |
| BookingFinality.ReadsThreatenNone | src/interviews/interviews.service.ts:257-275 | no request that reads an interview once it is SCHEDULED goes on to write to it |
| BookingFinality.WritesStand | src/interviews/interviews.service.ts:527-661 | every other write, however stale, keeps a SCHEDULED row and its slot rows as they are |
| BookingFinality.ThreatsStrike | src/interviews/interviews.scheduler.ts:198-202 | a cancellation, expiry or offer that was read earlier takes the interview out of SCHEDULED |
| BookingFinality.FinalExactlyUnthreatened | src/interviews/interviews.service.ts:257-275 | a confirmed interview and its slot rows are unchanged in every continuation of a racy run if and only if no such write is pending |
| BookingFinality.CommitDanglesExactly | src/interviews/interviews.service.ts:527-602 | a FIXED claim commits without its slot row if and only if it can be claimed, its time is free and the row is gone |
| BookingRaces.UnguardedCancelBreaksFinality | src/interviews/interviews.service.ts:257-275 | a racy run in which SCHEDULED becomes CANCELLED and a stale booking then commits for a slot row that is gone |
| BookingRaces.RacesBreakShape | src/interviews/interviews.service.ts:257-275 | a racy run in which a SCHEDULED interview does not hold its slot |
| BookingRaces.RacesBreakOffers | src/interviews/interviews.service.ts:103-156 | a racy run in which an offered slot overlaps a confirmed interview, since the offer was checked before the booking |
| BookingRaces.RacesUnboundChanges | src/interviews/interviews.scheduler.ts:165-205 | for every n, a racy run in which an interview changes status 2n times |
| LiveOffers.ShownTimeIsFound | src/interviews/interviews.service.ts:771-788 | a slot shown at a step that is a multiple of 5 within 60 days is found by its wall time, and is the same instant if wall times are unique |
| LiveOffers.ShownSlotIsBooked | src/interviews/interviews.service.ts:781-786 | the shown slot itself is booked if and only if no earlier slot of the re-validation grid has its wall time; otherwise the earliest that has |
| LiveOffers.RepeatedTimeBooksEarlier | src/interviews/interviews.service.ts:771-788 | in a zone that falls back, the second of two slots under one wall time is booked an hour early |
| LiveOffers.StepBreaks | src/interviews/interviews.service.ts:762-788 | for every other step a query may ask for, a schedule and a shown slot that is rejected |
| LiveOffers.RevalidationIsSafeForMultiplesOfFive | src/interviews/interviews.service.ts:762-788 | re-validation never rejects a shown time if and only if the step is a multiple of 5 |
| RequestFacts.CreateIsExact | src/interviews/interviews.service.ts:72-133 | which error a creation meets, or none: no times, an unreadable one, one that overlaps a confirmed interview, or no interviewer to ask |
| RequestFacts.CreatedTables | src/interviews/interviews.service.ts:103-156 | whenever it is written: one new row with interviewer, minutes, zone and time of the request, and for each different wall time exactly one slot, from its instant for the minutes; nothing else changes |
| RequestFacts.SubmitIsExact | src/interviews/interviews.service.ts:307-336 | which error submitted times meet, or none |
| RequestFacts.SubmittedTables | src/interviews/interviews.service.ts:338-352 | whenever it is written: the interview has exactly one slot for each different wall time and no other, its row is an open FIXED offer and otherwise as it was; nothing else changes |
| RequestFacts.ShareIsExact | src/interviews/interviews.service.ts:364-401 | which error sharing a calendar meets, or that the row becomes an open LIVE offer and nothing else changes |
| RequestFacts.CancelIsExact | src/interviews/interviews.service.ts:257-275 | which error cancelling meets, or that the row is CANCELLED and nothing else changes |
| RequestFacts.BookedRangesAreExact | src/availability/availability.service.ts:139-154 | a range is booked if and only if an interview is confirmed for it |
| RequestFacts.FixedChoiceIsExact | src/interviews/interviews.service.ts:511-518 | a FIXED booking claims the slot it names with its range, if and only if that is a slot of the open interview that starts after now |
| RequestFacts.LiveChoiceIsExact | src/interviews/interviews.service.ts:519-525 | a LIVE booking claims the earliest slot of the 60-day, 5-minute options that is offered under the wall time asked for; it meets the conflict error if and only if none is |
| RequestFacts.CommitIsExact | src/interviews/interviews.service.ts:527-602 | a claim commits if and only if its interview is still open and no other interview of the interviewer is confirmed for overlapping time; what it makes of the row, and the slot it stores for a LIVE one |
| RequestFacts.AskedTimeIsConfirmed | src/interviews/interviews.service.ts:494-661 | however long the transaction waits, what it confirms is the slot that was named, or the earliest offered under the wall time asked for |
| InterviewsServices.InterviewsService.CreateInterview | src/interviews/interviews.service.ts:55-167 | the new tables are those of `Perform`, and each error is raised exactly where it is |
| InterviewsServices.InterviewsService.AssertNoConflicts | src/interviews/interviews.service.ts:731-760 | reports a conflict if and only if some candidate overlaps a confirmed interview of the interviewer other than the excluded one |
| InterviewsServices.InterviewsService.SubmitAvailability | src/interviews/interviews.service.ts:307-357 | likewise for a manager's times, which replace the slots as `SubmittedTables` says |
| InterviewsServices.InterviewsService.ShareLiveAvailability | src/interviews/interviews.service.ts:364-401 | likewise for a LIVE offer |
| InterviewsServices.InterviewsService.CancelInterview | src/interviews/interviews.service.ts:257-275 | likewise for a cancellation |
| InterviewsServices.InterviewsService.ExpireStaleInterviews | src/interviews/interviews.scheduler.ts:165-205 | likewise for the hourly expiry |
| InterviewsServices.InterviewsService.ReadForBooking | src/interviews/interviews.service.ts:494-525 | the snapshot phase changes nothing and reads the claim, or the error, which `FixedChoiceIsExact` and `LiveChoiceIsExact` say |
| InterviewsServices.InterviewsService.CommitBooking | src/interviews/interviews.service.ts:527-661 | the transaction, claim, re-check and prune in order, is `Commit`: all of it or, on a conflict, nothing |
| InterviewsServices.InterviewsService.PruneSiblings | src/interviews/interviews.service.ts:620-657 | deleting sibling slots and expiring emptied siblings is `Prune` |
| Ics.EscapeIsOnePass | src/interviews/utils/ics.util.ts:32-38 | the four replacements are one escape of each character, after CRLF has become LF |
| Ics.NormaliseMeans | src/interviews/utils/ics.util.ts:37-37 | making CRLF LF changes nothing else, and text without CR not at all |
| Ics.EscapeRoundTrip | src/interviews/utils/ics.util.ts:32-38 | a strict reader of TEXT gets the value back with CRLF as LF; no line feed and no bare separator is left |
| Ics.EscapeIdentifiesBreaksOnly | src/interviews/utils/ics.util.ts:32-38 | two values print alike if and only if they differ at most in CRLF against LF |
| Ics.SanitizeMailtoFilters | src/interviews/utils/ics.util.ts:41-43 | each character is kept in its place, or dropped if it is CR or LF; a value without those is kept whole |
| Ics.FoldLine | src/interviews/utils/ics.util.ts:49-61 | the loop over `remaining` computes the physical lines joined by CRLF |
| Ics.FoldedFits | src/interviews/utils/ics.util.ts:49-61 | no physical line is longer than 75, all but the last have 75, and a line stays whole if and only if it is no longer |
| Ics.FoldRoundTrip | src/interviews/utils/ics.util.ts:49-61 | unfolding gives the line back |
| Ics.DocumentRoundTrip | src/interviews/utils/ics.util.ts:101-101 | unfolding and splitting folded lines joined by CRLF gives the lines, though pieces may end in CR |
| Invites.IcsDateRoundTrip | src/interviews/utils/ics.util.ts:27-30 | a printed instant has 16 characters and reads back to the second |
| Invites.InviteRoundTrip | src/interviews/utils/ics.util.ts:63-102 | unfolding and splitting an invite gives exactly its logical lines, whatever the other fields hold, if and only if the uid has no CRLF; then every physical line fits |
| Invites.InviteReadsBack | src/interviews/utils/ics.util.ts:77-99 | a reader finds the frame of a version 2.0 event, the method REQUEST or CANCEL, uid, stamp, start, end, sequence, the status CONFIRMED or CANCELLED, summary, description and location exactly when given, the one organizer and each attendee in order with name and address |
| Encodings.Utf8RoundTrip | src/email-sending/email-sending.service.ts:511-514 | UTF-8 of any text decodes to it |
| Encodings.ExamplesOfUtf8 | src/email-sending/email-sending.service.ts:511-514 | characters of one to four bytes are encoded as in section 7 of RFC 3629 |
| Encodings.Base64RoundTrip | src/email-sending/email-sending.service.ts:511-514 | Base64 of any bytes decodes to them |
| Encodings.AlphabetIsStandard | src/email-sending/email-sending.service.ts:511-514 | the digits are those of table 1 in section 6.8 of RFC 2045 |
| Encodings.ExamplesOfBase64 | src/email-sending/email-sending.service.ts:511-514 | groups and both kinds of padding are as in section 10 of RFC 4648 |
| Encodings.SanitizeFilters | src/email-sending/email-sending.service.ts:501-505 | each character of a header value is kept in its place, or dropped if it is CR, LF or another control character but the tab |
| Encodings.HeaderIsOneLine | src/email-sending/email-sending.service.ts:500-508 | a printed header value holds no CR and no LF |
| Encodings.PlainExactlyIfAscii | src/email-sending/email-sending.service.ts:506-507 | a value is printed as it is if and only if, sanitized, all its characters are below 0x80 |
| Encodings.HeaderReadsBack | src/email-sending/email-sending.service.ts:500-508 | it reads back as the sanitized value if and only if that is not ASCII text in the form of an encoded word |
| Mime.WrapIsLines | src/email-sending/email-sending.service.ts:511-514 | wrapped lines have at most 76 characters, all but the last have 76, and together they are the text |
| Mime.WrappedRoundTrip | src/email-sending/email-sending.service.ts:511-514 | a wrapped body, its breaks dropped, decodes to its text |
| Mime.MessageIsLines | src/email-sending/email-sending.service.ts:516-568 | the message is its lines joined, each body by its own lines |
| MimeFacts.AltPartIsQuiet | src/email-sending/email-sending.service.ts:523-525 | no line of the inner entity, for any contents and suffix, starts with the outer delimiter |
| MimeFacts.MailReadsBack | src/email-sending/email-sending.service.ts:516-568 | splitting at the boundaries announced in the headers gives exactly the printed parts with their texts decoded, for all contents and every suffix of digits and lower-case letters, if and only if sender and file name hold no CRLF |
| MimeFacts.ReadersFindTheirPart | src/email-sending/email-sending.service.ts:528-567 | a reader finds a multipart/mixed message with sender, recipient and subject in their headers, a multipart/alternative part in it, each text once under its own media type, the method REQUEST or CANCEL on the calendar part, and the invite also as an attachment under its file name |
| MimeFacts.InviteReachesReader | src/email-sending/email-sending.service.ts:471-485 | the calendar part of the email, read, holds all that `InviteReadsBack` says of the event that was printed into it |
| Strings.SplitJoinIsReplace | src/email-sending/template-engine.service.ts:44-46 | splitting at a token and joining with its value replaces every occurrence, from the left |
| Templates.Render | src/email-sending/template-engine.service.ts:30-49 | the loop replaces the tokens in the listed order, with the defaults for missing values |
| TemplateFacts.MatchIsExact | src/email-sending/template-engine.service.ts:86-86 | a match is two opening braces, one or more characters but closing braces, and two closing braces |
| TemplateFacts.MatchesAreLeftmost | src/email-sending/template-engine.service.ts:87-88 | matches are taken from the left, each after the end of the one before |
| TemplateSeams.TokensMeanTheirFields | src/email-sending/template-engine.service.ts:31-41 | which field of the context each of the nine tokens renders to, and what stands in for a missing one |
| TemplateSeams.FirstNameIsExact | src/email-sending/template-engine.service.ts:54-58 | the first name is the first word of the full name, or Candidate if there is none |
| Templates.ParseIsFaithful | src/email-sending/template-engine.service.ts:85-119 | an accepted template is the text of its characters and tokens, as the pattern matches them |
| TemplateFacts.ReplaceOne | src/email-sending/template-engine.service.ts:44-46 | one replacement in a partly substituted text is one more substituted token, unless an occurrence begins outside the template's tokens; then braces are lost |
| TemplateSeams.SpuriousIsSeam | src/email-sending/template-engine.service.ts:44-46 | such occurrences are exactly the seams of the template: a token without its last brace, then tokens with empty values, then a brace |
| TemplateSeams.RenderingIsSimultaneous | src/email-sending/template-engine.service.ts:30-49 | for accepted templates and brace-free values, rendering in any order is simultaneous substitution if and only if no step meets a seam |
| TemplateSeams.OutputKeepsToken | src/email-sending/template-engine.service.ts:94-119 | the substituted text still holds a supported token if and only if the template has a seam for it |
| TemplateSeams.LoneTokenRenders | src/email-sending/template-engine.service.ts:31-46 | a template that is one token renders to the value of that token |
| TemplateSeams.FullValuesRenderAlike | src/email-sending/template-engine.service.ts:30-49 | with no empty value every order renders alike and no supported token is left |
| TemplateSeams.ListedOrderIsSafeExactly | src/email-sending/template-engine.service.ts:30-49 | the listed order is safe for all accepted templates if and only if every value but the last has text |
| EmailFacts.LowerIs | src/email-monitor/email-processing.service.ts:376-376 | a text is the lower case of another if and only if they are the same letter by letter up to case and it has no capitals |
| EmailFacts.FateIsExact | src/email-monitor/email-processing.service.ts:74-338 | what becomes of an email for all answers of all calls, in literal terms: ignored, aborted, filtered, declined below confidence 80, a duplicate up to case, failed, or imported under an address in small letters |
| EmailFacts.EffectIsExact | src/email-monitor/email-processing.service.ts:151-335 | what row and candidate each fate leaves, field by field |
| EmailFacts.CaseIsIgnored | src/email-monitor/email-processing.service.ts:116-116 | a sender's address under another capitalisation has the same fate and leaves the same tables |
| EmailFacts.StoredAddressesAreSmall | src/email-monitor/email-processing.service.ts:411-414 | every address an import stores has no capital and is the sender's or the CV's up to case |
| EmailFacts.KnownAddressesAreNotImported | src/email-monitor/email-processing.service.ts:376-423 | no candidate is created for an address that the company knows up to case, and mail the account sent itself up to case changes nothing |
| EmailFacts.SyncCounts | src/email-monitor/outlook-monitor.service.ts:105-127 | imported, skipped and errors count the messages with that outcome |
| EmailProcessing.EmailProcessingService.ProcessNormalizedEmail | src/email-monitor/email-processing.service.ts:74-209 | the successive updates have exactly the effect and the outcome of the email's fate, for all answers of all calls |
| EmailProcessing.EmailProcessingService.ImportClassified | src/email-monitor/email-processing.service.ts:211-337 | recording and, at a confidence of 80 or more, importing a classified email |
| EmailProcessing.EmailProcessingService.ImportEligible | src/email-monitor/email-processing.service.ts:249-321 | the try block and its catch: the final status, and a candidate even when a later call throws |
| EmailProcessing.EmailProcessingService.ProcessCvAttachment | src/email-monitor/email-processing.service.ts:343-476 | throws, refuses a known address, or adds one candidate, with the parsed or the sender's address |
| EmailProcessing.EmailProcessingService.CreateCandidateFromEmail | src/email-monitor/email-processing.service.ts:481-533 | the same without an attachment |
| EmailProcessing.MonitorService.PollEmailsForConnection | src/email-monitor/outlook-monitor.service.ts:35-163 | a connection that is being polled is refused and nothing changes; otherwise messages are processed in order, failures are counted, and the mark is removed on every way out (src/email-monitor/email-monitor.service.ts:65-200 does the same) |
| EmailImport.ProcessingLeavesCleanRows | src/email-monitor/email-processing.service.ts:149-338 | from clean rows, every return or throw leaves all rows SKIPPED, IMPORTED or FAILED without bodies, and other rows untouched |
| EmailImport.OnlyFreshCandidates | src/email-monitor/email-processing.service.ts:239-289 | a candidate comes only from an eligible email, a row without one, and an address unknown to the company |
| EmailImport.CreatesAtMostOne | src/email-monitor/email-processing.service.ts:74-338 | one candidate, linked to the email's row, if the email is imported or fails afterwards; otherwise none |
| EmailImport.RedeliveryIsIgnored | src/email-monitor/email-processing.service.ts:91-113 | once there is a candidate, delivering the message again, on any connection and with any answers, changes nothing |
| EmailImport.SyncAccounts | src/email-monitor/outlook-monitor.service.ts:93-128 | every message that was not removed is counted as imported, skipped or an error, once; rows stay clean |
| ImportRuns.OnePollPerConnection | src/email-monitor/outlook-monitor.service.ts:40-54 | in every interleaving, restarts included, no connection has two polls in flight |
| ImportRuns.AwaitTidies | src/email-monitor/email-processing.service.ts:149-338 | after one call a row is finished without bodies, or held by the poll that made the call, or as it was |
| ImportRuns.BodiesNeverOutlivePolls | src/email-monitor/email-processing.service.ts:149-338 | in every interleaving, messages delivered on several connections included, when no poll is inside a message all rows are finished and without bodies |
| ImportAlone.AwaitDescends | src/email-monitor/email-processing.service.ts:74-338 | every awaited call brings the email nearer to its end |
| ImportAlone.AloneIsTheEffect | src/email-monitor/email-processing.service.ts:74-338 | the calls of a poll made without interruption have the effect of the fate, so runs and service describe the same code |
| ImportIndexes.AwaitIsIndexed | src/email-monitor/email-processing.service.ts:165-237 | every call, whatever other polls did since the last, keeps one row for each message and one link to each row |
| ImportIndexes.OneRowOneLink | prisma/schema.prisma:590-593 | in every run and for all routes a message has at most one row, and at most one candidate is linked to it |
| ImportIndexes.EffectIsIndexed | src/email-monitor/email-processing.service.ts:91-113 | an email processed alone keeps the indexes, so no write of the service on its own is refused |
| ImportOnce.OthersStaySound | src/email-monitor/email-processing.service.ts:91-113 | what a poll relies on about its message survives whatever other polls do for other messages |
| ImportOnce.QuietStaysSound | src/email-monitor/email-processing.service.ts:323-337 | and what a poll without automatic import relies on survives other such polls for the same message |
| ImportOnce.StepKeepsSound | src/email-monitor/email-processing.service.ts:91-307 | every call of every poll, and every deletion, clean-up and restart, keeps what the other polls rely on |
| ImportOnce.CleanUpDetachesNone | src/email-monitor/email-cleanup.service.ts:20-30 | while every linked row records an eligible application that was not skipped, deleting old SKIPPED rows never takes a candidate's link |
| ImportOnce.PurgedRows | src/email-monitor/email-cleanup.service.ts:45-60 | the purge drops both texts of the rows it takes and changes nothing else |
| ImportOnce.AtMostOnce | src/email-monitor/email-processing.service.ts:91-307 | on safe routes: in every run, through failures, retries, deletions and restarts, at most one surviving candidate comes from each message, and it stays linked to a row that records an application of confidence 80 or more |
| ImportOnce.IndexesNeverFire | prisma/schema.prisma:590-593 | with one route for every message no poll is about to write what an index would refuse |
| ImportRoutes.TwoCandidates | src/email-monitor/email-processing.service.ts:91-174 | if two connections deliver a message and one imports automatically, some run leaves two candidates from it |
| ImportRoutes.OnceExactlyOnSafeRoutes | src/email-monitor/email-processing.service.ts:91-113 | at most one surviving candidate comes from each message in every run if and only if no message that two connections deliver is delivered by one that imports automatically, with or without restarts |
| ImportRoutes.TwoRoutesAreRefused | prisma/schema.prisma:590-593 | two connections that deliver one message can both find no row, and the second write is refused |
| ImportRoutes.IdleExactlyOnOneRoute | prisma/schema.prisma:590-593 | the indexes never refuse a write in any run if and only if every message is delivered on one connection |

## Left out

- Ics.FoldLine: lengths count characters of the model, the source's are UTF-16 units; they agree for text without characters above U+FFFF. Folding by octets is not claimed, as the source does not do it.
- Invites.InviteReadsBack: nothing is claimed about the `CN=` parameters, which the source escapes as TEXT and not as parameter values.
- Invites.IcsDateRoundTrip: years before 1000 and after 9999, where `toISOString` has another layout.
- Encodings.HeaderReadsBack: the limit of 75 characters on an encoded word, which the source does not observe.
- Mime.MessageIsLines: strings are well-formed Unicode; a lone surrogate, which `Buffer.from` replaces, cannot occur.
- Zones.TwoPassIsExact: instants outside the years 1001 to 9997, and Intl and its data, for which a zone of shifts stands.
- EmailProcessing.EmailProcessingService.ProcessNormalizedEmail: database writes that fail for other reasons than a missing row or an index, and columns that no branch reads (subject, names, reasons, dates); addresses are lower-cased in ASCII.
- BookingLife.ExpiryIsExact: that every stale row is expired eventually, since each hour takes an unordered 500.
- Looking up the candidate, job and users when an interview is created, and the DRAFT status, which no code writes.
- Deleting users, companies, candidates or connections, and what the database then cascades or sets to null, except deleting a candidate in the import runs.
- Notifications, confirmation and nudge emails after a booking, and the layout of email HTML: they do not touch the tables modelled here.
- Instants beyond the range of a JavaScript Date.
- The queue's classification job (src/queue/processors/email-classification.processor.ts), for which no producer is called.
- The two awaits of parsing a CV and counting it are one step in the import runs; neither touches the tables.
- Storage, billing, AI and mail providers: their answers are parameters.
- Permissions, allowlist, pagination, prefilter patterns and billing.
