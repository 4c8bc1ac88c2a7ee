# Barbershop booking store — a Dafny model

This project models the computational core of a single-barber booking app:

- the **schedule engine**, which turns the barber's configuration
  (opening time, closing time, slot length of 30 or 60 minutes, working
  weekdays, blocked dates) into a grid of "HH:MM" slot labels and, for one
  date, into a list of slots marked free or taken;
- the **booking store**, which holds the appointment list, the configuration
  and the barber-session flag, and offers the operations that change them:
  booking, deleting a date's appointments, sweeping appointments that no
  longer fit the schedule, merging a partial configuration, blocking and
  unblocking dates, and logging the barber in and out;
- the **schedule form**'s logic: toggling a working day and the two checks a
  submitted form must pass before it reaches the store.

Files and modules (one module per file):

| file | module | models |
|---|---|---|
| `types.dfy` | `Types` | the records: appointment, booking request, configuration, partial configuration, time slot, default configuration |
| `filtering.dfy` | `Filtering` | order-preserving `filter` and key distinctness |
| `clock.dfy` | `Clock` | reading "HH:MM" as `h*60+m`, writing minutes back as a zero-padded label |
| `arith.dfy` | `Arith` | multiplication and Euclidean-division facts |
| `calendar.dfy` | `Calendar` | the weekday of an ISO date (proleptic Gregorian, 0 = Sunday) |
| `schedule.dfy` | `Schedule` | the slot grid, its loop, slot lookup, the availability view of a date |
| `store.dfy` | `Store` | booking checks, deletion, the schedule sweep, the configuration merge, blocked dates, the `BookingStore` class |
| `sorting.dfy` | `Sorting` | ascending insertion sort of weekday lists |
| `config_form.dfy` | `ConfigForm` | `toggleDay`, the submit checks, handing a valid form to the store |

The store is a class whose fields (`appointments`, `config`,
`isBarberAuthenticated`, plus `sweepPending` and `nextId`) are replaced by its
methods; each method's postcondition ties the new state to a pure function of
the old one (`Admission`, `WithoutDate`, `Sweep`, `Merge`, `WithBlocked`,
`WithoutBlocked`), and the properties are proved about those functions. The
class invariant `Valid()` says that no (date, time) pair is booked twice and
that ids are distinct; every mutator preserves it. The grid generator is a
`while` loop proved against the specification function `SlotLabels`.

Behaviour kept exactly as the code has it, although a stricter reading of the
app's intent would differ:

- Booking checks only two things, in this order: the (date, time) pair is free,
  then the date is not blocked. It does not check that the weekday is a working
  day or that the time is on the grid (`Store.AdmissionIgnoresSchedule`).
- Blocked dates are a list: blocking a date twice lists it twice, and one
  unblock removes every copy (`Store.BlockTwiceThenUnblock`).
- A configuration update merges the supplied fields into the current ones and
  always sets the configured flag; it is not a wholesale replacement.
- The sweep ignores blocked dates and the configured flag; a configuration
  whose times do not read as minutes gives an empty grid, so the sweep then
  removes every appointment.
- The form compares times through `h*60+m`; a time that does not read as
  minutes makes the comparison false, so such a form passes the time check.
- Times are read without range checks: "25:00" reads as 1500 minutes and
  "09:75" as 615.

## Model

| member | source | states |
|---|---|---|
| `Clock.ParseHM` | src/context/AppContext.tsx:49-53 | a time reads as minutes exactly when it is two digits, a colon and two digits; the value is below 100 hours plus 100 minutes |
| `Clock.Pad2Digits` | src/context/AppContext.tsx:58 | zero-padding to two characters writes exactly the tens and units digit of a value below 100 |
| `Clock.FormatParseRoundTrip` | src/context/AppContext.tsx:56-58 | below 100 hours a formatted label is a five-character "HH:MM" that reads back as the minute count it came from, with a minute field equal to the count mod 60 |
| `Clock.FormatInjective` | src/context/AppContext.tsx:56-58 | distinct minute counts below 100 hours get distinct labels |
| `Clock.ParseFormatRoundTrip` | src/context/AppContext.tsx:49-58 | a label with a minute field below 60 is the formatted form of the minutes it reads as |
| `Clock.FormattedLabels` | src/context/AppContext.tsx:49-58 | a string is a formatted label below 100 hours exactly when it is "DD:DD" with a minute field below 60 |
| `Calendar.ParseDate` | src/context/AppContext.tsx:68 | a parsed ISO date is a Gregorian day: a four-digit year, a month in 1..12 and a day within that month |
| `Calendar.DateFormatParseRoundTrip` | src/context/AppContext.tsx:68 | every Gregorian day with a four-digit year is named by its "YYYY-MM-DD" string, which parses back to that day |
| `Calendar.DateParseFormatRoundTrip` | src/context/AppContext.tsx:68 | a string that parses is exactly the "YYYY-MM-DD" string of the day it names |
| `Calendar.Weekday` | src/context/AppContext.tsx:68-69 | a date has a weekday exactly when it names a calendar day, and the weekday is in 0..6 |
| `Calendar.MarchYearLength` | src/context/AppContext.tsx:68-69 | a year counted from March has 366 days exactly when the February ending it is a Gregorian leap February, 365 otherwise |
| `Calendar.DaysFromCivilNext` | src/context/AppContext.tsx:68-69 | the day after any day, across month, year and leap-day boundaries, is counted one day later |
| `Calendar.WeekdayOfDay` | src/context/AppContext.tsx:68-69 | the weekday of a day's ISO string is its day count from 1970-01-01 plus four, mod 7 |
| `Calendar.WeekdayNext` | src/context/AppContext.tsx:68-69 | from each day to the next the weekday advances by one, modulo 7 |
| `Calendar.WeekdayAnchors` | src/context/AppContext.tsx:68-69 | 1970-01-01 is a Thursday, 2000-02-29 a Tuesday, 2024-06-10 a Monday, and 2023-02-29 is no date |
| `Schedule.SlotCountExact` | src/context/AppContext.tsx:55-60 | step k of the walk is emitted exactly when `start + k*step < end` |
| `Schedule.SlotCountBounds` | src/context/AppContext.tsx:52-61 | the walk emits nothing exactly when start >= end; the last emitted minute is below the end and the next one is not |
| `Schedule.GridLabelsWellFormed` | src/context/AppContext.tsx:55-59 | below 100 hours label i is a five-character "HH:MM" reading as `start + i*step`, and the labels read as strictly increasing minutes |
| `Schedule.GridLabelAt` | src/context/AppContext.tsx:55-59 | the label at each grid position has a minute field below 60 and a minute value on the grid |
| `Schedule.GridLabelSound` | src/context/AppContext.tsx:55-59 | every grid label is a well-formed label whose minutes lie in [start, end) a whole number of steps from start |
| `Schedule.GridLabelComplete` | src/context/AppContext.tsx:55-59 | every well-formed label whose minutes lie on the grid is a grid label |
| `Schedule.GridLabelMembership` | src/context/AppContext.tsx:133-139 | the membership test of a time in the grid, both directions, in terms of its minutes |
| `Schedule.SlotLabels` | src/context/AppContext.tsx:49-55 | a start or end time that does not read as minutes yields no slots |
| `Schedule.NineToTenByHalfHours` | src/context/AppContext.tsx:47-63 | 09:00 to 10:00 in 30-minute steps yields "09:00" and "09:30" |
| `Schedule.GenerateTimeSlots` | src/context/AppContext.tsx:47-63 | the loop emits exactly the grid labels, in order |
| `Schedule.FindBooking` | src/context/AppContext.tsx:86-88 | nothing is found exactly when no appointment has that (date, time); what is found is the first appointment in list order that has it |
| `Schedule.FindBookingUnique` | src/context/AppContext.tsx:86-88 | without double booking the lookup returns the one appointment holding the slot |
| `Schedule.SlotsForDate` | src/context/AppContext.tsx:65-96 | empty when unconfigured, not a working day, or blocked; otherwise one slot per grid label in grid order, taken exactly when some appointment has that (date, time), carrying it |
| `Schedule.BookingShowsInSlot` | src/context/AppContext.tsx:85-95 | an appointment at a grid label of an open date shows as that label's taken slot |
| `Filtering.Filter` | src/context/AppContext.tsx:121 | the result keeps exactly the elements that satisfy the predicate and is no longer than the input |
| `Filtering.FilterConcat` | src/context/AppContext.tsx:121 | filtering keeps relative order: it distributes over concatenation |
| `Filtering.FilterMultiplicity` | src/context/AppContext.tsx:121 | kept values keep their multiplicity, removed ones have none |
| `Filtering.FilterKeepsAll` | src/context/AppContext.tsx:121 | filtering is the identity when nothing fails the predicate |
| `Filtering.FilterCongruent` | src/context/AppContext.tsx:125 | predicates that agree on the elements filter alike |
| `Filtering.FilterKeepsDistinct` | src/context/AppContext.tsx:121 | filtering keeps keys distinct |
| `Filtering.DistinctByAppend` | src/context/AppContext.tsx:116 | appending an element with a new key keeps keys distinct |
| `Store.Admission` | src/context/AppContext.tsx:98-110 | conflict exactly when the slot is taken; otherwise unavailable exactly when the date is blocked; otherwise accepted |
| `Store.BookTwiceConflicts` | src/context/AppContext.tsx:99-105 | a second booking of the same (date, time) is refused with the conflict message |
| `Store.BookingKeepsNoDoubleBooking` | src/context/AppContext.tsx:98-117 | an accepted booking keeps every (date, time) booked at most once |
| `Store.BookedSlotShowsTaken` | src/context/AppContext.tsx:116 | after an accepted booking on an open date its slot shows as taken by the new appointment |
| `Store.AdmissionIgnoresSchedule` | src/context/AppContext.tsx:98-117 | a Sunday "03:17" booking outside the grid is accepted |
| `Store.WithoutDate` | src/context/AppContext.tsx:120-122 | keeps exactly the appointments not on the date |
| `Store.WithoutDateExact` | src/context/AppContext.tsx:120-122 | deleting a date keeps every other appointment's multiplicity and relative order, and is a no-op when nothing matches |
| `Store.Sweep` | src/context/AppContext.tsx:124-141 | keeps exactly the appointments on a working weekday whose time is a grid label |
| `Store.SweepExact` | src/context/AppContext.tsx:124-141 | with well-formed times the sweep keeps an appointment exactly when its weekday works and its time lies on the grid in minutes |
| `Store.SweepOrder` | src/context/AppContext.tsx:125-140 | the sweep keeps survivors in their original order and multiplicity, drops the rest, and is a no-op when everything fits |
| `Store.SweepIgnoresBlockedDates` | src/context/AppContext.tsx:124-141 | blocked dates and the configured flag do not affect the sweep |
| `Store.SweepIdempotent` | src/context/AppContext.tsx:124-141 | a second sweep against the same configuration removes nothing |
| `Store.SweptAppointmentsAreVisible` | src/context/AppContext.tsx:124-141 | after a sweep every surviving appointment on an unblocked date of a configured store is visible in its slot |
| `Store.Merge` | src/context/AppContext.tsx:143-148 | supplied fields overwrite, the others stay, and the store becomes configured |
| `Store.MergeIdempotent` | src/context/AppContext.tsx:145 | applying the same partial configuration twice equals applying it once |
| `Store.SweepAfterUpdateAsWritten` | src/context/AppContext.tsx:150-152 | the scheduled sweep as written keeps exactly what fits the configuration from before the update |
| `Store.SweepAfterUpdate` | src/context/AppContext.tsx:143-153 | the intended scheduled sweep keeps exactly what fits the updated configuration |
| `Store.StaleSweepKeepsOrphan` | src/context/AppContext.tsx:129-137 | shortening the day to 12:00: the sweep as written keeps a 15:00 booking the new schedule excludes; the intended one drops it and keeps 10:00 |
| `Store.WithBlocked` | src/context/AppContext.tsx:156-160 | the date ends up blocked, at the end of the list, after the old list unchanged, with one more copy even when it was already there; no other field changes |
| `Store.WithoutBlocked` | src/context/AppContext.tsx:168-172 | unblocking removes every copy of the date and keeps every other date's multiplicity |
| `Store.BlockTwiceThenUnblock` | src/context/AppContext.tsx:159 | blocking twice lists the date twice; one unblock clears it |
| `Store.BlockedDateRefusesBooking` | src/context/AppContext.tsx:155-165 | after blocking a date its view is empty and every request for it is refused as unavailable |
| `Store.BookingStore.constructor` | src/context/AppContext.tsx:21-45 | a new store has no appointments, no session and the saved configuration or the default |
| `Store.BookingStore.GetTimeSlotsForDate` | src/context/AppContext.tsx:65-96 | returns the availability view of the date under the current state |
| `Store.BookingStore.AddAppointment` | src/context/AppContext.tsx:98-118 | returns the admission outcome; appends the request with a fresh id exactly when accepted; keeps the invariant |
| `Store.BookingStore.DeleteAppointmentsForDate` | src/context/AppContext.tsx:120-122 | the list becomes the date-filtered list; keeps the invariant |
| `Store.BookingStore.DeleteAppointmentsOutsideSchedule` | src/context/AppContext.tsx:124-141 | the list becomes the sweep of the current configuration; keeps the invariant |
| `Store.BookingStore.UpdateBarberConfig` | src/context/AppContext.tsx:143-153 | the configuration becomes the merge and a sweep is scheduled; keeps the invariant |
| `Store.BookingStore.RunScheduledSweep` | src/context/AppContext.tsx:150-152 | a scheduled sweep runs against the configuration current when it runs, then none is pending |
| `Store.BookingStore.BlockDate` | src/context/AppContext.tsx:155-165 | the date is appended to the blocked list and no appointment on it remains |
| `Store.BookingStore.UnblockDate` | src/context/AppContext.tsx:167-176 | every copy of the date leaves the blocked list; appointments are untouched; keeps the invariant |
| `Store.BookingStore.AuthenticateBarber` | src/context/AppContext.tsx:178-184 | succeeds exactly for the secret, then sets the session flag; a failure leaves the flag as it was; keeps the invariant |
| `Store.BookingStore.LogoutBarber` | src/context/AppContext.tsx:186-188 | clears the session flag; keeps the invariant |
| `Store.UpdateThenSweep` | src/context/AppContext.tsx:143-153 | an update followed by its sweep leaves the merged configuration, exactly the appointments fitting it, no sweep pending, and the session flag and id counter untouched |
| `Sorting.Insert` | src/components/BarberConfig.tsx:39 | inserting into a sorted list gives a sorted list holding one more copy of the value |
| `Sorting.SortAscending` | src/components/BarberConfig.tsx:39 | the result is sorted and a permutation of the input |
| `ConfigForm.DefaultOrderOnWeekdays` | src/components/BarberConfig.tsx:39 | for single digits the default (string) sort order is numeric order |
| `ConfigForm.ToggleDay` | src/components/BarberConfig.tsx:34-41 | a selected day is removed with every other day kept; an unselected day is added and the list sorted |
| `ConfigForm.ToggleTwice` | src/components/BarberConfig.tsx:37-39 | toggling a day twice restores its membership and leaves other days' membership alone |
| `ConfigForm.FormPatch` | src/components/BarberConfig.tsx:61 | the form sends no blocked dates and no configured flag |
| `ConfigForm.ValidateSubmit` | src/components/BarberConfig.tsx:43-60 | no working days is refused first; then start not before end; otherwise the form's four fields are sent |
| `ConfigForm.SavedFormGivesOpenSchedule` | src/components/BarberConfig.tsx:46-61 | a saved well-formed form gives a configured schedule with working days, start before end, at least one slot, and the old blocked dates |
| `ConfigForm.SubmitConfigForm` | src/components/BarberConfig.tsx:43-63 | an invalid form leaves the store alone; a valid one merges its fields and never touches blocked dates |

## Left out

- Persistence: reading the saved configuration at start-up is the constructor's `saved` parameter (`None` for an absent or unparseable record); writing it on every configuration change is I/O and not modelled.
- The deferred sweep's timer: it is the `sweepPending` flag and `RunScheduledSweep`; the event loop is not modelled, and several pending sweeps collapse into one (a repeated sweep against the same configuration changes nothing, `Store.SweepIdempotent`).
- Appointment ids: the code builds them from the clock and a random number; here they are counter values, and only their distinctness is kept.
- The barber password: it is the store's `secret`, given to the constructor; its value is not part of the model.
- Calendar dates: only "YYYY-MM-DD" strings naming a real Gregorian day (years 0000 to 9999) have a weekday; other strings a JavaScript engine might accept, or roll over (such as "2023-02-30"), have none. Local midnight is assumed to fall on the named day.
- `Clock.ParseHM`: only the exact "DD:DD" shape reads as minutes; other strings the original number conversion accepts (unpadded "9:00", surrounding spaces, a trailing ":SS" field) read as `None` here.
- `ConfigForm.ToggleDay`: sorts numerically, whereas the code's default sort compares decimal strings; the two agree on weekday indices (`ConfigForm.DefaultOrderOnWeekdays`). Its removal case states every other day's multiplicity, not its position.
- Labels at or beyond 100 hours: `FormatHM` writes them as the code does (more than two hour digits), but the round-trip and membership lemmas are stated below 100 hours only.
- The `useApp` guard that throws outside the provider, the form's success message and its timer, the form's resynchronisation from the store, and every rendering component (client view, agenda, barber view, login, app shell) and the week-navigation date helpers are not part of this model.

## Findings

| source | as written | input that shows it | evidently intended | confidence | as-written member | corrected member |
|---|---|---|---|---|---|---|
| src/context/AppContext.tsx:150-152 | the sweep scheduled after a configuration update runs through a callback that reads the configuration from before the update (lines 129-137 read the captured value) | Monday to Saturday, 09:00 to 18:00, 30-minute slots, a booking on 2024-06-10 at 15:00; update the end time to 12:00 | the sweep runs against the updated configuration and removes the 15:00 booking | not executed; high (the callback can only see the configuration captured when the update was made) | `Store.SweepAfterUpdateAsWritten` with `Store.StaleSweepKeepsOrphan` | `Store.SweepAfterUpdate`, used by `Store.BookingStore.RunScheduledSweep` and `Store.UpdateThenSweep` |
