/** The booking store: the appointment list, the barber's configuration and
    the barber session flag, with the operations that change them.

    The pure functions below say what each operation computes; the class
    `BookingStore` holds the state and its methods replace the fields with
    those results. */
module Store {
  import opened Types
  import opened Clock
  import opened Calendar
  import opened Filtering
  import opened Schedule
  import opened Arith

  // ---------------------------------------------------------------------
  // Booking
  // ---------------------------------------------------------------------

  const ConflictMessage: string := "Este horario ya fue reservado. Por favor elige otro."
  const UnavailableMessage: string := "Este día no está disponible."

  /** The outcome of a booking request: accepted, or refused with the
      message shown to the client. */
  datatype AddResult = Booked | Refused(message: string)

  /** Whether some appointment already occupies the requested slot. */
  predicate Taken(appts: seq<Appointment>, date: string, time: string) {
    exists a :: a in appts && SlotKey(a) == (date, time)
  }

  /** The checks a booking request goes through, first failing check wins:
      the slot must be free, then the date must not be blocked. Neither the
      weekday nor the time label is checked against the schedule. */
  function Admission(cfg: Config, appts: seq<Appointment>, req: BookingRequest): (r: AddResult)
    ensures r == Refused(ConflictMessage) <==> Taken(appts, req.date, req.timeSlot)
    ensures r == Refused(UnavailableMessage)
        <==> !Taken(appts, req.date, req.timeSlot) && req.date in cfg.blockedDates
    ensures r == Booked <==> !Taken(appts, req.date, req.timeSlot) && req.date !in cfg.blockedDates
  {
    if FindBooking(appts, req.date, req.timeSlot).Some? then Refused(ConflictMessage)
    else if req.date in cfg.blockedDates then Refused(UnavailableMessage)
    else Booked
  }

  /** Booking the same slot a second time is refused as a conflict. */
  lemma BookTwiceConflicts(cfg: Config, appts: seq<Appointment>, req: BookingRequest, id: nat)
    ensures Admission(cfg, appts + [WithId(req, id)], req) == Refused(ConflictMessage)
  {
    var a := WithId(req, id);
    assert a in appts + [a] && SlotKey(a) == (req.date, req.timeSlot);
  }

  /** An accepted booking keeps every slot booked at most once. */
  lemma BookingKeepsNoDoubleBooking(cfg: Config, appts: seq<Appointment>, req: BookingRequest, id: nat)
    requires NoDoubleBooking(appts)
    requires Admission(cfg, appts, req) == Booked
    ensures NoDoubleBooking(appts + [WithId(req, id)])
  {
    DistinctByAppend(appts, WithId(req, id), SlotKey);
  }

  /** After an accepted booking on an open date at a grid label, that
      label's slot is taken by the new appointment. */
  lemma BookedSlotShowsTaken(cfg: Config, appts: seq<Appointment>, req: BookingRequest, id: nat, i: nat)
    requires NoDoubleBooking(appts)
    requires Admission(cfg, appts, req) == Booked
    requires IsOpen(cfg, req.date)
    requires i < |SlotLabels(cfg.startTime, cfg.endTime, cfg.slotDuration)|
    requires SlotLabels(cfg.startTime, cfg.endTime, cfg.slotDuration)[i] == req.timeSlot
    ensures SlotsForDate(cfg, appts + [WithId(req, id)], req.date)[i]
         == TimeSlot(req.timeSlot, false, Some(WithId(req, id)))
  {
    BookingKeepsNoDoubleBooking(cfg, appts, req, id);
    BookingShowsInSlot(cfg, appts + [WithId(req, id)], WithId(req, id), i);
  }

  /** The request is admitted even when its label is not on the grid or
      its date is not a working day: here an unconfigured store accepts a
      Sunday booking at "03:17". */
  lemma AdmissionIgnoresSchedule()
    ensures var req := BookingRequest("2024-06-09", "03:17", "Ana", "555", "ana@example.com");
      && !WorksOn(DefaultConfig, req.date)
      && req.timeSlot !in SlotLabels(DefaultConfig.startTime, DefaultConfig.endTime, DefaultConfig.slotDuration)
      && Admission(DefaultConfig, [], req) == Booked
  {
    assert ParseDate("2024-06-09") == Some(CivilDate(2024, 6, 9));
    assert DaysFromCivil(CivilDate(2024, 6, 9)) == 19883;
    assert ParseHM("09:00") == Some(540) && ParseHM("18:00") == Some(1080);
    if "03:17" in GridLabels(540, 1080, 30) {
      GridLabelSound(540, 1080, 30, "03:17");
      assert false;
    }
  }

  // ---------------------------------------------------------------------
  // Deleting appointments
  // ---------------------------------------------------------------------

  function NotOn(date: string): Appointment -> bool {
    (a: Appointment) => a.date != date
  }

  /** The appointments not dated `date`, in their original order. */
  function WithoutDate(appts: seq<Appointment>, date: string): (r: seq<Appointment>)
    ensures forall a :: a in r <==> a in appts && a.date != date
    ensures |r| <= |appts|
  {
    Filter(NotOn(date), appts)
  }

  /** Deleting a date removes exactly its appointments, keeps every other
      one as many times as before and in the same relative order, and is a
      no-op when the date has none. */
  lemma WithoutDateExact(appts: seq<Appointment>, more: seq<Appointment>, date: string, a: Appointment)
    ensures multiset(WithoutDate(appts, date))[a] == if a.date == date then 0 else multiset(appts)[a]
    ensures WithoutDate(appts + more, date) == WithoutDate(appts, date) + WithoutDate(more, date)
    ensures (forall b :: b in appts ==> b.date != date) ==> WithoutDate(appts, date) == appts
  {
    FilterMultiplicity(NotOn(date), appts, a);
    FilterConcat(NotOn(date), appts, more);
    if forall b :: b in appts ==> b.date != date {
      FilterKeepsAll(NotOn(date), appts);
    }
  }

  /** Whether an appointment fits a configuration: its date falls on a
      working day and its time is one of the grid's labels. */
  predicate InSchedule(cfg: Config, a: Appointment) {
    WorksOn(cfg, a.date) && a.timeSlot in SlotLabels(cfg.startTime, cfg.endTime, cfg.slotDuration)
  }

  function Fits(cfg: Config): Appointment -> bool {
    (a: Appointment) => InSchedule(cfg, a)
  }

  /** The appointments that fit `cfg`, in their original order. */
  function Sweep(cfg: Config, appts: seq<Appointment>): (r: seq<Appointment>)
    ensures forall a :: a in r <==> a in appts && InSchedule(cfg, a)
    ensures |r| <= |appts|
  {
    Filter(Fits(cfg), appts)
  }

  /** With well-formed times below 100 hours, the sweep keeps an appointment
      exactly when its weekday is a working day and its time is an "HH:MM"
      label (minutes below 60) whose minute value is a whole number of slot
      lengths from the start and below the end. Blocked dates and the
      configured flag play no part. */
  lemma SweepExact(cfg: Config, appts: seq<Appointment>, a: Appointment, start: nat, end: nat)
    requires ParseHM(cfg.startTime) == Some(start) && ParseHM(cfg.endTime) == Some(end)
    requires end <= 100 * 60
    ensures a in Sweep(cfg, appts)
        <==> && a in appts
             && WorksOn(cfg, a.date)
             && IsLabel(a.timeSlot)
             && DigitValue(a.timeSlot[3]) * 10 + DigitValue(a.timeSlot[4]) < 60
             && OnGrid(ParseHM(a.timeSlot).value, start, end, cfg.slotDuration)
  {
    GridLabelMembership(start, end, cfg.slotDuration, a.timeSlot);
  }

  /** The sweep depends on the weekly schedule only: blocked dates and the
      configured flag do not change what it keeps. */
  lemma SweepIgnoresBlockedDates(cfg: Config, appts: seq<Appointment>, blocked: seq<string>, configured: bool)
    ensures Sweep(cfg.(blockedDates := blocked, isConfigured := configured), appts) == Sweep(cfg, appts)
  {
    var cfg' := cfg.(blockedDates := blocked, isConfigured := configured);
    forall a | a in appts ensures Fits(cfg')(a) == Fits(cfg)(a) {
      assert WorksOn(cfg', a.date) == WorksOn(cfg, a.date);
    }
    FilterCongruent(Fits(cfg'), Fits(cfg), appts);
  }

  /** The sweep keeps the surviving appointments in their original order and
      as many times as before: it distributes over concatenation, keeps every
      fitting appointment's multiplicity and drops every other one, and is a
      no-op when everything fits. */
  lemma SweepOrder(cfg: Config, appts: seq<Appointment>, more: seq<Appointment>, a: Appointment)
    ensures Sweep(cfg, appts + more) == Sweep(cfg, appts) + Sweep(cfg, more)
    ensures multiset(Sweep(cfg, appts))[a] == if InSchedule(cfg, a) then multiset(appts)[a] else 0
    ensures (forall b :: b in appts ==> InSchedule(cfg, b)) ==> Sweep(cfg, appts) == appts
  {
    FilterConcat(Fits(cfg), appts, more);
    FilterMultiplicity(Fits(cfg), appts, a);
    if forall b :: b in appts ==> InSchedule(cfg, b) {
      FilterKeepsAll(Fits(cfg), appts);
    }
  }

  /** Sweeping twice against the same configuration removes nothing more. */
  lemma SweepIdempotent(cfg: Config, appts: seq<Appointment>)
    ensures Sweep(cfg, Sweep(cfg, appts)) == Sweep(cfg, appts)
  {
    FilterKeepsAll(Fits(cfg), Sweep(cfg, appts));
  }

  /** After a sweep against a configured store, every surviving appointment
      on a date that is not blocked is visible in that date's view, in the
      slot of its own time label. */
  lemma SweptAppointmentsAreVisible(cfg: Config, appts: seq<Appointment>, a: Appointment)
    requires NoDoubleBooking(appts)
    requires cfg.isConfigured && a.date !in cfg.blockedDates
    requires a in Sweep(cfg, appts)
    ensures exists i :: 0 <= i < |SlotsForDate(cfg, Sweep(cfg, appts), a.date)|
                     && SlotsForDate(cfg, Sweep(cfg, appts), a.date)[i] == TimeSlot(a.timeSlot, false, Some(a))
  {
    var kept := Sweep(cfg, appts);
    FilterKeepsDistinct(Fits(cfg), appts, SlotKey);
    var labels := SlotLabels(cfg.startTime, cfg.endTime, cfg.slotDuration);
    var i :| 0 <= i < |labels| && labels[i] == a.timeSlot;
    BookingShowsInSlot(cfg, kept, a, i);
  }

  // ---------------------------------------------------------------------
  // Configuration
  // ---------------------------------------------------------------------

  /** The configuration after a partial update: every supplied field
      overwrites the current one, every other field stays, and the store
      counts as configured from then on. */
  function Merge(cfg: Config, patch: ConfigPatch): (r: Config)
    ensures r.isConfigured
    ensures patch.startTime.Some? ==> r.startTime == patch.startTime.value
    ensures patch.startTime.None? ==> r.startTime == cfg.startTime
    ensures patch.endTime.Some? ==> r.endTime == patch.endTime.value
    ensures patch.endTime.None? ==> r.endTime == cfg.endTime
    ensures patch.slotDuration.Some? ==> r.slotDuration == patch.slotDuration.value
    ensures patch.slotDuration.None? ==> r.slotDuration == cfg.slotDuration
    ensures patch.workingDays.Some? ==> r.workingDays == patch.workingDays.value
    ensures patch.workingDays.None? ==> r.workingDays == cfg.workingDays
    ensures patch.blockedDates.Some? ==> r.blockedDates == patch.blockedDates.value
    ensures patch.blockedDates.None? ==> r.blockedDates == cfg.blockedDates
  {
    Config(
      patch.startTime.GetOr(cfg.startTime),
      patch.endTime.GetOr(cfg.endTime),
      patch.slotDuration.GetOr(cfg.slotDuration),
      patch.workingDays.GetOr(cfg.workingDays),
      patch.blockedDates.GetOr(cfg.blockedDates),
      true)
  }

  /** Applying the same update twice is the same as applying it once. */
  lemma MergeIdempotent(cfg: Config, patch: ConfigPatch)
    ensures Merge(Merge(cfg, patch), patch) == Merge(cfg, patch)
  {
  }

  /** The sweep the configuration update schedules, as the code is written:
      the deferred call reads the configuration captured before the update,
      so the update itself plays no part. */
  function SweepAfterUpdateAsWritten(before: Config, patch: ConfigPatch, appts: seq<Appointment>)
    : (r: seq<Appointment>)
    ensures forall a :: a in r <==> a in appts && InSchedule(before, a)
  {
    Sweep(before, appts)
  }

  /** The sweep the configuration update is meant to schedule: against the
      configuration the update produced. */
  function SweepAfterUpdate(before: Config, patch: ConfigPatch, appts: seq<Appointment>)
    : (r: seq<Appointment>)
    ensures forall a :: a in r <==> a in appts && InSchedule(Merge(before, patch), a)
  {
    Sweep(Merge(before, patch), appts)
  }

  /** The example below: a Monday to Saturday, 09:00 to 18:00 schedule in
      half hours, shortened to end at 12:00, with bookings at 15:00 and
      10:00 on Monday 2024-06-10. */
  const FullDay: Config := Config("09:00", "18:00", 30, [1, 2, 3, 4, 5, 6], [], true)
  const EndAtNoon: ConfigPatch := ConfigPatch(None, Some("12:00"), None, None, None, None)
  const LateBooking: Appointment := Appointment(0, "2024-06-10", "15:00", "Ana", "555", "ana@example.com")
  const EarlyBooking: Appointment := Appointment(1, "2024-06-10", "10:00", "Luis", "556", "luis@example.com")

  /** Moving the end of the day from 18:00 to 12:00: the intended sweep drops
      the 15:00 booking and keeps the 10:00 one, while the sweep as written
      keeps both, leaving the 15:00 booking outside the new schedule. */
  lemma StaleSweepKeepsOrphan()
    ensures SweepAfterUpdateAsWritten(FullDay, EndAtNoon, [LateBooking, EarlyBooking]) == [LateBooking, EarlyBooking]
    ensures !InSchedule(Merge(FullDay, EndAtNoon), LateBooking)
    ensures SweepAfterUpdate(FullDay, EndAtNoon, [LateBooking, EarlyBooking]) == [EarlyBooking]
  {
    ShortenedDayFits();
    SweepPair(FullDay, LateBooking, EarlyBooking);
    SweepPair(Merge(FullDay, EndAtNoon), LateBooking, EarlyBooking);
  }

  lemma ShortenedDayFits()
    ensures InSchedule(FullDay, LateBooking) && InSchedule(FullDay, EarlyBooking)
    ensures !InSchedule(Merge(FullDay, EndAtNoon), LateBooking)
    ensures InSchedule(Merge(FullDay, EndAtNoon), EarlyBooking)
  {
    var after := Merge(FullDay, EndAtNoon);
    assert after == Config("09:00", "12:00", 30, [1, 2, 3, 4, 5, 6], [], true);
    WeekdayAnchors();
    assert WorksOn(FullDay, "2024-06-10") && WorksOn(after, "2024-06-10");
    ShortenedDayLabels();
  }

  lemma SweepPair(cfg: Config, x: Appointment, y: Appointment)
    ensures Sweep(cfg, [x, y])
         == (if InSchedule(cfg, x) then [x] else []) + (if InSchedule(cfg, y) then [y] else [])
  {
    var p := Fits(cfg);
    assert [x, y][1..] == [y];
    assert [y][1..] == [];
    assert Filter(p, [y]) == (if p(y) then [y] else []) by {
      assert Filter(p, [y][1..]) == [];
    }
    assert Filter(p, [x, y]) == (if p(x) then [x] else []) + Filter(p, [y]);
  }

  /** Which labels the 09:00-18:00 and 09:00-12:00 half-hour grids hold. */
  lemma ShortenedDayLabels()
    ensures SlotLabels("09:00", "18:00", 30) == GridLabels(540, 1080, 30)
    ensures SlotLabels("09:00", "12:00", 30) == GridLabels(540, 720, 30)
    ensures "15:00" in GridLabels(540, 1080, 30) && "10:00" in GridLabels(540, 1080, 30)
    ensures "10:00" in GridLabels(540, 720, 30) && "15:00" !in GridLabels(540, 720, 30)
  {
    assert ParseHM("09:00") == Some(540);
    assert ParseHM("18:00") == Some(1080);
    assert ParseHM("12:00") == Some(720);
    assert ParseHM("15:00") == Some(900);
    assert ParseHM("10:00") == Some(600);
    DivModUnique(900 - 540, 30, 12, 0);
    DivModUnique(600 - 540, 30, 2, 0);
    GridLabelComplete(540, 1080, 30, "15:00");
    GridLabelComplete(540, 1080, 30, "10:00");
    GridLabelComplete(540, 720, 30, "10:00");
    if "15:00" in GridLabels(540, 720, 30) {
      GridLabelSound(540, 720, 30, "15:00");
      assert false;
    }
  }

  function OtherThan(date: string): string -> bool {
    (d: string) => d != date
  }

  /** The blocked dates after blocking `date`: appended, even when already there. */
  function WithBlocked(cfg: Config, date: string): (r: Config)
    ensures date in r.blockedDates
    ensures |r.blockedDates| == |cfg.blockedDates| + 1 && r.blockedDates[|cfg.blockedDates|] == date
    ensures r.blockedDates[..|cfg.blockedDates|] == cfg.blockedDates
    ensures multiset(r.blockedDates) == multiset(cfg.blockedDates) + multiset{date}
    ensures r == cfg.(blockedDates := r.blockedDates)
  {
    cfg.(blockedDates := cfg.blockedDates + [date])
  }

  /** The configuration after unblocking `date`: every occurrence removed. */
  function WithoutBlocked(cfg: Config, date: string): (r: Config)
    ensures date !in r.blockedDates
    ensures forall d :: d != date ==> multiset(r.blockedDates)[d] == multiset(cfg.blockedDates)[d]
    ensures r == cfg.(blockedDates := r.blockedDates)
  {
    var kept := Filter(OtherThan(date), cfg.blockedDates);
    assert forall d :: d != date ==> multiset(kept)[d] == multiset(cfg.blockedDates)[d] by {
      forall d | d != date ensures multiset(kept)[d] == multiset(cfg.blockedDates)[d] {
        FilterMultiplicity(OtherThan(date), cfg.blockedDates, d);
      }
    }
    cfg.(blockedDates := kept)
  }

  /** Blocking a date twice lists it twice, and one unblock clears it. */
  lemma BlockTwiceThenUnblock(cfg: Config, date: string)
    ensures multiset(WithBlocked(WithBlocked(cfg, date), date).blockedDates)[date]
         == multiset(cfg.blockedDates)[date] + 2
    ensures date !in WithoutBlocked(WithBlocked(WithBlocked(cfg, date), date), date).blockedDates
  {
    assert WithBlocked(WithBlocked(cfg, date), date).blockedDates == cfg.blockedDates + [date] + [date];
  }

  /** Once a date is blocked and its appointments are deleted, its view is
      empty and every request for it is refused as unavailable. */
  lemma BlockedDateRefusesBooking(cfg: Config, appts: seq<Appointment>, req: BookingRequest)
    ensures SlotsForDate(WithBlocked(cfg, req.date), WithoutDate(appts, req.date), req.date) == []
    ensures Admission(WithBlocked(cfg, req.date), WithoutDate(appts, req.date), req) == Refused(UnavailableMessage)
  {
    var cfg' := WithBlocked(cfg, req.date);
    assert req.date in cfg'.blockedDates;
    assert forall a :: a in WithoutDate(appts, req.date) ==> SlotKey(a) != (req.date, req.timeSlot);
  }

  // ---------------------------------------------------------------------
  // The store
  // ---------------------------------------------------------------------

  function IdOf(a: Appointment): nat {
    a.id
  }

  class BookingStore {
    var appointments: seq<Appointment>
    var config: Config
    var isBarberAuthenticated: bool
    /** A configuration update has scheduled a sweep that has not run yet. */
    var sweepPending: bool
    /** The next appointment id to hand out. */
    var nextId: nat
    /** The barber's password. */
    const secret: string

    /** No slot is booked twice and ids are distinct and below `nextId`. */
    ghost predicate Valid()
      reads this
    {
      && NoDoubleBooking(appointments)
      && DistinctBy(appointments, IdOf)
      && forall a :: a in appointments ==> a.id < nextId
    }

    /** A fresh store: no appointments, no barber session, and the persisted
        configuration, or the default one when none could be read. */
    constructor (saved: Option<Config>, secret: string)
      ensures Valid()
      ensures appointments == [] && config == saved.GetOr(DefaultConfig)
      ensures !isBarberAuthenticated && !sweepPending
      ensures this.secret == secret
    {
      appointments := [];
      config := saved.GetOr(DefaultConfig);
      isBarberAuthenticated := false;
      sweepPending := false;
      nextId := 0;
      this.secret := secret;
    }

    /** The availability view of `date` under the current state. */
    method GetTimeSlotsForDate(date: string) returns (slots: seq<TimeSlot>)
      ensures slots == SlotsForDate(config, appointments, date)
    {
      if !config.isConfigured {
        return [];
      }
      var dayOfWeek := Weekday(date);
      if dayOfWeek.None? || dayOfWeek.value !in config.workingDays {
        return [];
      }
      if date in config.blockedDates {
        return [];
      }
      var timeSlots := GenerateTimeSlots(config.startTime, config.endTime, config.slotDuration);
      slots := SlotView(timeSlots, appointments, date);
    }

    /** Books a slot unless it is taken or its date is blocked; an accepted
        request is appended with a new id and nothing else changes. */
    method AddAppointment(req: BookingRequest) returns (result: AddResult)
      requires Valid()
      modifies this`appointments, this`nextId
      ensures Valid()
      ensures result == Admission(config, old(appointments), req)
      ensures result.Booked? ==> appointments == old(appointments) + [WithId(req, old(nextId))]
      ensures result.Refused? ==> appointments == old(appointments)
    {
      result := Admission(config, appointments, req);
      if result.Booked? {
        var appointment := WithId(req, nextId);
        BookingKeepsNoDoubleBooking(config, appointments, req, nextId);
        DistinctByAppend(appointments, appointment, IdOf);
        appointments := appointments + [appointment];
        nextId := nextId + 1;
      }
    }

    method DeleteAppointmentsForDate(date: string)
      requires Valid()
      modifies this`appointments
      ensures Valid()
      ensures appointments == WithoutDate(old(appointments), date)
    {
      FilterKeepsDistinct(NotOn(date), appointments, SlotKey);
      FilterKeepsDistinct(NotOn(date), appointments, IdOf);
      appointments := WithoutDate(appointments, date);
    }

    /** Drops every appointment that does not fit the current configuration. */
    method DeleteAppointmentsOutsideSchedule()
      requires Valid()
      modifies this`appointments
      ensures Valid()
      ensures appointments == Sweep(config, old(appointments))
    {
      FilterKeepsDistinct(Fits(config), appointments, SlotKey);
      FilterKeepsDistinct(Fits(config), appointments, IdOf);
      appointments := Sweep(config, appointments);
    }

    /** Merges a partial configuration and schedules a sweep. */
    method UpdateBarberConfig(patch: ConfigPatch)
      requires Valid()
      modifies this`config, this`sweepPending
      ensures Valid()
      ensures config == Merge(old(config), patch)
      ensures sweepPending
    {
      config := Merge(config, patch);
      sweepPending := true;
    }

    /** The scheduled sweep, run once the update is visible: against the
        configuration current at that moment. */
    method RunScheduledSweep()
      requires Valid()
      modifies this`appointments, this`sweepPending
      ensures Valid() && !sweepPending
      ensures old(sweepPending) ==> appointments == Sweep(config, old(appointments))
      ensures !old(sweepPending) ==> appointments == old(appointments)
    {
      if sweepPending {
        DeleteAppointmentsOutsideSchedule();
        sweepPending := false;
      }
    }

    /** Blocks a date and deletes its appointments. */
    method BlockDate(date: string)
      requires Valid()
      modifies this`config, this`appointments
      ensures Valid()
      ensures config == WithBlocked(old(config), date)
      ensures appointments == WithoutDate(old(appointments), date)
      ensures forall a :: a in appointments ==> a.date != date
    {
      config := WithBlocked(config, date);
      DeleteAppointmentsForDate(date);
    }

    /** Unblocks a date; appointments are untouched. */
    method UnblockDate(date: string)
      requires Valid()
      modifies this`config
      ensures Valid()
      ensures config == WithoutBlocked(old(config), date)
    {
      config := WithoutBlocked(config, date);
    }

    /** Opens a barber session when the password is the secret. */
    method AuthenticateBarber(password: string) returns (ok: bool)
      requires Valid()
      modifies this`isBarberAuthenticated
      ensures Valid()
      ensures ok <==> password == secret
      ensures isBarberAuthenticated == (ok || old(isBarberAuthenticated))
    {
      ok := password == secret;
      if ok {
        isBarberAuthenticated := true;
      }
    }

    method LogoutBarber()
      requires Valid()
      modifies this`isBarberAuthenticated
      ensures Valid()
      ensures !isBarberAuthenticated
    {
      isBarberAuthenticated := false;
    }
  }

  /** A configuration update followed by its scheduled sweep leaves only
      appointments that fit the new configuration, and keeps each of
      those. */
  method UpdateThenSweep(store: BookingStore, patch: ConfigPatch)
    requires store.Valid()
    modifies store`config, store`sweepPending, store`appointments
    ensures store.Valid() && !store.sweepPending
    ensures store.config == Merge(old(store.config), patch)
    ensures store.appointments == SweepAfterUpdate(old(store.config), patch, old(store.appointments))
  {
    store.UpdateBarberConfig(patch);
    store.RunScheduledSweep();
  }
}
