/** The records shared by the schedule engine, the booking store and the
    configuration form: an appointment, the barber's schedule configuration,
    a derived time slot, and the partial configuration a caller merges in. */
module Types {

  datatype Option<+T> = None | Some(value: T) {
    function GetOr(default: T): T {
      match this
      case Some(v) => v
      case None => default
    }
  }

  /** Slot lengths the configuration admits: 30 or 60 minutes. */
  type SlotDuration = d: nat | d == 30 || d == 60 witness 30

  /** A booked appointment. `date` is an ISO "YYYY-MM-DD" string and
      `timeSlot` an "HH:MM" label; `id` is an opaque token that only has
      to be unique. */
  datatype Appointment = Appointment(
    id: nat,
    date: string,
    timeSlot: string,
    clientName: string,
    clientPhone: string,
    clientEmail: string)

  /** What a client submits: an appointment without its id. */
  datatype BookingRequest = BookingRequest(
    date: string,
    timeSlot: string,
    clientName: string,
    clientPhone: string,
    clientEmail: string)

  function WithId(req: BookingRequest, id: nat): (a: Appointment)
    ensures a.id == id && a.date == req.date && a.timeSlot == req.timeSlot
    ensures a.clientName == req.clientName && a.clientPhone == req.clientPhone
    ensures a.clientEmail == req.clientEmail
  {
    Appointment(id, req.date, req.timeSlot, req.clientName, req.clientPhone, req.clientEmail)
  }

  /** The barber's schedule. `workingDays` holds weekday indices
      (0 = Sunday .. 6 = Saturday); `blockedDates` holds ISO dates and may
      contain repetitions. */
  datatype Config = Config(
    startTime: string,
    endTime: string,
    slotDuration: SlotDuration,
    workingDays: seq<int>,
    blockedDates: seq<string>,
    isConfigured: bool)

  /** A configuration with some fields left out; `None` keeps the current value. */
  datatype ConfigPatch = ConfigPatch(
    startTime: Option<string>,
    endTime: Option<string>,
    slotDuration: Option<SlotDuration>,
    workingDays: Option<seq<int>>,
    blockedDates: Option<seq<string>>,
    isConfigured: Option<bool>)

  /** One entry of the availability view of a date. */
  datatype TimeSlot = TimeSlot(time: string, available: bool, appointment: Option<Appointment>)

  /** The configuration used when nothing usable was persisted:
      09:00 to 18:00 in 30-minute slots, Monday to Saturday, nothing
      blocked, not yet configured by the barber. */
  const DefaultConfig: Config :=
    Config("09:00", "18:00", 30, [1, 2, 3, 4, 5, 6], [], false)
}
