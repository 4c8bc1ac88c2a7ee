/** The schedule engine: the grid of slot labels a configuration produces
    for a working day, and the availability view of one date. */
module Schedule {
  import opened Types
  import opened Arith
  import opened Clock
  import opened Calendar
  import opened Filtering

  // ---------------------------------------------------------------------
  // The slot grid
  // ---------------------------------------------------------------------

  /** How many of `start, start + step, start + 2*step, ...` lie below `end`. */
  function SlotCount(start: nat, end: nat, step: nat): nat
    requires step > 0
  {
    if start < end then (end - start - 1) / step + 1 else 0
  }

  /** The k-th step from `start` lies below `end` exactly when k is below the count. */
  lemma SlotCountExact(start: nat, end: nat, step: nat, k: nat)
    requires step > 0
    ensures k < SlotCount(start, end, step) <==> start + k * step < end
  {
    if start < end {
      var q := (end - start - 1) / step;
      assert q * step <= end - start - 1 < q * step + step;
      if k <= q {
        MulMonotone(k, q, step);
      } else {
        MulMonotone(q + 1, k, step);
        assert (q + 1) * step == q * step + step;
      }
    }
  }

  /** The count is exact: the last counted step lies below `end`, the next
      one does not, and nothing is counted when `start >= end`. */
  lemma SlotCountBounds(start: nat, end: nat, step: nat)
    requires step > 0
    ensures var n := SlotCount(start, end, step);
      && (n == 0 <==> start >= end)
      && (n > 0 ==> start + (n - 1) * step < end)
      && start + n * step >= end
  {
    var n := SlotCount(start, end, step);
    SlotCountExact(start, end, step, n);
    if n > 0 {
      SlotCountExact(start, end, step, n - 1);
    }
  }

  /** The labels of the minutes `start, start + step, ...` below `end`. */
  function GridLabels(start: nat, end: nat, step: nat): (labels: seq<string>)
    requires step > 0
  {
    seq(SlotCount(start, end, step), i requires 0 <= i => FormatHM(start + i * step))
  }

  /** A minute value the grid reaches: at or after `start`, below `end`,
      and a whole number of steps from `start`. */
  predicate OnGrid(minutes: nat, start: nat, end: nat, step: nat)
    requires step > 0
  {
    start <= minutes < end && (minutes - start) % step == 0
  }

  /** Below 100 hours every grid label is a zero-padded five-character
      "HH:MM" that reads back as its grid minute, and the labels read as
      strictly increasing minute values. */
  lemma GridLabelsWellFormed(start: nat, end: nat, step: nat)
    requires step > 0 && end <= 100 * 60
    ensures var labels := GridLabels(start, end, step);
      && |labels| == SlotCount(start, end, step)
      && (forall i :: 0 <= i < |labels| ==>
            |labels[i]| == 5 && IsLabel(labels[i]) && ParseHM(labels[i]) == Some(start + i * step))
      && (forall i, j :: 0 <= i < j < |labels| ==> ParseHM(labels[i]).value < ParseHM(labels[j]).value)
  {
    var labels := GridLabels(start, end, step);
    forall i | 0 <= i < |labels|
      ensures |labels[i]| == 5 && IsLabel(labels[i]) && ParseHM(labels[i]) == Some(start + i * step)
    {
      SlotCountExact(start, end, step, i);
      FormatParseRoundTrip(start + i * step);
    }
    forall i, j | 0 <= i < j < |labels|
      ensures ParseHM(labels[i]).value < ParseHM(labels[j]).value
    {
      assert ParseHM(labels[i]) == Some(start + i * step);
      assert ParseHM(labels[j]) == Some(start + j * step);
      MulMonotone(i + 1, j, step);
      assert (i + 1) * step == i * step + step;
    }
  }

  /** The label at grid position `i` is an "HH:MM" label with a minute
      field below 60 whose minute value lies on the grid. */
  lemma GridLabelAt(start: nat, end: nat, step: nat, i: nat)
    requires step > 0 && end <= 100 * 60
    requires i < SlotCount(start, end, step)
    ensures var t := GridLabels(start, end, step)[i];
      && IsLabel(t) && DigitValue(t[3]) * 10 + DigitValue(t[4]) < 60
      && OnGrid(ParseHM(t).value, start, end, step)
  {
    var v := start + i * step;
    SlotCountExact(start, end, step, i);
    FormatParseRoundTrip(v);
    DivModUnique(v - start, step, i, 0);
    assert GridLabels(start, end, step)[i] == FormatHM(v);
  }

  /** Below 100 hours every grid label is an "HH:MM" label with a minute
      field below 60 whose minute value lies on the grid. */
  lemma GridLabelSound(start: nat, end: nat, step: nat, t: string)
    requires step > 0 && end <= 100 * 60
    requires t in GridLabels(start, end, step)
    ensures IsLabel(t) && DigitValue(t[3]) * 10 + DigitValue(t[4]) < 60
    ensures OnGrid(ParseHM(t).value, start, end, step)
  {
    var labels := GridLabels(start, end, step);
    var i :| 0 <= i < |labels| && labels[i] == t;
    GridLabelAt(start, end, step, i);
  }

  /** Conversely, such a label whose minute value lies on the grid is one
      of the grid's labels. */
  lemma GridLabelComplete(start: nat, end: nat, step: nat, t: string)
    requires step > 0
    requires IsLabel(t) && DigitValue(t[3]) * 10 + DigitValue(t[4]) < 60
    requires OnGrid(ParseHM(t).value, start, end, step)
    ensures t in GridLabels(start, end, step)
  {
    var labels := GridLabels(start, end, step);
    var v := ParseHM(t).value;
    var k := (v - start) / step;
    assert v == start + k * step;
    SlotCountExact(start, end, step, k);
    ParseFormatRoundTrip(t);
    assert labels[k] == t;
  }

  /** Below 100 hours a string is a grid label exactly when it is an
      "HH:MM" label with a minute field below 60 whose minute value lies on
      the grid. */
  lemma GridLabelMembership(start: nat, end: nat, step: nat, t: string)
    requires step > 0 && end <= 100 * 60
    ensures t in GridLabels(start, end, step)
        <==> (IsLabel(t) && DigitValue(t[3]) * 10 + DigitValue(t[4]) < 60
              && OnGrid(ParseHM(t).value, start, end, step))
  {
    if t in GridLabels(start, end, step) {
      GridLabelSound(start, end, step, t);
    }
    if IsLabel(t) && DigitValue(t[3]) * 10 + DigitValue(t[4]) < 60
       && OnGrid(ParseHM(t).value, start, end, step) {
      GridLabelComplete(start, end, step, t);
    }
  }

  /** The labels the configured times produce: the grid when both times
      read as minutes, and nothing otherwise (a NaN bound ends the walk
      before it starts). */
  function SlotLabels(startTime: string, endTime: string, step: SlotDuration): (labels: seq<string>)
    ensures ParseHM(startTime).None? || ParseHM(endTime).None? ==> labels == []
  {
    match (ParseHM(startTime), ParseHM(endTime))
    case (Some(s), Some(e)) => GridLabels(s, e, step)
    case _ => []
  }

  /** One hour of half-hour slots from nine o'clock. */
  lemma NineToTenByHalfHours()
    ensures SlotLabels("09:00", "10:00", 30) == ["09:00", "09:30"]
  {
    assert ParseHM("09:00") == Some(540);
    assert ParseHM("10:00") == Some(600);
    assert SlotCount(540, 600, 30) == 2;
    Pad2Digits(9);
    Pad2Digits(0);
    Pad2Digits(30);
    assert FormatHM(540) == "09:00";
    assert FormatHM(570) == "09:30";
  }

  /** Walks the configured hours in steps of `duration`, emitting one
      zero-padded label per step while the current minute is below the
      end minute. */
  method GenerateTimeSlots(startTime: string, endTime: string, duration: SlotDuration)
    returns (slots: seq<string>)
    ensures slots == SlotLabels(startTime, endTime, duration)
  {
    slots := [];
    var start := ParseHM(startTime);
    var end := ParseHM(endTime);
    if start.None? || end.None? {
      return;
    }
    var currentMinutes: nat := start.value;
    var endMinutes := end.value;
    ghost var labels := GridLabels(start.value, endMinutes, duration);
    while currentMinutes < endMinutes
      invariant currentMinutes == start.value + |slots| * duration
      invariant |slots| <= |labels|
      invariant slots == labels[..|slots|]
      decreases endMinutes - currentMinutes
    {
      ghost var k := |slots|;
      SlotCountExact(start.value, endMinutes, duration, k);
      assert labels[k] == FormatHM(currentMinutes);
      assert labels[..k + 1] == labels[..k] + [labels[k]];
      var hours := currentMinutes / 60;
      var minutes := currentMinutes % 60;
      slots := slots + [Pad2(hours) + ":" + Pad2(minutes)];
      currentMinutes := currentMinutes + duration;
      assert (k + 1) * duration == k * duration + duration;
    }
    SlotCountExact(start.value, endMinutes, duration, |slots|);
    assert labels[..|labels|] == labels;
  }

  // ---------------------------------------------------------------------
  // Availability of one date
  // ---------------------------------------------------------------------

  /** The slot an appointment occupies. */
  function SlotKey(a: Appointment): (string, string) {
    (a.date, a.timeSlot)
  }

  /** At most one appointment per (date, time) pair. */
  ghost predicate NoDoubleBooking(appts: seq<Appointment>) {
    DistinctBy(appts, SlotKey)
  }

  /** The first appointment booked at `time` on `date`, if any. */
  function FindBooking(appts: seq<Appointment>, date: string, time: string): (r: Option<Appointment>)
    ensures r.None? <==> forall a :: a in appts ==> SlotKey(a) != (date, time)
    ensures r.Some? ==> r.value in appts && SlotKey(r.value) == (date, time)
    ensures r.Some? ==> exists i :: 0 <= i < |appts| && appts[i] == r.value
                          && forall j :: 0 <= j < i ==> SlotKey(appts[j]) != (date, time)
  {
    if appts == [] then None
    else if SlotKey(appts[0]) == (date, time) then assert appts[0] in appts; Some(appts[0])
    else
      var r := FindBooking(appts[1..], date, time);
      if r.Some? then
        var i :| 0 <= i < |appts[1..]| && appts[1..][i] == r.value
                 && forall j :: 0 <= j < i ==> SlotKey(appts[1..][j]) != (date, time);
        assert appts[i + 1] == r.value;
        assert forall j :: 0 <= j < i + 1 ==> SlotKey(appts[j]) != (date, time) by {
          forall j | 0 <= j < i + 1 ensures SlotKey(appts[j]) != (date, time) {
            if j > 0 { assert appts[j] == appts[1..][j - 1]; }
          }
        }
        r
      else r
  }

  /** Without double booking, the booking found for a slot is the one
      appointment that occupies it. */
  lemma {:induction false} FindBookingUnique(appts: seq<Appointment>, a: Appointment)
    requires NoDoubleBooking(appts) && a in appts
    ensures FindBooking(appts, a.date, a.timeSlot) == Some(a)
  {
    var i :| 0 <= i < |appts| && appts[i] == a;
    if i == 0 {
    } else {
      assert SlotKey(appts[0]) != SlotKey(appts[i]);
      var tail := appts[1..];
      assert tail[i - 1] == a;
      assert NoDoubleBooking(tail) by {
        forall p, q | 0 <= p < q < |tail| ensures SlotKey(tail[p]) != SlotKey(tail[q]) {
          assert tail[p] == appts[p + 1] && tail[q] == appts[q + 1];
        }
      }
      FindBookingUnique(tail, a);
    }
  }

  /** Whether the date falls on one of the configured working days. */
  predicate WorksOn(cfg: Config, date: string) {
    Weekday(date).Some? && Weekday(date).value in cfg.workingDays
  }

  /** Whether the date offers slots at all. */
  predicate IsOpen(cfg: Config, date: string) {
    cfg.isConfigured && WorksOn(cfg, date) && date !in cfg.blockedDates
  }

  function ToTimeSlot(time: string, booking: Option<Appointment>): TimeSlot {
    TimeSlot(time, booking.None?, booking)
  }

  /** Each label paired with the booking that occupies it on `date`, if any. */
  function SlotView(labels: seq<string>, appts: seq<Appointment>, date: string): (r: seq<TimeSlot>)
  {
    seq(|labels|, i requires 0 <= i < |labels| => ToTimeSlot(labels[i], FindBooking(appts, date, labels[i])))
  }

  /** The availability view of a date: nothing when the store is not
      configured, the date is not a working day or the date is blocked;
      otherwise one slot per grid label, in grid order, taken exactly when
      some appointment occupies that (date, time) and then carrying it. */
  function SlotsForDate(cfg: Config, appts: seq<Appointment>, date: string): (r: seq<TimeSlot>)
    ensures !cfg.isConfigured ==> r == []
    ensures !WorksOn(cfg, date) ==> r == []
    ensures date in cfg.blockedDates ==> r == []
    ensures IsOpen(cfg, date) ==> |r| == |SlotLabels(cfg.startTime, cfg.endTime, cfg.slotDuration)|
    ensures forall i :: 0 <= i < |r| ==>
      && r[i].time == SlotLabels(cfg.startTime, cfg.endTime, cfg.slotDuration)[i]
      && (r[i].available <==> r[i].appointment.None?)
      && (r[i].available <==> forall a :: a in appts ==> SlotKey(a) != (date, r[i].time))
      && (r[i].appointment.Some? ==>
            r[i].appointment.value in appts && SlotKey(r[i].appointment.value) == (date, r[i].time))
  {
    if !cfg.isConfigured then []
    else if !WorksOn(cfg, date) then []
    else if date in cfg.blockedDates then []
    else
      SlotView(SlotLabels(cfg.startTime, cfg.endTime, cfg.slotDuration), appts, date)
  }

  /** Without double booking, an appointment at a grid label of an open
      date shows up in that label's slot, which is then taken. */
  lemma BookingShowsInSlot(cfg: Config, appts: seq<Appointment>, a: Appointment, i: nat)
    requires NoDoubleBooking(appts) && a in appts
    requires IsOpen(cfg, a.date)
    requires i < |SlotLabels(cfg.startTime, cfg.endTime, cfg.slotDuration)|
    requires SlotLabels(cfg.startTime, cfg.endTime, cfg.slotDuration)[i] == a.timeSlot
    ensures SlotsForDate(cfg, appts, a.date)[i] == TimeSlot(a.timeSlot, false, Some(a))
  {
    FindBookingUnique(appts, a);
  }
}
