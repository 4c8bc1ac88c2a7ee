/** The barber's schedule form: toggling working days, and the checks a
    submitted form passes before it reaches the store. */
module ConfigForm {
  import opened Types
  import opened Clock
  import opened Filtering
  import opened Schedule
  import opened Store
  import opened Sorting

  // ---------------------------------------------------------------------
  // Working days
  // ---------------------------------------------------------------------

  /** For single digits, comparing decimal notations (the default order of
      a JavaScript array sort) is comparing the numbers. */
  lemma DefaultOrderOnWeekdays(a: nat, b: nat)
    requires a <= 9 && b <= 9
    ensures DecimalString(a) == [DigitChar(a)] && DecimalString(b) == [DigitChar(b)]
    ensures DigitChar(a) < DigitChar(b) <==> a < b
  {
  }

  function OtherDay(day: int): int -> bool {
    (d: int) => d != day
  }

  /** Clicking a weekday: a selected day is removed and every other day
      stays as it was; an unselected day is added and the list is sorted. */
  function ToggleDay(days: seq<int>, day: int): (r: seq<int>)
    ensures day in days ==> day !in r
    ensures day in days ==> forall d :: d != day ==> multiset(r)[d] == multiset(days)[d]
    ensures day !in days ==> Sorted(r) && multiset(r) == multiset(days) + multiset{day}
  {
    if day in days then
      var kept := Filter(OtherDay(day), days);
      assert forall d :: d != day ==> multiset(kept)[d] == multiset(days)[d] by {
        forall d | d != day ensures multiset(kept)[d] == multiset(days)[d] {
          FilterMultiplicity(OtherDay(day), days, d);
        }
      }
      kept
    else
      SortAscending(days + [day])
  }

  /** Toggling a day twice restores its membership and leaves every other
      day's membership alone. */
  lemma ToggleTwice(days: seq<int>, day: int, other: int)
    requires other != day
    ensures (day in ToggleDay(ToggleDay(days, day), day)) <==> (day in days)
    ensures (other in ToggleDay(ToggleDay(days, day), day)) <==> (other in days)
  {
    var once := ToggleDay(days, day);
    var twice := ToggleDay(once, day);
    assert (other in twice) == (other in multiset(twice));
    assert (other in days) == (other in multiset(days));
    assert (day in twice) == (day in multiset(twice));
    if day in days {
      assert multiset(twice) == multiset(once) + multiset{day};
      assert multiset(twice)[other] == multiset(once)[other] == multiset(days)[other];
    } else {
      assert day in multiset(once);
      assert multiset(twice)[other] == multiset(once)[other] == multiset(days)[other];
    }
  }

  // ---------------------------------------------------------------------
  // Submitting the form
  // ---------------------------------------------------------------------

  /** What the form holds: the schedule fields without the blocked dates. */
  datatype FormConfig = FormConfig(
    startTime: string,
    endTime: string,
    slotDuration: SlotDuration,
    workingDays: seq<int>)

  datatype SubmitOutcome = Saved(patch: ConfigPatch) | Invalid(message: string)

  const NoWorkingDaysMessage: string := "Debes seleccionar al menos un día de trabajo"
  const EndNotAfterStartMessage: string := "La hora de fin debe ser posterior a la hora de inicio"

  /** The partial configuration a saved form sends: its four fields only. */
  function FormPatch(form: FormConfig): (p: ConfigPatch)
    ensures p.blockedDates.None? && p.isConfigured.None?
  {
    ConfigPatch(Some(form.startTime), Some(form.endTime), Some(form.slotDuration), Some(form.workingDays), None, None)
  }

  /** Both times read as minutes and the start is not before the end. A
      time that does not read as minutes compares false, as NaN does. */
  predicate EndNotAfterStart(form: FormConfig) {
    ParseHM(form.startTime).Some? && ParseHM(form.endTime).Some?
    && ParseHM(form.startTime).value >= ParseHM(form.endTime).value
  }

  /** The checks before saving, in order: at least one working day, then
      a start strictly before the end. */
  function ValidateSubmit(form: FormConfig): (r: SubmitOutcome)
    ensures |form.workingDays| == 0 ==> r == Invalid(NoWorkingDaysMessage)
    ensures |form.workingDays| > 0 && EndNotAfterStart(form) ==> r == Invalid(EndNotAfterStartMessage)
    ensures r.Saved? <==> |form.workingDays| > 0 && !EndNotAfterStart(form)
    ensures r.Saved? ==> r.patch == FormPatch(form)
  {
    if |form.workingDays| == 0 then Invalid(NoWorkingDaysMessage)
    else
      var startMinutes := ParseHM(form.startTime);
      var endMinutes := ParseHM(form.endTime);
      if startMinutes.Some? && endMinutes.Some? && startMinutes.value >= endMinutes.value then
        Invalid(EndNotAfterStartMessage)
      else
        Saved(FormPatch(form))
  }

  /** Saving a form whose times are well formed yields a configured
      schedule with working days and a start before its end, hence at least
      one slot, and keeps the blocked dates. */
  lemma SavedFormGivesOpenSchedule(cfg: Config, form: FormConfig)
    requires ValidateSubmit(form).Saved?
    requires IsLabel(form.startTime) && IsLabel(form.endTime)
    ensures var next := Merge(cfg, ValidateSubmit(form).patch);
      && next.isConfigured
      && next.blockedDates == cfg.blockedDates
      && |next.workingDays| > 0
      && ParseHM(next.startTime).value < ParseHM(next.endTime).value
      && |SlotLabels(next.startTime, next.endTime, next.slotDuration)| > 0
  {
    var next := Merge(cfg, ValidateSubmit(form).patch);
    SlotCountBounds(ParseHM(next.startTime).value, ParseHM(next.endTime).value, next.slotDuration);
  }

  /** Handles a submitted form: an invalid one changes nothing in the
      store; a valid one merges its four fields into the configuration. */
  method SubmitConfigForm(store: BookingStore, form: FormConfig) returns (outcome: SubmitOutcome)
    requires store.Valid()
    modifies store`config, store`sweepPending
    ensures store.Valid()
    ensures outcome == ValidateSubmit(form)
    ensures outcome.Invalid? ==> store.config == old(store.config) && store.sweepPending == old(store.sweepPending)
    ensures outcome.Saved? ==> store.config == Merge(old(store.config), FormPatch(form)) && store.sweepPending
    ensures store.config.blockedDates == old(store.config.blockedDates)
  {
    outcome := ValidateSubmit(form);
    if outcome.Saved? {
      store.UpdateBarberConfig(outcome.patch);
    }
  }
}
