/**
 The date utilities: the one-hour conflict test and a second recurrence expander that
 works on form events (a day and a minute of the day) and numbers its instances with `-`.
 Times are minutes; a day is 1440 of them. Setting a later month on a date is the host
 date type's business, so it is a parameter.
 */
module DateUtils {
  import opened Ids

  /** An event as the form edits it: `date` is a day number, `time` the minute of that day. */
  datatype FormEvent = FormEvent(
    id: string,
    title: string,
    date: int,
    time: int,
    description: string,
    recurrence: string,
    color: string)

  const MinutesPerDay: int := 1440

  /** Every event is taken to last one hour. */
  const DurationMinutes: int := 60

  /** The minute at which an event starts (its date and time read together). */
  function StartMinute(e: FormEvent): int
  {
    e.date * MinutesPerDay + e.time
  }

  predicate IsAfter(a: int, b: int) { a > b }

  predicate IsBefore(a: int, b: int) { a < b }

  function Abs(x: int): nat { if x < 0 then -x else x }

  /** The three strict comparisons the conflict test makes between a new event and a stored one. */
  predicate Overlaps(newStart: int, eventStart: int)
  {
    var newEnd := newStart + DurationMinutes;
    var eventEnd := eventStart + DurationMinutes;
    (IsAfter(newStart, eventStart) && IsBefore(newStart, eventEnd)) ||
    (IsAfter(newEnd, eventStart) && IsBefore(newEnd, eventEnd)) ||
    (IsBefore(newStart, eventStart) && IsAfter(newEnd, eventEnd))
  }

  /**
   Whether some stored event conflicts with the new one, as written: the starts differ by more
   than nothing and less than an hour. Identical starts are not reported.
   */
  function CheckEventConflict(events: seq<FormEvent>, newEvent: FormEvent): (r: bool)
    ensures r <==>
      exists i :: 0 <= i < |events| && 0 < Abs(StartMinute(newEvent) - StartMinute(events[i])) < DurationMinutes
  {
    if events == [] then false
    else Overlaps(StartMinute(newEvent), StartMinute(events[0])) || CheckEventConflict(events[1..], newEvent)
  }

  /** With equal durations the comparisons reduce to a distance strictly between 0 and 60 minutes. */
  lemma OverlapsIsNearStart(newStart: int, eventStart: int)
    ensures Overlaps(newStart, eventStart) <==> 0 < Abs(newStart - eventStart) < DurationMinutes
  {
  }

  /** The containment comparison (the new hour strictly around the stored one) never holds. */
  lemma ContainmentNeverHolds(newStart: int, eventStart: int)
    ensures !(IsBefore(newStart, eventStart) && IsAfter(newStart + DurationMinutes, eventStart + DurationMinutes))
  {
  }

  lemma ConflictSymmetric(a: FormEvent, b: FormEvent)
    ensures CheckEventConflict([a], b) == CheckEventConflict([b], a)
  {
  }

  lemma NoConflictWithNoEvents(newEvent: FormEvent)
    ensures !CheckEventConflict([], newEvent)
  {
  }

  /** Events an hour apart only touch: not a conflict. */
  lemma TouchingIsNoConflict(a: FormEvent, b: FormEvent)
    requires StartMinute(b) == StartMinute(a) + DurationMinutes
    ensures !CheckEventConflict([a], b) && !CheckEventConflict([b], a)
  {
  }

  /** Two events at the same start are not reported as conflicting by the test as written. */
  lemma SameStartIsNoConflict(a: FormEvent, b: FormEvent)
    requires StartMinute(a) == StartMinute(b)
    ensures !CheckEventConflict([a], b)
  {
  }

  /** One-hour slots starting at `newStart` and `eventStart` share some minute. */
  predicate SlotsIntersect(newStart: int, eventStart: int)
  {
    newStart < eventStart + DurationMinutes && eventStart < newStart + DurationMinutes
  }

  /** The overlap test the three comparisons aim at: the two one-hour slots share some time. */
  function CheckEventConflictIntended(events: seq<FormEvent>, newEvent: FormEvent): (r: bool)
    ensures r <==>
      exists i :: 0 <= i < |events| && Abs(StartMinute(newEvent) - StartMinute(events[i])) < DurationMinutes
  {
    if events == [] then false
    else SlotsIntersect(StartMinute(newEvent), StartMinute(events[0])) || CheckEventConflictIntended(events[1..], newEvent)
  }

  /** The intended test reports identical starts, and still not slots that only touch. */
  lemma IntendedSameStartConflicts(a: FormEvent, b: FormEvent)
    ensures StartMinute(a) == StartMinute(b) ==> CheckEventConflictIntended([a], b)
    ensures StartMinute(b) == StartMinute(a) + DurationMinutes ==> !CheckEventConflictIntended([a], b)
  {
  }

  /** The intended test differs from the written one exactly by the events that start at the same minute. */
  lemma {:induction false} IntendedAddsSameStarts(events: seq<FormEvent>, newEvent: FormEvent)
    ensures CheckEventConflictIntended(events, newEvent) <==>
      CheckEventConflict(events, newEvent) ||
      exists i :: 0 <= i < |events| && StartMinute(events[i]) == StartMinute(newEvent)
    decreases |events|
  {
    if events != [] {
      IntendedAddsSameStarts(events[1..], newEvent);
      assert forall i :: 1 <= i < |events| ==> events[i] == events[1..][i - 1];
    }
  }

  const VariantDailyTotal: nat := 30
  const VariantWeeklyTotal: nat := 12
  const VariantMonthlyTotal: nat := 12

  /** How many instances follow the event: one fewer than each loop bound, since the loops stop below it. */
  function VariantInstanceCount(recurrence: string): nat
  {
    if recurrence == "daily" then VariantDailyTotal - 1
    else if recurrence == "weekly" then VariantWeeklyTotal - 1
    else if recurrence == "monthly" then VariantMonthlyTotal - 1
    else 0
  }

  function VariantInstanceId(id: string, i: nat): string
  {
    id + "-" + NatToString(i)
  }

  function VariantInstanceDate(event: FormEvent, i: nat, setMonth: (int, int) -> int): int
  {
    if event.recurrence == "daily" then event.date + i
    else if event.recurrence == "weekly" then event.date + i * 7
    else setMonth(event.date, i)
  }

  /** The event, then its instances numbered from 1, each a copy with a derived id and day. */
  function VariantExpansion(event: FormEvent, setMonth: (int, int) -> int): seq<FormEvent>
  {
    [event] + seq(VariantInstanceCount(event.recurrence), k requires 0 <= k =>
      event.(id := VariantInstanceId(event.id, k + 1), date := VariantInstanceDate(event, k + 1, setMonth)))
  }

  /** Expands an event by pushing copies onto a list in a counted loop per recurrence kind. */
  method GenerateRecurringEvents(event: FormEvent, setMonth: (int, int) -> int) returns (events: seq<FormEvent>)
    ensures events == VariantExpansion(event, setMonth)
  {
    if event.recurrence == "none" {
      return [event];
    }
    ghost var expected := VariantExpansion(event, setMonth);
    events := [event];
    if event.recurrence == "daily" {
      for i := 1 to VariantDailyTotal
        invariant events == expected[..i]
      {
        events := events + [event.(id := VariantInstanceId(event.id, i), date := event.date + i)];
      }
    } else if event.recurrence == "weekly" {
      for i := 1 to VariantWeeklyTotal
        invariant events == expected[..i]
      {
        events := events + [event.(id := VariantInstanceId(event.id, i), date := event.date + i * 7)];
      }
    } else if event.recurrence == "monthly" {
      for i := 1 to VariantMonthlyTotal
        invariant events == expected[..i]
      {
        events := events + [event.(id := VariantInstanceId(event.id, i), date := setMonth(event.date, i))];
      }
    }
    assert events == expected[..|expected|];
  }

  /** `none` and any unrecognised recurrence give the event alone; the event always comes first, unchanged. */
  lemma VariantOther(event: FormEvent, setMonth: (int, int) -> int)
    ensures VariantExpansion(event, setMonth)[0] == event
    ensures event.recurrence != "daily" && event.recurrence != "weekly" && event.recurrence != "monthly" ==>
      VariantExpansion(event, setMonth) == [event]
  {
  }

  lemma VariantDaily(event: FormEvent, setMonth: (int, int) -> int)
    requires event.recurrence == "daily"
    ensures var r := VariantExpansion(event, setMonth);
      |r| == 30 && forall i :: 1 <= i <= 29 ==>
        r[i].id == VariantInstanceId(event.id, i) && r[i].date == event.date + i &&
        r[i] == event.(id := r[i].id, date := r[i].date)
  {
  }

  lemma VariantWeekly(event: FormEvent, setMonth: (int, int) -> int)
    requires event.recurrence == "weekly"
    ensures var r := VariantExpansion(event, setMonth);
      |r| == 12 && forall i :: 1 <= i <= 11 ==>
        r[i].id == VariantInstanceId(event.id, i) && r[i].date == event.date + 7 * i &&
        r[i] == event.(id := r[i].id, date := r[i].date)
  {
  }

  lemma VariantMonthly(event: FormEvent, setMonth: (int, int) -> int)
    requires event.recurrence == "monthly"
    ensures var r := VariantExpansion(event, setMonth);
      |r| == 12 && forall i :: 1 <= i <= 11 ==>
        r[i].id == VariantInstanceId(event.id, i) && r[i].date == setMonth(event.date, i) &&
        r[i] == event.(id := r[i].id, date := r[i].date)
  {
  }

  /** The ids of a variant expansion are pairwise distinct. */
  lemma VariantIdsDistinct(event: FormEvent, setMonth: (int, int) -> int)
    ensures var r := VariantExpansion(event, setMonth);
      forall i, j :: 0 <= i < j < |r| ==> r[i].id != r[j].id
  {
    var r := VariantExpansion(event, setMonth);
    var n := |event.id| + 1;
    forall i, j | 0 <= i < j < |r|
      ensures r[i].id != r[j].id
    {
      assert r[j].id == VariantInstanceId(event.id, j);
      if i == 0 {
        assert |r[j].id| > |r[i].id|;
      } else {
        assert r[i].id == VariantInstanceId(event.id, i);
        assert r[i].id[n..] == NatToString(i);
        assert r[j].id[n..] == NatToString(j);
        NatToStringInjective(i, j);
      }
    }
  }
}
