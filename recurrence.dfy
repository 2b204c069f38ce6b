/**
 The recurrence expander of the event store: a base event and the instances its
 recurrence generates. Dates are day numbers; adding days and weeks is arithmetic on
 them, and adding calendar months is the date library's business, so it is a parameter.
 */
module Recurrence {
  import opened Ids

  /**
   A calendar event as the store holds it. `date` is a day number; `time` is the form's
   time-of-day text, which the store never reads but copies into every instance.
   */
  datatype Event = Event(
    id: string,
    title: string,
    date: int,
    time: string,
    description: string,
    recurrence: string,
    color: string,
    isRecurringInstance: bool)

  const Daily := "daily"
  const Weekly := "weekly"
  const Monthly := "monthly"
  const NoRecurrence := "none"

  /** How many instances follow the base: fixed counts, not configurable. */
  const DailyInstances: nat := 30
  const WeeklyInstances: nat := 12
  const MonthlyInstances: nat := 12

  function AddDays(date: int, n: int): int { date + n }

  function AddWeeks(date: int, n: int): int { date + 7 * n }

  function InstanceCount(recurrence: string): nat
  {
    if recurrence == Daily then DailyInstances
    else if recurrence == Weekly then WeeklyInstances
    else if recurrence == Monthly then MonthlyInstances
    else 0
  }

  function InstanceDate(base: Event, i: nat, addMonths: (int, int) -> int): int
  {
    if base.recurrence == Daily then AddDays(base.date, i)
    else if base.recurrence == Weekly then AddWeeks(base.date, i)
    else addMonths(base.date, i)
  }

  /** The `i`-th generated instance: a copy of the base with a derived id and date. */
  function Instance(base: Event, i: nat, addMonths: (int, int) -> int): Event
  {
    base.(id := InstanceId(base.id, i), date := InstanceDate(base, i, addMonths), isRecurringInstance := true)
  }

  /** The family a base event expands to: the base itself, then its instances numbered from 1. */
  function Expansion(base: Event, addMonths: (int, int) -> int): seq<Event>
  {
    [base] + seq(InstanceCount(base.recurrence), k requires 0 <= k => Instance(base, k + 1, addMonths))
  }

  /** Two events agree on everything an instance copies from its base. */
  predicate SameDetails(e: Event, base: Event)
  {
    e.title == base.title && e.time == base.time && e.description == base.description &&
    e.recurrence == base.recurrence && e.color == base.color
  }

  /** Expands a base event by pushing instances onto a list in a counted loop per recurrence kind. */
  method GenerateRecurringEvents(baseEvent: Event, addMonths: (int, int) -> int) returns (recurringEvents: seq<Event>)
    ensures recurringEvents == Expansion(baseEvent, addMonths)
  {
    ghost var expected := Expansion(baseEvent, addMonths);
    recurringEvents := [baseEvent];
    if baseEvent.recurrence == Daily {
      for i := 1 to DailyInstances + 1
        invariant recurringEvents == expected[..i]
      {
        recurringEvents := recurringEvents + [baseEvent.(
          id := InstanceId(baseEvent.id, i),
          date := AddDays(baseEvent.date, i),
          isRecurringInstance := true)];
      }
    } else if baseEvent.recurrence == Weekly {
      for i := 1 to WeeklyInstances + 1
        invariant recurringEvents == expected[..i]
      {
        recurringEvents := recurringEvents + [baseEvent.(
          id := InstanceId(baseEvent.id, i),
          date := AddWeeks(baseEvent.date, i),
          isRecurringInstance := true)];
      }
    } else if baseEvent.recurrence == Monthly {
      for i := 1 to MonthlyInstances + 1
        invariant recurringEvents == expected[..i]
      {
        recurringEvents := recurringEvents + [baseEvent.(
          id := InstanceId(baseEvent.id, i),
          date := addMonths(baseEvent.date, i),
          isRecurringInstance := true)];
      }
    }
    assert recurringEvents == expected[..|expected|];
  }

  /** Any recurrence other than daily, weekly or monthly (`none` among them) expands to the base alone. */
  lemma ExpandOther(base: Event, addMonths: (int, int) -> int)
    requires base.recurrence != Daily && base.recurrence != Weekly && base.recurrence != Monthly
    ensures Expansion(base, addMonths) == [base]
  {
  }

  lemma ExpandDaily(base: Event, addMonths: (int, int) -> int)
    requires base.recurrence == Daily
    ensures var r := Expansion(base, addMonths);
      |r| == 31 && r[0] == base &&
      forall i :: 1 <= i <= 30 ==>
        r[i].id == InstanceId(base.id, i) && r[i].date == base.date + i &&
        r[i].isRecurringInstance && SameDetails(r[i], base)
  {
  }

  lemma ExpandWeekly(base: Event, addMonths: (int, int) -> int)
    requires base.recurrence == Weekly
    ensures var r := Expansion(base, addMonths);
      |r| == 13 && r[0] == base &&
      forall i :: 1 <= i <= 12 ==>
        r[i].id == InstanceId(base.id, i) && r[i].date == base.date + 7 * i &&
        r[i].isRecurringInstance && SameDetails(r[i], base)
  {
  }

  lemma ExpandMonthly(base: Event, addMonths: (int, int) -> int)
    requires base.recurrence == Monthly
    ensures var r := Expansion(base, addMonths);
      |r| == 13 && r[0] == base &&
      forall i :: 1 <= i <= 12 ==>
        r[i].id == InstanceId(base.id, i) && r[i].date == addMonths(base.date, i) &&
        r[i].isRecurringInstance && SameDetails(r[i], base)
  {
  }

  /**
   Every member of an expansion belongs to the base's family by the store's prefix test, only
   the base carries the base id, and no two members share an id.
   */
  lemma ExpansionIsFamily(base: Event, addMonths: (int, int) -> int)
    ensures var r := Expansion(base, addMonths);
      (forall e :: e in r ==> InFamily(e.id, base.id)) &&
      (forall i :: 0 <= i < |r| ==> (r[i].id == base.id <==> i == 0)) &&
      (forall i, j :: 0 <= i < j < |r| ==> r[i].id != r[j].id)
  {
    var r := Expansion(base, addMonths);
    forall i | 1 <= i < |r|
      ensures r[i].id == InstanceId(base.id, i)
      ensures InFamily(r[i].id, base.id) && r[i].id != base.id
    {
      InstanceIdInFamily(base.id, i);
    }
    forall i, j | 1 <= i < j < |r|
      ensures r[i].id != r[j].id
    {
      InstanceIdInjective(base.id, i, j);
    }
  }

  /** When the base id has no separator, splitting any member's id recovers the base id. */
  lemma ExpansionBaseIds(base: Event, addMonths: (int, int) -> int)
    requires Separator !in base.id
    ensures var r := Expansion(base, addMonths);
      forall i :: 0 <= i < |r| ==> BaseId(r[i].id) == base.id
  {
    var r := Expansion(base, addMonths);
    BaseIdOfPlainId(base.id);
    forall i | 1 <= i < |r|
      ensures BaseId(r[i].id) == base.id
    {
      BaseIdOfInstance(base.id, i);
    }
  }

  /** A base that is not itself an instance is the only non-instance member of its expansion. */
  lemma ExpansionHasOneBase(base: Event, addMonths: (int, int) -> int)
    requires !base.isRecurringInstance
    ensures var r := Expansion(base, addMonths);
      forall i :: 0 <= i < |r| ==> (!r[i].isRecurringInstance <==> i == 0)
  {
  }
}
