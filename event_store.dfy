/**
 The event store: the list of events (bases and materialised instances) and the three
 operations that replace it, keeping recurrence families together. A family is the
 events whose id is a base id or starts with that base id and the separator.
 */
module EventStore {
  import opened Ids
  import opened Seqs
  import opened Recurrence

  datatype Option<T> = None | Some(value: T)

  /** Tests on events, named so that every use of one is the same function. */
  function Member(baseId: string): Event -> bool { (e: Event) => InFamily(e.id, baseId) }

  function NonMember(baseId: string): Event -> bool { (e: Event) => !InFamily(e.id, baseId) }

  function HasId(id: string): Event -> bool { (e: Event) => e.id == id }

  function OtherId(id: string): Event -> bool { (e: Event) => e.id != id }

  ghost predicate UniqueIds(es: seq<Event>)
  {
    forall i, j :: 0 <= i < j < |es| ==> es[i].id != es[j].id
  }

  ghost predicate NoFamilyMember(es: seq<Event>, baseId: string)
  {
    forall e :: e in es ==> !InFamily(e.id, baseId)
  }

  /** The base event an added event becomes: the fresh id from the clock, and not an instance. */
  function NewBase(event: Event, now: nat): Event
  {
    event.(id := NatToString(now), isRecurringInstance := false)
  }

  /** The first event with the given id, if any (`Array.prototype.find`). */
  function FindById(es: seq<Event>, id: string): (r: Option<Event>)
    ensures r.None? <==> forall i :: 0 <= i < |es| ==> es[i].id != id
    ensures r.Some? ==>
      exists i :: 0 <= i < |es| && es[i] == r.value && es[i].id == id &&
        forall j :: 0 <= j < i ==> es[j].id != id
  {
    if es == [] then None
    else if es[0].id == id then Some(es[0])
    else
      var r := FindById(es[1..], id);
      assert r.Some? ==>
        exists i :: 1 <= i < |es| && es[i] == r.value && es[i].id == id && forall j :: 1 <= j < i ==> es[j].id != id;
      r
  }

  /** The stored event with the updated event's id has a different recurrence. */
  predicate RecurrenceChanged(es: seq<Event>, updated: Event)
  {
    match FindById(es, updated.id)
    case Some(existing) => existing.recurrence != updated.recurrence
    case None => false
  }

  /** Every event with the given event's id replaced by it; the list keeps its length and ids. */
  function ReplaceById(es: seq<Event>, updated: Event): (r: seq<Event>)
    ensures |r| == |es|
    ensures forall i :: 0 <= i < |es| ==> r[i].id == es[i].id
    ensures forall i :: 0 <= i < |es| && es[i].id == updated.id ==> r[i] == updated
    ensures forall i :: 0 <= i < |es| && es[i].id != updated.id ==> r[i] == es[i]
  {
    seq(|es|, i requires 0 <= i < |es| => if es[i].id == updated.id then updated else es[i])
  }

  /** The list with the family of `base.id` removed and the expansion of `base` appended. */
  function Regenerate(es: seq<Event>, base: Event, addMonths: (int, int) -> int): seq<Event>
  {
    Filter(es, NonMember(base.id)) + Expansion(base, addMonths)
  }

  lemma {:induction false} FilterKeepsUniqueIds(es: seq<Event>, p: Event -> bool)
    requires UniqueIds(es)
    ensures UniqueIds(Filter(es, p))
    decreases |es|
  {
    if es != [] {
      var tail := es[1..];
      var rest := Filter(tail, p);
      FilterKeepsUniqueIds(tail, p);
      if p(es[0]) {
        forall x, y | x in [es[0]] && y in rest
          ensures x.id != y.id
        {
          assert y in tail;
          var k :| 0 <= k < |tail| && tail[k] == y;
          assert es[k + 1] == y;
        }
        UniqueIdsConcat([es[0]], rest);
        assert Filter(es, p) == [es[0]] + rest;
      } else {
        assert Filter(es, p) == rest;
      }
    }
  }

  lemma UniqueIdsConcat(a: seq<Event>, c: seq<Event>)
    requires UniqueIds(a) && UniqueIds(c)
    requires forall x, y :: x in a && y in c ==> x.id != y.id
    ensures UniqueIds(a + c)
  {
    var ac := a + c;
    forall i, j | 0 <= i < j < |ac|
      ensures ac[i].id != ac[j].id
    {
      if j < |a| {
        assert ac[i] == a[i] && ac[j] == a[j];
      } else if i >= |a| {
        assert ac[i] == c[i - |a|] && ac[j] == c[j - |a|];
      } else {
        assert ac[i] == a[i] && ac[i] in a;
        assert ac[j] == c[j - |a|] && ac[j] in c;
      }
    }
  }

  /**
   After regenerating, the family of `base.id` is exactly the new expansion, the events outside
   it are those outside it before, in the same order, and exactly one event carries the base id.
   */
  lemma RegenerateReplacesFamily(es: seq<Event>, base: Event, addMonths: (int, int) -> int)
    ensures var r := Regenerate(es, base, addMonths);
      Filter(r, Member(base.id)) == Expansion(base, addMonths) &&
      Filter(r, NonMember(base.id)) == Filter(es, NonMember(base.id)) &&
      Filter(r, HasId(base.id)) == [base]
  {
    var b := base.id;
    var kept := Filter(es, NonMember(b));
    var family := Expansion(base, addMonths);
    ExpansionIsFamily(base, addMonths);
    FilterConcat(kept, family, Member(b));
    FilterDropsAll(kept, Member(b));
    FilterKeepsAll(family, Member(b));
    FilterConcat(kept, family, NonMember(b));
    FilterIdempotent(es, NonMember(b));
    FilterDropsAll(family, NonMember(b));
    FilterConcat(kept, family, HasId(b));
    FilterDropsAll(kept, HasId(b));
    assert family == [base] + family[1..];
    FilterConcat([base], family[1..], HasId(b));
    assert forall e :: e in family[1..] ==> e.id != b;
    FilterDropsAll(family[1..], HasId(b));
  }

  lemma RegenerateKeepsIdsUnique(es: seq<Event>, base: Event, addMonths: (int, int) -> int)
    requires UniqueIds(es)
    ensures UniqueIds(Regenerate(es, base, addMonths))
  {
    var kept := Filter(es, NonMember(base.id));
    var family := Expansion(base, addMonths);
    FilterKeepsUniqueIds(es, NonMember(base.id));
    ExpansionIsFamily(base, addMonths);
    UniqueIdsConcat(kept, family);
  }

  /** Adding under an id whose family is absent keeps the ids unique. */
  lemma AddKeepsIdsUnique(es: seq<Event>, event: Event, now: nat, addMonths: (int, int) -> int)
    requires UniqueIds(es) && NoFamilyMember(es, NatToString(now))
    ensures UniqueIds(es + Expansion(NewBase(event, now), addMonths))
  {
    ExpansionIsFamily(NewBase(event, now), addMonths);
    UniqueIdsConcat(es, Expansion(NewBase(event, now), addMonths));
  }

  /** Deleting through any instance of a just-added family removes exactly that family. */
  lemma DeleteThroughInstanceUndoesAdd(es: seq<Event>, event: Event, now: nat, addMonths: (int, int) -> int, k: nat)
    requires NoFamilyMember(es, NatToString(now))
    requires 1 <= k <= InstanceCount(event.recurrence)
    ensures var added := es + Expansion(NewBase(event, now), addMonths);
      var id := added[|es| + k].id;
      Separator in id && Filter(added, NonMember(BaseId(id))) == es
  {
    var base := NewBase(event, now);
    var family := Expansion(base, addMonths);
    var f := NatToString(now);
    assert family[k].id == InstanceId(f, k);
    assert InstanceId(f, k)[|f|] == Separator;
    FreshIdHasNoSeparator(now);
    BaseIdOfInstance(f, k);
    ExpansionIsFamily(base, addMonths);
    FilterConcat(es, family, NonMember(f));
    FilterKeepsAll(es, NonMember(f));
    FilterDropsAll(family, NonMember(f));
  }

  /**
   Deleting by a bare base id removes that one event: the instances added with it stay,
   without their base.
   */
  lemma DeleteBareIdOrphansInstances(es: seq<Event>, event: Event, now: nat, addMonths: (int, int) -> int)
    requires forall e :: e in es ==> e.id != NatToString(now)
    ensures var family := Expansion(NewBase(event, now), addMonths);
      Filter(es + family, OtherId(NatToString(now))) == es + family[1..]
  {
    var base := NewBase(event, now);
    var family := Expansion(base, addMonths);
    var f := NatToString(now);
    ExpansionIsFamily(base, addMonths);
    FilterConcat(es, family, OtherId(f));
    FilterKeepsAll(es, OtherId(f));
    assert family == [base] + family[1..];
    FilterConcat([base], family[1..], OtherId(f));
    assert forall e :: e in family[1..] ==> e.id != f;
    FilterKeepsAll(family[1..], OtherId(f));
  }

  /** Replacing by id twice is replacing once. */
  lemma ReplaceIdempotent(es: seq<Event>, updated: Event)
    ensures ReplaceById(ReplaceById(es, updated), updated) == ReplaceById(es, updated)
  {
  }

  /** Replacing a base by id leaves its instances as they were: their dates do not follow the base. */
  lemma ReplaceLeavesInstances(es: seq<Event>, updated: Event)
    ensures var r := ReplaceById(es, updated);
      forall i :: 0 <= i < |es| && updated.id + [Separator] <= es[i].id ==> r[i] == es[i]
  {
  }

  /** The event list of the calendar, replaced wholesale by each operation. */
  class Store {
    var events: seq<Event>
    const addMonths: (int, int) -> int

    constructor (addMonths: (int, int) -> int)
      ensures events == [] && this.addMonths == addMonths
    {
      events := [];
      this.addMonths := addMonths;
    }

    /** Appends a new event, expanded into its family, under the id the clock reading `now` gives. */
    method AddEvent(event: Event, now: nat)
      modifies this
      ensures events == old(events) + Expansion(NewBase(event, now), addMonths)
      ensures old(UniqueIds(events)) && NoFamilyMember(old(events), NatToString(now)) ==> UniqueIds(events)
    {
      var newEvent := event.(id := NatToString(now), isRecurringInstance := false);
      var eventsToAdd;
      if event.recurrence == NoRecurrence {
        eventsToAdd := [newEvent];
      } else {
        eventsToAdd := GenerateRecurringEvents(newEvent, addMonths);
      }
      if UniqueIds(events) && NoFamilyMember(events, NatToString(now)) {
        AddKeepsIdsUnique(events, event, now, addMonths);
      }
      events := events + eventsToAdd;
    }

    /**
     Editing an instance regenerates its whole family from the edited values under the base id;
     editing a base whose recurrence changed regenerates its family; otherwise the events with
     the edited event's id are replaced in place.
     */
    method UpdateEvent(updatedEvent: Event)
      modifies this
      ensures updatedEvent.isRecurringInstance ==>
        events == Regenerate(old(events), updatedEvent.(id := BaseId(updatedEvent.id), isRecurringInstance := false), addMonths)
      ensures !updatedEvent.isRecurringInstance && RecurrenceChanged(old(events), updatedEvent) ==>
        events == Regenerate(old(events), updatedEvent, addMonths)
      ensures !updatedEvent.isRecurringInstance && !RecurrenceChanged(old(events), updatedEvent) ==>
        events == ReplaceById(old(events), updatedEvent)
      ensures old(UniqueIds(events)) ==> UniqueIds(events)
    {
      if updatedEvent.isRecurringInstance {
        var baseId := BaseId(updatedEvent.id);
        var baseEvent := updatedEvent.(id := baseId, isRecurringInstance := false);
        var family := GenerateRecurringEvents(baseEvent, addMonths);
        if UniqueIds(events) {
          RegenerateKeepsIdsUnique(events, baseEvent, addMonths);
        }
        events := Filter(events, NonMember(baseId)) + family;
      } else {
        var existingEvent := FindById(events, updatedEvent.id);
        if existingEvent.Some? && existingEvent.value.recurrence != updatedEvent.recurrence {
          var family := GenerateRecurringEvents(updatedEvent, addMonths);
          if UniqueIds(events) {
            RegenerateKeepsIdsUnique(events, updatedEvent, addMonths);
          }
          events := Filter(events, NonMember(updatedEvent.id)) + family;
        } else {
          events := ReplaceById(events, updatedEvent);
        }
      }
    }

    /**
     Deleting through an id that contains the separator removes the whole family of the text
     before it; deleting through any other id removes the events with exactly that id.
     */
    method DeleteEvent(id: string)
      modifies this
      ensures Separator in id ==> events == Filter(old(events), NonMember(BaseId(id)))
      ensures Separator !in id ==> events == Filter(old(events), OtherId(id))
      ensures old(UniqueIds(events)) ==> UniqueIds(events)
    {
      if Separator in id {
        var baseId := BaseId(id);
        if UniqueIds(events) {
          FilterKeepsUniqueIds(events, NonMember(baseId));
        }
        events := Filter(events, NonMember(baseId));
      } else {
        if UniqueIds(events) {
          FilterKeepsUniqueIds(events, OtherId(id));
        }
        events := Filter(events, OtherId(id));
      }
    }
  }
}
