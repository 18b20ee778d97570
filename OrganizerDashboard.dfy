/** The organizer's dashboard: the list of the organizer's events, a quick creation form,
    deletion, and the next upcoming occurrence shown for each event. */
module OrganizerDashboard {
  import opened Common
  import opened Civil
  import opened OrganizerService

  /** An occurrence of a listed event: its start as the server writes it. */
  datatype ListedOcc = ListedOcc(debut: string)

  /** An event of the list, with the members the page reads. */
  datatype ListedEvent = ListedEvent(id: int, titre: string, occurrences: Option<seq<ListedOcc>>)

  /** The quick creation form. Its type, place, dates and times are not members of the
      service's payload. */
  datatype QuickEvent = QuickEvent(
    titre: string, description: string, kind: string, lieu: string, commune: string,
    startDate: string, startTime: string, endDate: string, endTime: string, allDay: bool)

  const BlankQuickEvent: QuickEvent := QuickEvent("", "", "", "", "", "", "", "", "", false)

  const LoadFailed: string := "Erreur lors du chargement"
  const CreateFailed: string := "Erreur lors de la cr\U{00E9}ation"
  const DeleteFailed: string := "Erreur lors de la suppression"

  // ---------------------------------------------------------------------------
  // The next occurrence

  /** The time value of a start, for starts that parse. */
  function StartMs(parse: Parser, o: ListedOcc): int {
    if parse(o.debut).Some? then parse(o.debut).value.ms else 0
  }

  /** `new Date(o.debut) >= now`: false for a start that does not parse. */
  predicate Upcoming(parse: Parser, now: int, o: ListedOcc) {
    parse(o.debut).Some? && parse(o.debut).value.ms >= now
  }

  /** The comparator `+new Date(a.debut) - +new Date(b.debut)` reports `a` first. */
  predicate EarlierStart(parse: Parser, a: ListedOcc, b: ListedOcc) {
    StartMs(parse, a) < StartMs(parse, b)
  }

  /** `nextOccurrence(ev)`: the upcoming occurrences sorted by start, and the first one's
      start text; null when nothing is upcoming. `now` is the time value of `new Date()`. */
  function NextOccurrence(ev: ListedEvent, parse: Parser, now: int): Option<string> {
    var occs := Filter(ev.occurrences.GetOr([]), o => Upcoming(parse, now, o));
    if |occs| == 0 then None
    else Some(SortBy(occs, (a, b) => EarlierStart(parse, a, b))[0].debut)
  }

  /** In a list where no element is less than its predecessor, none is less than the head. */
  lemma {:induction false} OrderedHead(s: seq<ListedOcc>, parse: Parser, k: nat)
    requires Ordered(s, (a, b) => EarlierStart(parse, a, b)) && k < |s|
    ensures StartMs(parse, s[0]) <= StartMs(parse, s[k])
  {
    if k > 0 {
      OrderedHead(s, parse, k - 1);
      assert !EarlierStart(parse, s[k], s[k - 1]);
    }
  }

  /** Null exactly when no occurrence starts at or after now. */
  lemma NextOccurrenceNone(ev: ListedEvent, parse: Parser, now: int)
    ensures var occs := ev.occurrences.GetOr([]);
      NextOccurrence(ev, parse, now).None? <==> forall i :: 0 <= i < |occs| ==> !Upcoming(parse, now, occs[i])
  {
    var all := ev.occurrences.GetOr([]);
    var p := o => Upcoming(parse, now, o);
    FilterExactly(all, p);
    var occs := Filter(all, p);
    if |occs| > 0 {
      assert occs[0] in occs;
    } else {
      assert forall i :: 0 <= i < |all| ==> all[i] in all;
    }
  }

  /** Otherwise it is the start of an upcoming occurrence that no other upcoming
      occurrence precedes. */
  lemma NextOccurrenceLeast(ev: ListedEvent, parse: Parser, now: int)
    requires NextOccurrence(ev, parse, now).Some?
    ensures var occs, r := ev.occurrences.GetOr([]), NextOccurrence(ev, parse, now).value;
      exists i :: 0 <= i < |occs| && occs[i].debut == r && Upcoming(parse, now, occs[i])
    ensures var occs, r := ev.occurrences.GetOr([]), NextOccurrence(ev, parse, now).value;
      forall j :: 0 <= j < |occs| && Upcoming(parse, now, occs[j]) ==> parse(r).value.ms <= parse(occs[j].debut).value.ms
  {
    var all := ev.occurrences.GetOr([]);
    var p := o => Upcoming(parse, now, o);
    var less := (a, b) => EarlierStart(parse, a, b);
    var occs := Filter(all, p);
    FilterExactly(all, p);
    var sorted := SortBy(occs, less);
    assert sorted[0] in multiset(sorted);
    var head := sorted[0];
    assert head in occs;
    var i :| 0 <= i < |all| && all[i] == head;
    SortByOrdered(occs, less);
    forall j | 0 <= j < |all| && Upcoming(parse, now, all[j])
      ensures parse(head.debut).value.ms <= parse(all[j].debut).value.ms
    {
      assert all[j] in occs;
      assert all[j] in multiset(sorted);
      var k :| 0 <= k < |sorted| && sorted[k] == all[j];
      OrderedHead(sorted, parse, k);
    }
  }

  /** Of several upcoming occurrences with the least start, the stable sort keeps the first
      in list order: the result is the start of an upcoming occurrence that every upcoming
      one before it in the list starts after, and no upcoming one after it starts before. */
  lemma NextOccurrenceFirst(ev: ListedEvent, parse: Parser, now: int)
    requires NextOccurrence(ev, parse, now).Some?
    ensures var occs, r := ev.occurrences.GetOr([]), NextOccurrence(ev, parse, now).value;
      exists i :: 0 <= i < |occs| && occs[i].debut == r && Upcoming(parse, now, occs[i])
        && (forall j :: 0 <= j < i && Upcoming(parse, now, occs[j]) ==> StartMs(parse, occs[j]) > StartMs(parse, occs[i]))
        && (forall j :: i < j < |occs| && Upcoming(parse, now, occs[j]) ==> StartMs(parse, occs[j]) >= StartMs(parse, occs[i]))
  {
    var all := ev.occurrences.GetOr([]);
    var p := o => Upcoming(parse, now, o);
    var less := (a, b) => EarlierStart(parse, a, b);
    var key := o => StartMs(parse, o);
    var i := SortByFilterHead(all, p, less, key);
    assert FirstLeast(all, p, key, i);
    assert all[i].debut == NextOccurrence(ev, parse, now).value;
    assert forall j :: 0 <= j < i && Upcoming(parse, now, all[j]) ==> StartMs(parse, all[j]) > StartMs(parse, all[i]);
    assert forall j :: i < j < |all| && Upcoming(parse, now, all[j]) ==> StartMs(parse, all[j]) >= StartMs(parse, all[i]);
  }

  /** An event without occurrences has no next one. */
  lemma NoOccurrencesNoNext(ev: ListedEvent, parse: Parser, now: int)
    requires ev.occurrences.None? || ev.occurrences == Some([])
    ensures NextOccurrence(ev, parse, now).None?
  {
  }

  // ---------------------------------------------------------------------------
  // Creation

  /** The form handed to `createEvent` as it is: the service keeps the members its payload
      knows and drops the rest. */
  function QuickPayload(q: QuickEvent): EventPayload {
    EventPayload(q.titre, Some(q.description), None, None, None, None, None, None, None,
      None, None, Some(q.commune), None, None, None, None)
  }

  /** The quick form's body carries its title, description and commune, but no occurrence:
      the start date the guard requires is not sent. */
  lemma QuickBody(q: QuickEvent)
    ensures var b := CreateBody(QuickPayload(q));
      b.titre == q.titre && b.description == q.description && b.commune == Some(q.commune)
      && b.occurrences == [] && b.imageUrl.None? && b.keywords == []
  {
    BodyDefaults(QuickPayload(q));
  }

  /** The id test of the delete callback, `e.id !== id`. */
  function NotId(id: int): ListedEvent -> bool {
    (e: ListedEvent) => e.id != id
  }

  class OrganizerDashboardComponent {
    var events: seq<ListedEvent>
    var loading: bool
    var error: string
    var newEvent: QuickEvent

    constructor ()
      ensures events == [] && !loading && error == "" && newEvent == BlankQuickEvent
    {
      events := [];
      loading := false;
      error := "";
      newEvent := BlankQuickEvent;
    }

    /** `loadEvents`, called by `ngOnInit`. */
    method LoadEvents() returns (call: Call)
      modifies this`loading
      ensures loading && call == MyEvents()
    {
      loading := true;
      call := MyEvents();
    }

    method OnEvents(data: seq<ListedEvent>)
      modifies this`events, this`loading
      ensures events == data && !loading
    {
      events := data;
      loading := false;
    }

    method OnEventsError()
      modifies this`error, this`loading
      ensures error == LoadFailed && !loading
    {
      error := LoadFailed;
      loading := false;
    }

    /** `createEvent`: nothing is sent unless the title, the type and the start date are
        all filled in. */
    method CreateEvent() returns (call: Option<Call>)
      ensures call.Some? <==> newEvent.titre != "" && newEvent.kind != "" && newEvent.startDate != ""
      ensures call.Some? ==> call.value == OrganizerService.CreateEvent(QuickPayload(newEvent))
    {
      if newEvent.titre == "" || newEvent.kind == "" || newEvent.startDate == "" {
        return None;
      }
      call := Some(OrganizerService.CreateEvent(QuickPayload(newEvent)));
    }

    /** The created event goes first in the list and the form is blanked. */
    method OnCreated(ev: ListedEvent)
      modifies this`events, this`newEvent
      ensures events == [ev] + old(events) && newEvent == BlankQuickEvent
    {
      events := [ev] + events;
      newEvent := BlankQuickEvent;
    }

    method OnCreateError()
      modifies this`error
      ensures error == CreateFailed
    {
      error := CreateFailed;
    }

    /** `deleteEvent(id)`: the request is sent only when the user confirms. */
    method DeleteEvent(id: int, confirmed: bool) returns (call: Option<Call>)
      ensures call.Some? <==> confirmed
      ensures call.Some? ==> call.value == OrganizerService.DeleteEvent(id)
    {
      if !confirmed {
        return None;
      }
      call := Some(OrganizerService.DeleteEvent(id));
    }

    /** A completed delete drops exactly the events with that id and keeps the others in
        their order. */
    method OnDeleted(id: int)
      modifies this`events
      ensures events == Filter(old(events), NotId(id))
      ensures forall e :: e in events <==> e in old(events) && e.id != id
    {
      FilterExactly(events, NotId(id));
      events := Filter(events, NotId(id));
    }

    method OnDeleteError()
      modifies this`error
      ensures error == DeleteFailed
    {
      error := DeleteFailed;
    }
  }
}
