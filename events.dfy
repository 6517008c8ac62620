/** The health event board of `HealthEvents.jsx`: a table of events the
    user can register for or cancel, each classified as full, registered or
    available, with the totals shown beneath. */
module EventBoard {
  import opened Js

  /** An event (`category` is the component's `type`). */
  datatype Event = Event(
    id: int, title: string, date: string, time: string, location: string,
    organizer: string, category: string,
    participants: int, maxParticipants: int, isRegistered: bool)

  /** The events the board starts with. */
  const InitialEvents: seq<Event> := [
    Event(1, "বিনামূল্যে ডায়াবেটিস স্ক্রিনিং", "২০২৪-১২-১৫", "সকাল ৯টা - দুপুর ১টা",
      "কমিউনিটি ক্লিনিক, চর কলাপাড়া", "স্বাস্থ্য বিভাগ", "স্ক্রিনিং", 24, 50, false),
    Event(2, "রক্তদান শিবির", "২০২৪-১২-২০", "সকাল ১০টা - বিকেল ৪টা",
      "উপজেলা স্বাস্থ্য কমপ্লেক্স", "সন্ধানী", "রক্তদান", 15, 30, false),
    Event(3, "মানসিক স্বাস্থ্য সচেতনতা কর্মশালা", "২০২৪-১২-২৫", "বিকেল ৩টা - ৫টা",
      "স্থানীয় উচ্চ বিদ্যালয়", "ব্র্যাক", "কর্মশালা", 42, 60, true)
  ]

  /** The per-event update of `handleRegister`: registered, one more participant. */
  function Registered(e: Event): Event
  {
    e.(isRegistered := true, participants := e.participants + 1)
  }

  /** The per-event update of `handleCancelRegistration`: not registered, one
      participant fewer. */
  function Unregistered(e: Event): Event
  {
    e.(isRegistered := false, participants := e.participants - 1)
  }

  /** `handleRegister`'s new list: the events with the id registered, the
      others as they were. */
  function RegisterIn(events: seq<Event>, id: int): (r: seq<Event>)
    ensures |r| == |events|
    ensures forall i :: 0 <= i < |events| && events[i].id != id ==> r[i] == events[i]
    ensures forall i :: 0 <= i < |events| && events[i].id == id ==>
      r[i].isRegistered && r[i].participants == events[i].participants + 1
      && r[i].(isRegistered := events[i].isRegistered, participants := events[i].participants) == events[i]
  {
    Map((e: Event) => if e.id == id then Registered(e) else e, events)
  }

  /** `handleCancelRegistration`'s new list: the events with the id
      unregistered, the others as they were. */
  function CancelIn(events: seq<Event>, id: int): (r: seq<Event>)
    ensures |r| == |events|
    ensures forall i :: 0 <= i < |events| && events[i].id != id ==> r[i] == events[i]
    ensures forall i :: 0 <= i < |events| && events[i].id == id ==>
      !r[i].isRegistered && r[i].participants == events[i].participants - 1
      && r[i].(isRegistered := events[i].isRegistered, participants := events[i].participants) == events[i]
  {
    Map((e: Event) => if e.id == id then Unregistered(e) else e, events)
  }

  /** Cancelling right after registering restores the list exactly when no
      event with the id was registered before. */
  lemma CancelUndoesRegister(events: seq<Event>, id: int)
    ensures CancelIn(RegisterIn(events, id), id) == events <==>
      forall i :: 0 <= i < |events| && events[i].id == id ==> !events[i].isRegistered
  {
    var r := CancelIn(RegisterIn(events, id), id);
    if forall i :: 0 <= i < |events| && events[i].id == id ==> !events[i].isRegistered {
      assert forall i :: 0 <= i < |events| ==> r[i] == events[i];
    } else {
      var i :| 0 <= i < |events| && events[i].id == id && events[i].isRegistered;
      assert r[i] != events[i];
    }
  }

  /** Registering right after cancelling restores the list exactly when every
      event with the id was registered before. */
  lemma RegisterUndoesCancel(events: seq<Event>, id: int)
    ensures RegisterIn(CancelIn(events, id), id) == events <==>
      forall i :: 0 <= i < |events| && events[i].id == id ==> events[i].isRegistered
  {
    var r := RegisterIn(CancelIn(events, id), id);
    if forall i :: 0 <= i < |events| && events[i].id == id ==> events[i].isRegistered {
      assert forall i :: 0 <= i < |events| ==> r[i] == events[i];
    } else {
      var i :| 0 <= i < |events| && events[i].id == id && !events[i].isRegistered;
      assert r[i] != events[i];
    }
  }

  /** The three statuses `getEventStatus` tells apart. */
  datatype Status = Full | RegisteredStatus | Available

  /** `getEventStatus`: full first, then registered, then available. */
  function StatusOf(e: Event): (s: Status)
    ensures s == Full <==> e.participants >= e.maxParticipants
    ensures s == RegisteredStatus <==> e.participants < e.maxParticipants && e.isRegistered
    ensures s == Available <==> e.participants < e.maxParticipants && !e.isRegistered
  {
    if e.participants >= e.maxParticipants then Full
    else if e.isRegistered then RegisteredStatus
    else Available
  }

  /** The badge text of each status. */
  function StatusText(s: Status): string
  {
    match s
    case Full => "সম্পূর্ণ"
    case RegisteredStatus => "নিবন্ধিত"
    case Available => "উপলব্ধ"
  }

  /** The register button is offered only for an event that is neither
      registered nor full. */
  predicate CanRegister(e: Event)
  {
    !e.isRegistered && e.participants < e.maxParticipants
  }

  /** The cancel button is offered only for a registered event. */
  predicate CanCancel(e: Event)
  {
    e.isRegistered
  }

  /** A sound event: a participant count between 0 and the maximum, and at
      least one participant (the user) when registered. */
  predicate Sound(e: Event)
  {
    0 <= e.participants <= e.maxParticipants && (e.isRegistered ==> e.participants >= 1)
  }

  /** The initial events are sound. */
  lemma InitialEventsSound()
    ensures forall i :: 0 <= i < |InitialEvents| ==> Sound(InitialEvents[i])
  {
  }

  /** Registering through the offered button keeps every event sound, so no
      event ever exceeds its maximum. */
  lemma RegisterKeepsSound(events: seq<Event>, id: int)
    requires forall i :: 0 <= i < |events| ==> Sound(events[i])
    requires forall i :: 0 <= i < |events| && events[i].id == id ==> CanRegister(events[i])
    ensures forall i :: 0 <= i < |RegisterIn(events, id)| ==> Sound(RegisterIn(events, id)[i])
  {
  }

  /** Cancelling through the offered button keeps every event sound. */
  lemma CancelKeepsSound(events: seq<Event>, id: int)
    requires forall i :: 0 <= i < |events| ==> Sound(events[i])
    requires forall i :: 0 <= i < |events| && events[i].id == id ==> CanCancel(events[i])
    ensures forall i :: 0 <= i < |CancelIn(events, id)| ==> Sound(CancelIn(events, id)[i])
  {
  }

  /** `events.filter(e => e.isRegistered).length`. */
  function RegisteredCount(events: seq<Event>): (n: nat)
    ensures n <= |events|
    ensures n == 0 <==> forall i :: 0 <= i < |events| ==> !events[i].isRegistered
  {
    var registered := (e: Event) => e.isRegistered;
    if forall i :: 0 <= i < |events| ==> !events[i].isRegistered then
      FilterNone(registered, events);
      |Filter(registered, events)|
    else |Filter(registered, events)|
  }

  /** `events.reduce((sum, event) => sum + event.participants, 0)`. */
  function TotalParticipants(events: seq<Event>): int
  {
    if events == [] then 0
    else TotalParticipants(events[..|events| - 1]) + events[|events| - 1].participants
  }

  /** How many events carry the id. */
  function CountId(events: seq<Event>, id: int): (n: nat)
    ensures n <= |events|
  {
    |Filter((e: Event) => e.id == id, events)|
  }

  /** Registering raises the total participation by the number of events
      with the id: by exactly one when the id is that of one event. */
  lemma {:induction false} TotalAfterRegister(events: seq<Event>, id: int)
    ensures TotalParticipants(RegisterIn(events, id)) == TotalParticipants(events) + CountId(events, id)
  {
    if events != [] {
      var init := events[..|events| - 1];
      var last := events[|events| - 1];
      assert events == init + [last];
      TotalAfterRegister(init, id);
      RegisterSnoc(init, last, id);
      TotalSnoc(RegisterIn(init, id), if last.id == id then Registered(last) else last);
      TotalSnoc(init, last);
      CountIdSnoc(init, last, id);
    }
  }

  /** Cancelling lowers the total participation by the number of events
      with the id. */
  lemma {:induction false} TotalAfterCancel(events: seq<Event>, id: int)
    ensures TotalParticipants(CancelIn(events, id)) == TotalParticipants(events) - CountId(events, id)
  {
    if events != [] {
      var init := events[..|events| - 1];
      var last := events[|events| - 1];
      assert events == init + [last];
      TotalAfterCancel(init, id);
      CancelSnoc(init, last, id);
      TotalSnoc(CancelIn(init, id), if last.id == id then Unregistered(last) else last);
      TotalSnoc(init, last);
      CountIdSnoc(init, last, id);
    }
  }

  /** The sum over a list with one more event at the end. */
  lemma TotalSnoc(events: seq<Event>, e: Event)
    ensures TotalParticipants(events + [e]) == TotalParticipants(events) + e.participants
  {
    assert (events + [e])[..|events|] == events;
  }

  /** The registered count over a list with one more event at the end. */
  lemma RegisteredSnoc(events: seq<Event>, e: Event)
    ensures RegisteredCount(events + [e]) == RegisteredCount(events) + (if e.isRegistered then 1 else 0)
  {
    FilterAppend((e: Event) => e.isRegistered, events, [e]);
  }

  /** The id count over a list with one more event at the end. */
  lemma CountIdSnoc(events: seq<Event>, e: Event, id: int)
    ensures CountId(events + [e], id) == CountId(events, id) + (if e.id == id then 1 else 0)
  {
    FilterAppend((e: Event) => e.id == id, events, [e]);
  }

  /** Registering in a list with one more event at the end. */
  lemma RegisterSnoc(events: seq<Event>, e: Event, id: int)
    ensures RegisterIn(events + [e], id) == RegisterIn(events, id) + [if e.id == id then Registered(e) else e]
  {
  }

  /** Cancelling in a list with one more event at the end. */
  lemma CancelSnoc(events: seq<Event>, e: Event, id: int)
    ensures CancelIn(events + [e], id) == CancelIn(events, id) + [if e.id == id then Unregistered(e) else e]
  {
  }

  /** How many events carry the id and are not registered yet. */
  function CountOpenId(events: seq<Event>, id: int): (n: nat)
    ensures n <= |events|
  {
    |Filter((e: Event) => e.id == id && !e.isRegistered, events)|
  }

  /** Registering raises the registered count by the number of events with
      the id that were not registered yet: by exactly one when the id is that
      of one open event. */
  lemma {:induction false} RegisteredAfterRegister(events: seq<Event>, id: int)
    ensures RegisteredCount(RegisterIn(events, id)) == RegisteredCount(events) + CountOpenId(events, id)
  {
    if events != [] {
      var init := events[..|events| - 1];
      var last := events[|events| - 1];
      assert events == init + [last];
      RegisteredAfterRegister(init, id);
      RegisterSnoc(init, last, id);
      RegisteredSnoc(RegisterIn(init, id), if last.id == id then Registered(last) else last);
      RegisteredSnoc(init, last);
      FilterAppend((e: Event) => e.id == id && !e.isRegistered, init, [last]);
    }
  }

  /** How many events carry the id and are registered. */
  function CountJoinedId(events: seq<Event>, id: int): (n: nat)
    ensures n <= |events|
  {
    |Filter((e: Event) => e.id == id && e.isRegistered, events)|
  }

  /** Cancelling lowers the registered count by the number of registered
      events with the id. */
  lemma {:induction false} RegisteredAfterCancel(events: seq<Event>, id: int)
    ensures RegisteredCount(CancelIn(events, id)) == RegisteredCount(events) - CountJoinedId(events, id)
  {
    if events != [] {
      var init := events[..|events| - 1];
      var last := events[|events| - 1];
      assert events == init + [last];
      RegisteredAfterCancel(init, id);
      CancelSnoc(init, last, id);
      RegisteredSnoc(CancelIn(init, id), if last.id == id then Unregistered(last) else last);
      RegisteredSnoc(init, last);
      FilterAppend((e: Event) => e.id == id && e.isRegistered, init, [last]);
    }
  }

  /** The ids of the initial events are distinct, so a register or cancel
      there moves the total by exactly one. */
  lemma InitialIdsDistinct(id: int)
    ensures CountId(InitialEvents, id) == (if 1 <= id <= 3 then 1 else 0)
  {
  }

  /** `toggleDetails`: the details of the event open, or close when they are
      the ones open. */
  function Toggle(showDetails: Option<int>, id: int): (r: Option<int>)
    ensures r == Some(id) <==> showDetails != Some(id)
    ensures r.None? <==> showDetails == Some(id)
  {
    if showDetails == Some(id) then None else Some(id)
  }

  /** Toggling the same event twice returns to the prior state exactly when
      nothing or that event's details were open before. */
  lemma ToggleTwice(showDetails: Option<int>, id: int)
    ensures Toggle(Toggle(showDetails, id), id) == showDetails <==> showDetails.None? || showDetails == Some(id)
  {
  }

  /** The event board's state. */
  class Board {
    var events: seq<Event>
    var showConfirmation: Option<int>
    var showDetails: Option<int>

    constructor ()
      ensures events == InitialEvents && showConfirmation.None? && showDetails.None?
    {
      events := InitialEvents;
      showConfirmation := None;
      showDetails := None;
    }

    /** `handleRegister`: the matching events are registered and the
        confirmation for the id is shown. */
    method HandleRegister(eventId: int)
      modifies this`events, this`showConfirmation
      ensures events == RegisterIn(old(events), eventId)
      ensures showConfirmation == Some(eventId)
      ensures TotalParticipants(events) == TotalParticipants(old(events)) + CountId(old(events), eventId)
    {
      TotalAfterRegister(events, eventId);
      events := RegisterIn(events, eventId);
      showConfirmation := Some(eventId);
    }

    /** The timer started by `handleRegister` hides the confirmation. */
    method HideConfirmation()
      modifies this`showConfirmation
      ensures showConfirmation.None?
    {
      showConfirmation := None;
    }

    /** `handleCancelRegistration`: the matching events are unregistered. */
    method HandleCancelRegistration(eventId: int)
      modifies this`events
      ensures events == CancelIn(old(events), eventId)
      ensures TotalParticipants(events) == TotalParticipants(old(events)) - CountId(old(events), eventId)
    {
      TotalAfterCancel(events, eventId);
      events := CancelIn(events, eventId);
    }

    /** `toggleDetails`. */
    method ToggleDetails(eventId: int)
      modifies this`showDetails
      ensures showDetails == Toggle(old(showDetails), eventId)
    {
      showDetails := if showDetails == Some(eventId) then None else Some(eventId);
    }
  }
}
