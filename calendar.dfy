/** mcp_calendar_ops.py: the simulated calendar, an append-only list of
    events kept in Logs/calendar_events.json. create_event loads the list,
    appends one event and saves it back; read_events loads and counts. */
module CalendarOps {
  import opened Audit
  import opened FileOps

  const SimulatedMode := "simulated"

  /** _load_db(): the stored list; a missing store, one that cannot be read
      and one that is not valid JSON all load as []. */
  function LoadDb(store: JsonFile<seq<CalendarEvent>>): seq<CalendarEvent> {
    if store.Stored? then store.value else []
  }

  /** _save_db(events). */
  function SaveDb(events: seq<CalendarEvent>): JsonFile<seq<CalendarEvent>> {
    Stored(events)
  }

  /** The arguments of one create_event call, with what _ts_slug() and
      _utc_ts() returned during it. */
  datatype Request = Request(title: string, start: string, end: string, description: string,
                             slug: string, createdAt: string)

  /** The record create_event builds. */
  function EventOf(q: Request): CalendarEvent {
    CalendarEvent(q.slug, q.title, q.start, q.end, q.description, q.createdAt, SimulatedMode)
  }

  /** The store after one create_event. */
  function AfterCreate(store: JsonFile<seq<CalendarEvent>>, q: Request): JsonFile<seq<CalendarEvent>> {
    SaveDb(LoadDb(store) + [EventOf(q)])
  }

  /** The store after several create_event calls, in order. */
  function AfterCreates(store: JsonFile<seq<CalendarEvent>>, qs: seq<Request>): JsonFile<seq<CalendarEvent>>
    decreases |qs|
  {
    if qs == [] then store else AfterCreates(AfterCreate(store, qs[0]), qs[1..])
  }

  /** The records a sequence of create_event calls builds, one per call. */
  function EventsOf(qs: seq<Request>): (r: seq<CalendarEvent>)
    ensures |r| == |qs|
    ensures forall k :: 0 <= k < |qs| ==> r[k] == EventOf(qs[k])
    decreases |qs|
  {
    if qs == [] then [] else [EventOf(qs[0])] + EventsOf(qs[1..])
  }

  /** create_event appends exactly one event at the end and keeps the
      existing ones in order; the new one carries the arguments and the
      simulated mode. */
  lemma CreateAppendsOne(store: JsonFile<seq<CalendarEvent>>, q: Request)
    ensures var before := LoadDb(store);
      var after := LoadDb(AfterCreate(store, q));
      && |after| == |before| + 1
      && after[..|before|] == before
      && after[|before|] == CalendarEvent(q.slug, q.title, q.start, q.end, q.description, q.createdAt, "simulated")
  {
    var before := LoadDb(store);
    assert (before + [EventOf(q)])[..|before|] == before;
  }

  /** With no loadable store, create_event saves a one-element list. */
  lemma CreateOnEmptyStore(store: JsonFile<seq<CalendarEvent>>, q: Request)
    requires !store.Stored?
    ensures LoadDb(AfterCreate(store, q)) == [EventOf(q)]
  {
  }

  /** Reading back after several creates gives the events that were there,
      then the new ones in the order they were created. */
  lemma {:induction false} CreatesReadBack(store: JsonFile<seq<CalendarEvent>>, qs: seq<Request>)
    ensures LoadDb(AfterCreates(store, qs)) == LoadDb(store) + EventsOf(qs)
    decreases |qs|
  {
    if qs == [] {
      assert LoadDb(store) + EventsOf(qs) == LoadDb(store);
    } else {
      var s1 := AfterCreate(store, qs[0]);
      CreatesReadBack(s1, qs[1..]);
      calc {
        LoadDb(AfterCreates(store, qs));
        LoadDb(AfterCreates(s1, qs[1..]));
        LoadDb(s1) + EventsOf(qs[1..]);
        (LoadDb(store) + [EventOf(qs[0])]) + EventsOf(qs[1..]);
        { assert (LoadDb(store) + [EventOf(qs[0])]) + EventsOf(qs[1..])
            == LoadDb(store) + ([EventOf(qs[0])] + EventsOf(qs[1..])); }
        LoadDb(store) + EventsOf(qs);
      }
    }
  }

  /** What create_event returns: {"ok": True, "event": ...}. */
  datatype Created = Created(ok: bool, event: CalendarEvent)

  /** What read_events returns: {"ok": True, "events": ..., "count": N}. */
  datatype EventsRead = EventsRead(ok: bool, events: seq<CalendarEvent>, count: nat)

  /** read_events(): the loaded list and its length. */
  function ReadEventsResult(store: JsonFile<seq<CalendarEvent>>): (r: EventsRead)
    ensures r.ok && r.count == |r.events|
    ensures r.events == LoadDb(store)
  {
    var events := LoadDb(store);
    EventsRead(true, events, |events|)
  }

  /** read_events right after a create sees the new event last and counts
      one more than before. */
  lemma ReadAfterCreate(store: JsonFile<seq<CalendarEvent>>, q: Request)
    ensures var r := ReadEventsResult(AfterCreate(store, q));
      && r.count == ReadEventsResult(store).count + 1
      && r.events[r.count - 1] == EventOf(q)
  {
    CreateAppendsOne(store, q);
  }

  // ---------------------------------------------------------------------------
  // The operations on the vault
  // ---------------------------------------------------------------------------

  /** create_event: Logs/ is created, the store gets the new event appended,
      and the creation is logged. */
  method CreateEvent(v: Vault, q: Request) returns (r: Created)
    requires v.Valid()
    modifies v`disk, v`log, v`calendar
    ensures v.Valid()
    ensures r == Created(true, EventOf(q))
    ensures v.calendar == AfterCreate(old(v.calendar), q)
    ensures v.disk == MakeDir(old(v.disk), Logs)
    ensures v.log == old(v.log) + [CalendarEventCreated(q.title, q.start, q.end)]
  {
    var events := LoadDb(v.calendar);
    var event := EventOf(q);
    events := events + [event];
    v.MakeFolder(Logs);
    v.calendar := SaveDb(events);
    v.Record(CalendarEventCreated(q.title, q.start, q.end));
    r := Created(true, event);
  }

  /** read_events: the store is left as it is; logging the read creates
      Logs/ and records the count. */
  method ReadEvents(v: Vault) returns (r: EventsRead)
    requires v.Valid()
    modifies v`disk, v`log
    ensures v.Valid()
    ensures r == ReadEventsResult(v.calendar)
    ensures v.disk == MakeDir(old(v.disk), Logs)
    ensures v.log == old(v.log) + [CalendarEventsRead(r.count)]
  {
    var events := LoadDb(v.calendar);
    v.MakeFolder(Logs);
    v.Record(CalendarEventsRead(|events|));
    r := EventsRead(true, events, |events|);
  }
}
