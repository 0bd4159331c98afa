/** The backend's in-memory event table: the EVENTS list and the EVENT_SEQ
    counter, with the handlers that change them (POST /api/events,
    PUT /api/events/<id>) and the handlers that read them together with the
    generated events (GET /api/events, POST /api/report). Request bodies are
    decoded JSON objects; the clock is the parameter `now` and the generator's
    random choices are the parameter `draws`. */
module Store {
  import opened Strings
  import opened Seqs
  import opened Api
  import opened Backend
  import opened Route

  /** The fields of a POST or PUT body. The event time is in milliseconds;
      None stands for a missing, null or blank one. */
  datatype EventBody = EventBody(
    title: Field<string>, description: Field<string>, refId: Field<string>,
    eventTime: Option<int>, category: Field<string>)

  const RequiredError: string := "title 和 ref_id 为必填"
  const DefaultCategory: string := "other"
  const FirstEventId: int := 1000

  /** `body.get(k) or default`: a missing, null or empty value gives the
      default. */
  function OrText(f: Field<string>, default: string): string {
    if f.Given? && f.value != "" then f.value else default
  }

  /** `str(body[k])` for a key that is present: null prints as "None". */
  function TextOf(f: Field<string>): string
    requires f != Absent
  {
    if f.Null? then "None" else f.value
  }

  /** `body.get("description")`: the value as given, None when missing or
      null. */
  function DescriptionOf(f: Field<string>): Option<string> {
    if f.Given? then Some(f.value) else None
  }

  /** The event time of a new event: the given time, or now. */
  function TimeOr(t: Option<int>, now: int): int {
    if t.Some? then t.value else now
  }

  /** The category of a created event: the stripped category, or "other" when
      it is missing, null or blank. */
  function CreateCategory(f: Field<string>): (c: string)
    ensures c != "" && Strip(c) == c
    ensures (f.Absent? || f.Null? || (f.Given? && AllSpace(f.value))) ==> c == DefaultCategory
    ensures f.Given? && !AllSpace(f.value) ==> c == Strip(f.value)
  {
    CategoryText(f);
    var s := Strip(OrText(f, DefaultCategory));
    if s == "" then DefaultCategory else s
  }

  /** The stripped category text before the blank fallback. */
  lemma CategoryText(f: Field<string>)
    ensures var s := Strip(OrText(f, DefaultCategory));
      && Strip(s) == s && Strip(DefaultCategory) == DefaultCategory
      && ((f.Absent? || f.Null?) ==> s == DefaultCategory)
      && (f.Given? && AllSpace(f.value) ==> s == "" || s == DefaultCategory)
      && (f.Given? && !AllSpace(f.value) ==> s == Strip(f.value) && s != "")
  {
    StripOfStripped(DefaultCategory);
    if f.Given? && f.value != "" {
      StripIdempotent(f.value);
      StripEmpty(f.value);
    }
  }

  datatype CreateReply = Created(item: Event) | BadRequest(error: string)
  {
    function Status(): int { if Created? then 201 else 400 }
  }

  /** What POST /api/events answers when EVENT_SEQ is id. */
  function CreateOutcome(body: EventBody, id: int, now: int): CreateReply {
    var title := Strip(OrText(body.title, ""));
    var refId := Strip(OrText(body.refId, ""));
    if title == "" || refId == "" then BadRequest(RequiredError)
    else Created(Event(id, title, DescriptionOf(body.description), refId, TimeOr(body.eventTime, now),
                       CreateCategory(body.category)))
  }

  /** A create is refused, with status 400, exactly when the title or the
      ref_id is missing, null or blank; otherwise the new event carries the
      id, stripped non-empty title and ref_id, the description as given, the
      given time or now, and a category defaulting to "other". */
  lemma CreateOutcomeCases(body: EventBody, id: int, now: int)
    ensures var r := CreateOutcome(body, id, now);
      && (r.BadRequest? <==> (AllSpace(OrText(body.title, "")) || AllSpace(OrText(body.refId, ""))))
      && (r.BadRequest? ==> r.Status() == 400 && r.error == RequiredError)
      && (r.Created? ==>
            && r.Status() == 201
            && r.item.id == id
            && r.item.title != "" && Strip(r.item.title) == r.item.title
            && r.item.refId != "" && Strip(r.item.refId) == r.item.refId
            && r.item.description == DescriptionOf(body.description)
            && r.item.eventTime == TimeOr(body.eventTime, now)
            && r.item.category == CreateCategory(body.category))
  {
    StripEmpty(OrText(body.title, ""));
    StripEmpty(OrText(body.refId, ""));
    StripIdempotent(OrText(body.title, ""));
    StripIdempotent(OrText(body.refId, ""));
  }

  /** The event PUT builds for an id that is not stored: missing or null text
      fields become "" (the category "other"), the time defaults to now. */
  function FreshEvent(id: int, body: EventBody, now: int): (e: Event)
    ensures e.id == id && e.description == DescriptionOf(body.description)
    ensures e.eventTime == TimeOr(body.eventTime, now)
  {
    Event(id, Strip(OrText(body.title, "")), DescriptionOf(body.description), Strip(OrText(body.refId, "")),
          TimeOr(body.eventTime, now), Strip(OrText(body.category, DefaultCategory)))
  }

  /** PUT on a stored event: each field present in the body is replaced, the
      text ones by the stripped text of the value. */
  function Patch(e: Event, body: EventBody): Event {
    Event(
      e.id,
      if body.title.Absent? then e.title else Strip(TextOf(body.title)),
      if body.description.Absent? then e.description else DescriptionOf(body.description),
      if body.refId.Absent? then e.refId else Strip(TextOf(body.refId)),
      if body.eventTime.None? then e.eventTime else body.eventTime.value,
      if body.category.Absent? then e.category else Strip(TextOf(body.category)))
  }

  /** A patch keeps the id and every field the body leaves out, and sets
      every field the body holds. */
  lemma PatchFields(e: Event, body: EventBody)
    ensures var r := Patch(e, body);
      && r.id == e.id
      && (body.title.Absent? ==> r.title == e.title)
      && (body.title.Given? ==> r.title == Strip(body.title.value))
      && (body.title.Null? ==> r.title == "None")
      && (body.description.Absent? ==> r.description == e.description)
      && (!body.description.Absent? ==> r.description == DescriptionOf(body.description))
      && (body.refId.Absent? ==> r.refId == e.refId)
      && (body.refId.Given? ==> r.refId == Strip(body.refId.value))
      && (body.refId.Null? ==> r.refId == "None")
      && (body.eventTime.None? ==> r.eventTime == e.eventTime)
      && (body.eventTime.Some? ==> r.eventTime == body.eventTime.value)
      && (body.category.Absent? ==> r.category == e.category)
      && (body.category.Given? ==> r.category == Strip(body.category.value))
      && (body.category.Null? ==> r.category == "None")
  {
    assert Strip("None") == "None";
  }

  /** An empty body changes nothing, and sending the same PUT twice to a
      stored event leaves it as the first one did. */
  lemma PatchIdempotent(e: Event, body: EventBody)
    ensures Patch(e, EventBody(Absent, Absent, Absent, None, Absent)) == e
    ensures Patch(Patch(e, body), body) == Patch(e, body)
  {
    if body.title != Absent { StripIdempotent(TextOf(body.title)); }
    if body.refId != Absent { StripIdempotent(TextOf(body.refId)); }
    if body.category != Absent { StripIdempotent(TextOf(body.category)); }
  }

  /** The position of the first stored event with the id, or -1. */
  function IndexOfId(es: seq<Event>, id: int): (k: int)
    ensures -1 <= k < |es|
    ensures k == -1 <==> forall j :: 0 <= j < |es| ==> es[j].id != id
    ensures k >= 0 ==> es[k].id == id && forall j :: 0 <= j < k ==> es[j].id != id
  {
    if |es| == 0 then -1
    else if es[0].id == id then 0
    else
      var k := IndexOfId(es[1..], id);
      if k == -1 then -1 else k + 1
  }

  /** The window of GET /api/events: start defaults to an hour before now,
      end to now, when missing or not a number. */
  function QueryStart(start: Option<int>, now: int): int { if start.Some? then start.value else now - 60 * 60000 }
  function QueryEnd(end: Option<int>, now: int): int { if end.Some? then end.value else now }

  /** The query string of GET /api/events: every refIds and every refId
      value, and the window bounds. */
  datatype EventsQuery = EventsQuery(refIds: seq<string>, refId: seq<string>, start: Option<int>, end: Option<int>)

  /** The body of POST /api/report: start and end are 0 when missing, each
      chart is the list of its metrics. */
  datatype ReportBody = ReportBody(start: int, end: int, deviceId: Field<string>, charts: seq<seq<string>>)

  datatype ReportResult = ReportResult(start: int, end: int, charts: nat, metrics: nat, events: nat)

  datatype UpdateReply = Updated(item: Event) | NotFound

  /** A stored event id that came through the unsigned route is never
      negative; then no generated event is ever dropped for being
      overridden. */
  lemma OverrideFilterInert(stored: seq<Event>, pool: seq<string>, refIds: seq<string>, start: int, end: int,
                            draws: seq<EventDraw>)
    requires GenDrawsFit(draws, start, end, |pool|)
    requires forall e :: e in stored ==> e.id >= 0
    ensures WithoutIds(GenSpec(pool, refIds, start, end, draws), IdsOf(stored))
         == GenSpec(pool, refIds, start, end, draws)
  {
    GeneratedEvents(pool, refIds, start, end, draws);
    WithoutIdsKeepsAll(GenSpec(pool, refIds, start, end, draws), IdsOf(stored));
  }

  lemma {:induction false} WithoutIdsKeepsAll(es: seq<Event>, ids: set<int>)
    requires forall e :: e in es ==> e.id !in ids
    ensures WithoutIds(es, ids) == es
  {
    if |es| > 0 {
      WithoutIdsKeepsAll(es[1..], ids);
      assert es == [es[0]] + es[1..];
    }
  }

  /** Once an event is stored under the id of a generated event, an events
      query shows the stored one and not the generated one. */
  lemma OverrideReplacesGenerated(stored: seq<Event>, pool: seq<string>, refIds: seq<string>, start: int, end: int,
                                  draws: seq<EventDraw>, g: Event, s: Event)
    requires GenDrawsFit(draws, start, end, |pool|)
    requires g in GenSpec(pool, refIds, start, end, draws) && g !in stored
    requires s in stored && s.id == g.id && InWindow(s, start, end) && RefMatch(refIds, s.refId)
    ensures var r := MergedSpec(stored, pool, refIds, start, end, draws);
      g !in r && s in r
  {
    MergedEvents(stored, pool, refIds, start, end, draws);
  }

  class EventStore {
    /** EVENTS, in insertion order. */
    var events: seq<Event>
    /** EVENT_SEQ: the id the next created event gets. */
    var nextId: int

    /** EVENT_SEQ starts at 1000 and only grows. */
    ghost predicate Valid()
      reads this
    {
      nextId >= FirstEventId
    }

    /** No stored event has a negative id. Created events take the counter,
        and the unsigned route only reads non-negative ids, so as the backend
        is written this always holds. */
    ghost predicate NonNegativeIds()
      reads this
    {
      forall e :: e in events ==> e.id >= 0
    }

    constructor ()
      ensures Valid() && NonNegativeIds()
      ensures events == [] && nextId == FirstEventId
    {
      events := [];
      nextId := FirstEventId;
    }

    /** POST /api/events. A refused create leaves the table and the counter
        as they were; an accepted one appends exactly the new event, whose
        id is the old counter, and advances the counter by one. */
    method CreateEvent(body: EventBody, now: int) returns (reply: CreateReply)
      requires Valid()
      modifies this
      ensures Valid()
      ensures reply == CreateOutcome(body, old(nextId), now)
      ensures reply.BadRequest? ==> events == old(events) && nextId == old(nextId)
      ensures reply.Created? ==> events == old(events) + [reply.item] && nextId == old(nextId) + 1
      ensures old(NonNegativeIds()) ==> NonNegativeIds()
    {
      var title := Strip(OrText(body.title, ""));
      var refId := Strip(OrText(body.refId, ""));
      var category := Strip(OrText(body.category, DefaultCategory));
      if category == "" {
        category := DefaultCategory;
      }
      var description := DescriptionOf(body.description);
      var eventTime := TimeOr(body.eventTime, now);
      if title == "" || refId == "" {
        return BadRequest(RequiredError);
      }
      var item := Event(nextId, title, description, refId, eventTime, category);
      nextId := nextId + 1;
      events := events + [item];
      reply := Created(item);
    }

    /** The search of the update handler: the first stored event with the
        id, or -1. */
    method FindIndex(id: int) returns (idx: int)
      ensures idx == IndexOfId(events, id)
    {
      var i := 0;
      while i < |events|
        invariant 0 <= i <= |events|
        invariant forall j :: 0 <= j < i ==> events[j].id != id
      {
        if events[i].id == id {
          IndexOfIdFirst(events, id, i);
          return i;
        }
        i := i + 1;
      }
      idx := -1;
    }

    /** PUT /api/events/<id> once the route has read the id. A stored id is
        patched in place and nothing else changes; an unknown id is appended
        as a new event carrying that id. The counter is never touched. */
    method UpdateEvent(eventId: int, body: EventBody, now: int) returns (item: Event)
      requires Valid()
      modifies this
      ensures Valid() && nextId == old(nextId)
      ensures item.id == eventId
      ensures IndexOfId(old(events), eventId) == -1 ==>
        item == FreshEvent(eventId, body, now) && events == old(events) + [item]
      ensures IndexOfId(old(events), eventId) >= 0 ==>
        var k := IndexOfId(old(events), eventId);
        item == Patch(old(events)[k], body) && events == old(events)[k := item]
    {
      var idx := FindIndex(eventId);
      if idx == -1 {
        item := FreshEvent(eventId, body, now);
        events := events + [item];
        return;
      }
      item := events[idx];
      if body.title != Absent {
        item := item.(title := Strip(TextOf(body.title)));
      }
      if body.description != Absent {
        item := item.(description := DescriptionOf(body.description));
      }
      if body.refId != Absent {
        item := item.(refId := Strip(TextOf(body.refId)));
      }
      if body.category != Absent {
        item := item.(category := Strip(TextOf(body.category)));
      }
      if body.eventTime.Some? {
        item := item.(eventTime := body.eventTime.value);
      }
      events := events[idx := item];
    }

    /** PUT /api/events/<segment> with the id read by the signed route: any
        id the client writes reaches the update handler; a segment that is not
        an integer matches no route and changes nothing. */
    method PutEvent(segment: string, body: EventBody, now: int) returns (reply: UpdateReply)
      requires Valid()
      modifies this
      ensures Valid() && nextId == old(nextId)
      ensures SignedRouteId(segment).None? ==> reply == NotFound && events == old(events)
      ensures SignedRouteId(segment).Some? ==>
        var id := SignedRouteId(segment).value;
        var k := IndexOfId(old(events), id);
        && reply.Updated? && reply.item.id == id
        && (k == -1 ==> reply.item == FreshEvent(id, body, now) && events == old(events) + [reply.item])
        && (k >= 0 ==> reply.item == Patch(old(events)[k], body) && events == old(events)[k := reply.item])
    {
      var id := SignedRouteId(segment);
      if id.None? {
        return NotFound;
      }
      var item := UpdateEvent(id.value, body, now);
      reply := Updated(item);
    }

    /** PUT /api/events/<segment> as the backend declares it, with the
        unsigned route: only a run of digits reaches the update handler, so
        no stored id ever becomes negative. */
    method PutEventUnsigned(segment: string, body: EventBody, now: int) returns (reply: UpdateReply)
      requires Valid()
      modifies this
      ensures Valid() && nextId == old(nextId)
      ensures UnsignedRouteId(segment).None? ==> reply == NotFound && events == old(events)
      ensures UnsignedRouteId(segment).Some? ==>
        var id := UnsignedRouteId(segment).value;
        var k := IndexOfId(old(events), id);
        && reply.Updated? && reply.item.id == id
        && (k == -1 ==> reply.item == FreshEvent(id, body, now) && events == old(events) + [reply.item])
        && (k >= 0 ==> reply.item == Patch(old(events)[k], body) && events == old(events)[k := reply.item])
      ensures old(NonNegativeIds()) ==> NonNegativeIds()
    {
      var id := UnsignedRouteId(segment);
      if id.None? {
        return NotFound;
      }
      var item := UpdateEvent(id.value, body, now);
      reply := Updated(item);
    }

    /** While no stored id is negative, the override filter of the events
        and report handlers drops no generated event. */
    lemma OverridesNothing(pool: seq<string>, refIds: seq<string>, start: int, end: int, draws: seq<EventDraw>)
      requires NonNegativeIds() && GenDrawsFit(draws, start, end, |pool|)
      ensures WithoutIds(GenSpec(pool, refIds, start, end, draws), IdsOf(events))
           == GenSpec(pool, refIds, start, end, draws)
    {
      OverrideFilterInert(events, pool, refIds, start, end, draws);
    }

    /** GET /api/events: the stored events in the window that pass the
        filter and the generated events no stored event overrides, merged and
        sorted by time. */
    method Events(q: EventsQuery, now: int, draws: seq<EventDraw>) returns (r: seq<Event>)
      requires GenDrawsFit(draws, QueryStart(q.start, now), QueryEnd(q.end, now), |Pool(TREE)|)
      ensures r == MergedSpec(events, Pool(TREE), ParseRefIds(q.refIds, q.refId),
                              QueryStart(q.start, now), QueryEnd(q.end, now), draws)
    {
      var refIds := ParseRefIds(q.refIds, q.refId);
      var start := QueryStart(q.start, now);
      var end := QueryEnd(q.end, now);
      r := MergeWithStored(refIds, start, end, draws);
    }

    /** The part the events and report handlers share. */
    method MergeWithStored(refIds: seq<string>, start: int, end: int, draws: seq<EventDraw>) returns (r: seq<Event>)
      requires GenDrawsFit(draws, start, end, |Pool(TREE)|)
      ensures r == MergedSpec(events, Pool(TREE), refIds, start, end, draws)
    {
      var local := Matching(events, refIds, start, end);
      var generated := GenEvents(TREE, refIds, start, end, draws);
      var overridden := IdsOf(events);
      generated := WithoutIds(generated, overridden);
      r := SortBy(local + generated, TimeOf);
    }

    /** POST /api/report: the window, the number of charts and of metrics,
        and the number of events in the window under the derived ref ids. */
    method Report(body: ReportBody, now: int, draws: seq<EventDraw>) returns (res: ReportResult)
      requires var w := ReportWindow(body.start, body.end, now);
        GenDrawsFit(draws, w.0, w.1, |Pool(TREE)|)
      ensures var w := ReportWindow(body.start, body.end, now);
        var deviceId := Strip(OrText(body.deviceId, ""));
        && res.start == w.0 && res.end == w.1
        && res.charts == |body.charts|
        && res.metrics == TotalMetrics(body.charts)
        && res.events == |MergedSpec(events, Pool(TREE), ReportRefIds(deviceId, body.charts), w.0, w.1, draws)|
    {
      var start := body.start;
      var end := body.end;
      var deviceId := Strip(OrText(body.deviceId, ""));
      if start == 0 || end == 0 || start >= end {
        if start == 0 {
          start := now - 10 * 60000;
        }
        if end == 0 {
          end := now;
        }
      }
      var refIds, metricTotal := ReportPrefixes(deviceId, body.charts);
      var merged := MergeWithStored(refIds, start, end, draws);
      if metricTotal == 0 {
        metricTotal := TotalMetrics(body.charts);
      }
      res := ReportResult(start, end, |body.charts|, metricTotal, |merged|);
    }
  }

  lemma IndexOfIdFirst(es: seq<Event>, id: int, i: nat)
    requires i < |es| && es[i].id == id
    requires forall j :: 0 <= j < i ==> es[j].id != id
    ensures IndexOfId(es, id) == i
  {
  }
}
