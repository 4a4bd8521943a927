/** The calendar tools: the calendars, the events of a calendar (a date
    range through `calendarView`, otherwise the newest events first), and
    one event. */
module CalendarTools {
  import opened Base
  import opened Text
  import opened Json
  import opened GraphClient
  import opened Toolkit

  const CalendarFields: string := "id,name,color,isDefaultCalendar"
  const EventListFields: string :=
    "id,subject,start,end,location,organizer,attendees,isAllDay,"
    + "isCancelled,showAs,isOnlineMeeting,onlineMeeting,categories,"
    + "responseStatus,bodyPreview,recurrence,type"
  const EventOrder: string := "start/dateTime desc"
  const MaxEvents: int := 50
  const DefaultEventTop: int := 50

  /** A date-range query needs both ends. */
  predicate IsRange(start: string, end: string) {
    start != "" && end != ""
  }

  /** The calendar the events come from: the primary one under `/me`, or
      the named one. */
  function CalendarScope(calendarId: string): string {
    if calendarId == "" then "/me" else "/me/calendars/" + calendarId
  }

  /** `graph_list_events`' request: a range goes to `calendarView` with its
      two ends and no ordering; otherwise `events`, newest first, and no
      date parameters. The selected fields and the clamped `$top` are
      always there. */
  function ListEventsRequest(start: string, end: string, calendarId: string, top: int): (r: Request)
    ensures r.verb == GET && r.payload == NoPayload && r.headers == map[]
    ensures r.path == CalendarScope(calendarId) + (if IsRange(start, end) then "/calendarView" else "/events")
    ensures r.params.Keys ==
      {"$select", "$top"} + (if IsRange(start, end) then {"startDateTime", "endDateTime"} else {"$orderby"})
    ensures r.params["$select"] == EventListFields && r.params["$top"] == TopParam(top, MaxEvents)
    ensures IsRange(start, end) ==> r.params["startDateTime"] == start && r.params["endDateTime"] == end
    ensures !IsRange(start, end) ==> r.params["$orderby"] == EventOrder
  {
    var params := map["$select" := EventListFields, "$top" := TopParam(top, MaxEvents)];
    if start != "" && end != "" then
      var path := if calendarId != "" then "/me/calendars/" + calendarId + "/calendarView" else "/me/calendarView";
      assert path == CalendarScope(calendarId) + "/calendarView";
      GetRequest(path, params["startDateTime" := start]["endDateTime" := end], map[])
    else
      var path := if calendarId != "" then "/me/calendars/" + calendarId + "/events" else "/me/events";
      assert path == CalendarScope(calendarId) + "/events";
      GetRequest(path, params["$orderby" := EventOrder], map[])
  }

  /** The date parameters come together or not at all, and exactly when
      there is no ordering; the `$top` sent never exceeds 50. */
  lemma ListEventsParams(start: string, end: string, calendarId: string, top: int)
    ensures var r := ListEventsRequest(start, end, calendarId, top);
      && ("startDateTime" in r.params <==> "endDateTime" in r.params)
      && ("startDateTime" in r.params <==> "$orderby" !in r.params)
      && ParseInt(r.params["$top"]).Some? && ParseInt(r.params["$top"]).value <= MaxEvents
  {
    TopParamMeaning(top, MaxEvents);
  }

  function ListCalendars(client: Client): (run: Run)
    ensures run.requests == [GetRequest("/me/calendars", map["$select" := CalendarFields], map[])]
  {
    ListReply(client, GetRequest("/me/calendars", map["$select" := CalendarFields], map[]))
  }

  /** `graph_list_events`: one request, answered with its `value` list. */
  function ListEvents(client: Client, start: string := "", end: string := "", calendarId: string := "",
                      top: int := DefaultEventTop): (run: Run)
    ensures run.requests == [ListEventsRequest(start, end, calendarId, top)]
  {
    ListReply(client, ListEventsRequest(start, end, calendarId, top))
  }

  /** Without arguments the primary calendar's events are listed, newest
      first, 50 of them, with no date range. */
  lemma ListEventsDefaults(client: Client)
    ensures var r := ListEvents(client).requests[0];
      && ListEvents(client).requests == [ListEventsRequest("", "", "", 50)]
      && r.path == "/me/events"
      && r.params.Keys == {"$select", "$top", "$orderby"}
      && r.params["$top"] == "50"
      && r.params["$orderby"] == "start/dateTime desc"
  {
    TopParamMeaning(DefaultEventTop, MaxEvents);
  }

  function GetEvent(client: Client, eventId: string): (run: Run)
    ensures run.requests == [GetRequest("/me/events/" + eventId, map[], map[])]
  {
    ItemReply(client, GetRequest("/me/events/" + eventId, map[], map[]))
  }
}
