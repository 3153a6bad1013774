/**
 * Local persistence (src/utils/storage.ts).  The browser's key-value store
 * is a map from key to the collection stored under it; the JSON encoding in
 * between is not modelled.  Plans and calendar events live under two
 * different keys and are saved with the same overwrite-or-append rule.
 */
module Storage {
  import opened Types
  import opened Text
  import opened Collections

  const PLANS_KEY: string := "force-forecast-plans"
  const CALENDAR_KEY: string := "force-forecast-calendar"

  /** What a key can hold: an array of plans or an array of calendar events. */
  datatype Stored = PlanList(plans: seq<DailyPlan>) | EventList(events: seq<CalendarEvent>)

  /** `getPlans()`: the stored plans, or none when the key is missing. */
  function PlansIn(items: map<string, Stored>): (r: seq<DailyPlan>)
    ensures PLANS_KEY !in items ==> r == []
  {
    if PLANS_KEY in items && items[PLANS_KEY].PlanList? then items[PLANS_KEY].plans else []
  }

  /** `getCalendarEvents()`: the stored events, or none when the key is missing. */
  function EventsIn(items: map<string, Stored>): (r: seq<CalendarEvent>)
    ensures CALENDAR_KEY !in items ==> r == []
  {
    if CALENDAR_KEY in items && items[CALENDAR_KEY].EventList? then items[CALENDAR_KEY].events else []
  }

  /** Writing one collection reads back as written and leaves the other collection alone. */
  lemma KeysAreIndependent(items: map<string, Stored>, plans: seq<DailyPlan>, events: seq<CalendarEvent>)
    ensures PlansIn(items[PLANS_KEY := PlanList(plans)]) == plans
    ensures EventsIn(items[PLANS_KEY := PlanList(plans)]) == EventsIn(items)
    ensures EventsIn(items[CALENDAR_KEY := EventList(events)]) == events
    ensures PlansIn(items[CALENDAR_KEY := EventList(events)]) == PlansIn(items)
  {
    assert PLANS_KEY != CALENDAR_KEY by {
      assert PLANS_KEY[15] != CALENDAR_KEY[15];
    }
  }

  /** Storage-level `getEventsForDate`: the stored events on that day, in stored order. */
  function EventsOnDay(events: seq<CalendarEvent>, date: Date): (r: seq<CalendarEvent>)
    ensures forall i :: 0 <= i < |r| ==> r[i] in events && r[i].date == date
    ensures forall i :: 0 <= i < |events| && events[i].date == date ==> events[i] in r
  {
    Filter(events, (e: CalendarEvent) => e.date == date)
  }

  /** Looking up a day distributes over a split of the collection, so the stored order is kept. */
  lemma EventsOnDayKeepsOrder(a: seq<CalendarEvent>, b: seq<CalendarEvent>, date: Date)
    ensures EventsOnDay(a + b, date) == EventsOnDay(a, date) + EventsOnDay(b, date)
  {
    FilterAppend(a, b, (e: CalendarEvent) => e.date == date);
  }

  /** The browser's local store, as far as this application uses it. */
  class Store {
    var items: map<string, Stored>

    constructor (initial: map<string, Stored>)
      ensures items == initial
    {
      items := initial;
    }

    function GetPlans(): seq<DailyPlan>
      reads this
    {
      PlansIn(items)
    }

    function GetCalendarEvents(): seq<CalendarEvent>
      reads this
    {
      EventsIn(items)
    }

    /** `getEventsForDate(date)`. */
    function GetEventsForDate(date: Date): seq<CalendarEvent>
      reads this
    {
      EventsOnDay(EventsIn(items), date)
    }

    /** `savePlan`: overwrite the first plan with the same id, else append; then store the array. */
    method SavePlan(plan: DailyPlan)
      modifies this
      ensures items == old(items)[PLANS_KEY := PlanList(Upsert(old(GetPlans()), PlanId, plan))]
      ensures GetPlans() == Upsert(old(GetPlans()), PlanId, plan)
      ensures GetCalendarEvents() == old(GetCalendarEvents())
    {
      var plans := GetPlans();
      var existingIndex := FindIndex(plans, PlanId, plan.id);
      if existingIndex >= 0 {
        plans := plans[existingIndex := plan];
      } else {
        plans := plans + [plan];
      }
      KeysAreIndependent(items, plans, []);
      items := items[PLANS_KEY := PlanList(plans)];
    }

    /** `deletePlan`: keep every plan whose id differs. */
    method DeletePlan(id: string)
      modifies this
      ensures items == old(items)[PLANS_KEY := PlanList(RemoveId(old(GetPlans()), PlanId, id))]
      ensures GetPlans() == RemoveId(old(GetPlans()), PlanId, id)
      ensures GetCalendarEvents() == old(GetCalendarEvents())
    {
      var plans := RemoveId(GetPlans(), PlanId, id);
      KeysAreIndependent(items, plans, []);
      items := items[PLANS_KEY := PlanList(plans)];
    }

    /** `saveCalendarEvent`: the same overwrite-or-append rule, under the calendar key. */
    method SaveCalendarEvent(event: CalendarEvent)
      modifies this
      ensures items == old(items)[CALENDAR_KEY := EventList(Upsert(old(GetCalendarEvents()), EventId, event))]
      ensures GetCalendarEvents() == Upsert(old(GetCalendarEvents()), EventId, event)
      ensures GetPlans() == old(GetPlans())
    {
      var events := GetCalendarEvents();
      var existingIndex := FindIndex(events, EventId, event.id);
      if existingIndex >= 0 {
        events := events[existingIndex := event];
      } else {
        events := events + [event];
      }
      KeysAreIndependent(items, [], events);
      items := items[CALENDAR_KEY := EventList(events)];
    }

    /** `deleteCalendarEvent`: keep every event whose id differs. */
    method DeleteCalendarEvent(id: string)
      modifies this
      ensures items == old(items)[CALENDAR_KEY := EventList(RemoveId(old(GetCalendarEvents()), EventId, id))]
      ensures GetCalendarEvents() == RemoveId(old(GetCalendarEvents()), EventId, id)
      ensures GetPlans() == old(GetPlans())
    {
      var events := RemoveId(GetCalendarEvents(), EventId, id);
      KeysAreIndependent(items, [], events);
      items := items[CALENDAR_KEY := EventList(events)];
    }
  }

  // ---------------------------------------------------------------------------
  // exportPlanAsText

  const REPORT_HEADER: string := "FORCE FORECAST - DAILY COMMAND BRIEF"
  const REPORT_FOOTER: string := "The Force is strong with this one."
  const NO_ENTRY: string := "No entry recorded"

  /** One "time - task" line per schedule item, in schedule order. */
  function ScheduleLines(items: seq<ScheduleItem>): (lines: seq<string>)
    ensures |lines| == |items|
    ensures forall i :: 0 <= i < |items| ==> lines[i] == items[i].time + " - " + items[i].task
    decreases |items|
  {
    if items == [] then [] else [items[0].time + " - " + items[0].task] + ScheduleLines(items[1..])
  }

  /** Goals numbered from `first` upward: "n. goal". */
  function NumberedFrom(goals: seq<string>, first: nat): (lines: seq<string>)
    ensures |lines| == |goals|
    ensures forall i :: 0 <= i < |goals| ==> lines[i] == NatToString(first + i) + ". " + goals[i]
    decreases |goals|
  {
    if goals == [] then [] else [NatToString(first) + ". " + goals[0]] + NumberedFrom(goals[1..], first + 1)
  }

  /** Goals numbered 1..n. */
  function GoalLines(goals: seq<string>): seq<string> {
    NumberedFrom(goals, 1)
  }

  /** `journalEntry || 'No entry recorded'`. */
  function JournalResponse(entry: string): (r: string)
    ensures r != []
    ensures entry == [] ==> r == NO_ENTRY
    ensures entry != [] ==> r == entry
  {
    if entry == [] then NO_ENTRY else entry
  }

  /** The report between the leading and trailing line break of the template. */
  function ReportBody(plan: DailyPlan): string {
    REPORT_HEADER + ReportSections(plan) + REPORT_FOOTER
  }

  /** Everything between the header line and the closing line. */
  function ReportSections(plan: DailyPlan): string {
    "\n"
    + "Date: " + plan.date + "\n"
    + "Mission Directive: " + plan.prompt + "\n"
    + "\n"
    + "=== TACTICAL SCHEDULE ===\n"
    + Join(ScheduleLines(plan.schedule), '\n') + "\n"
    + "\n"
    + "=== STRATEGIC OBJECTIVES ===\n"
    + Join(GoalLines(plan.goals), '\n') + "\n"
    + "\n"
    + "=== MINDSET CONDITIONING ===\n"
    + "Prompt: " + plan.journalPrompt + "\n"
    + "Response: " + JournalResponse(plan.journalEntry) + "\n"
    + "\n"
    + "=== MISSION NOTES ===\n"
    + "Generated: " + plan.createdAt + "\n"
    + "Plan ID: " + plan.id + "\n"
    + "\n"
  }

  /** `exportPlanAsText`: the template, which opens and closes with a line break, trimmed. */
  function ExportPlanAsText(plan: DailyPlan): string {
    Trim("\n" + ReportBody(plan) + "\n")
  }

  /** The trim removes only the template's framing line breaks, so the report opens with the header and closes with the footer. */
  lemma ExportFraming(plan: DailyPlan)
    ensures ExportPlanAsText(plan) == ReportBody(plan)
    ensures StartsWith(ExportPlanAsText(plan), REPORT_HEADER)
    ensures EndsWith(ExportPlanAsText(plan), REPORT_FOOTER)
  {
    var sections := ReportSections(plan);
    var body := ReportBody(plan);
    assert body == REPORT_HEADER + sections + REPORT_FOOTER;
    assert body == REPORT_HEADER + (sections + REPORT_FOOTER);
    assert body[..|REPORT_HEADER|] == REPORT_HEADER;
    assert body[0] == REPORT_HEADER[0] == 'F';
    assert body[|body| - |REPORT_FOOTER|..] == REPORT_FOOTER;
    assert body[|body| - 1] == REPORT_FOOTER[|REPORT_FOOTER| - 1] == '.';
    TrimNewlineFramed(body);
  }

  /** Each schedule line can be read back out of the schedule section, in order, when no entry holds a line break. */
  lemma ScheduleSectionReadsBack(items: seq<ScheduleItem>)
    requires |items| >= 1
    requires forall i :: 0 <= i < |items| ==> '\n' !in items[i].time && '\n' !in items[i].task
    ensures Split(Join(ScheduleLines(items), '\n'), '\n') == ScheduleLines(items)
  {
    var lines := ScheduleLines(items);
    forall i | 0 <= i < |lines| ensures '\n' !in lines[i] {
      ScheduleLineIsOneLine(items[i]);
    }
    SplitJoin(lines, '\n');
  }

  lemma ScheduleLineIsOneLine(item: ScheduleItem)
    requires '\n' !in item.time && '\n' !in item.task
    ensures '\n' !in item.time + " - " + item.task
  {
  }
}
