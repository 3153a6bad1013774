/**
 * The tactical calendar (src/components/Calendar.tsx): the month grid, the
 * per-day lookups of events and plans, the indicator rule of a day cell, and
 * the panel's handlers that create, delete and generate events.  The
 * component keeps its own copy of the events, loaded from the store when it
 * mounts, and writes every change to the store as well.
 */
module Calendar {
  import opened Types
  import opened Text
  import opened Collections
  import opened Gregorian
  import Storage

  // ---------------------------------------------------------------------------
  // getDaysInMonth

  /** One cell of the month grid: padding before the first day, or a day. */
  datatype Cell = Blank | Day(date: Date)

  /**
   * `getDaysInMonth(date)`: one blank cell per weekday before the first of
   * the month, then one cell per day; the grid has no trailing padding.
   */
  method BuildMonthGrid(year: int, month: int) returns (days: seq<Cell>)
    requires 0 <= month < 12
    ensures |days| == Weekday(year, month, 1) + DaysInMonth(year, month)
    ensures forall i :: 0 <= i < Weekday(year, month, 1) ==> days[i] == Blank
    ensures forall d :: 1 <= d <= DaysInMonth(year, month) ==>
      days[Weekday(year, month, 1) + d - 1] == Day(Date(year, month, d))
  {
    var daysInMonth := DaysInMonth(year, month);
    var startingDayOfWeek := Weekday(year, month, 1);
    days := [];
    var i := 0;
    while i < startingDayOfWeek
      invariant 0 <= i <= startingDayOfWeek
      invariant |days| == i
      invariant forall k :: 0 <= k < i ==> days[k] == Blank
    {
      days := days + [Blank];
      i := i + 1;
    }
    var day := 1;
    while day <= daysInMonth
      invariant 1 <= day <= daysInMonth + 1
      invariant |days| == startingDayOfWeek + day - 1
      invariant forall k :: 0 <= k < startingDayOfWeek ==> days[k] == Blank
      invariant forall d :: 1 <= d < day ==> days[startingDayOfWeek + d - 1] == Day(Date(year, month, d))
    {
      days := days + [Day(Date(year, month, day))];
      day := day + 1;
    }
  }

  /** The grid starts on Sunday, so the cell of day `d` sits in the column of its weekday. */
  lemma GridColumnIsWeekday(year: int, month: int, d: int)
    requires 0 <= month < 12 && 1 <= d <= DaysInMonth(year, month)
    ensures (Weekday(year, month, 1) + d - 1) % 7 == Weekday(year, month, d)
    ensures ValidDate(Date(year, month, d))
  {
    var n := DayNumber(year, month, 1);
    WeekdayShift(n, d - 1);
    assert DayNumber(year, month, d) == n + d - 1;
  }

  // ---------------------------------------------------------------------------
  // getPlanForDate

  function PlanDate(p: DailyPlan): string {
    p.date
  }

  /**
   * `getPlanForDate(date)`: the first plan whose date string is the day's
   * `toLocaleDateString()`, or nothing.
   */
  function PlanForDate(plans: seq<DailyPlan>, date: Date): (r: Option<DailyPlan>)
    requires 0 <= date.month < 12 && date.day >= 1
    ensures r.None? <==> forall i :: 0 <= i < |plans| ==> plans[i].date != LocaleDateString(date)
    ensures r.Some? ==> r.value.date == LocaleDateString(date)
    ensures r.Some? ==> exists i :: (0 <= i < |plans| && plans[i] == r.value &&
                                     forall j :: 0 <= j < i ==> plans[j].date != LocaleDateString(date))
  {
    var i := FindIndex(plans, PlanDate, LocaleDateString(date));
    if i < 0 then None else Some(plans[i])
  }

  // ---------------------------------------------------------------------------
  // Day cell indicators

  const MAX_INDICATORS: nat := 3

  /** `dayEvents.slice(0, 3)`: the events that get an indicator bar. */
  function Indicators(dayEvents: seq<CalendarEvent>): (shown: seq<CalendarEvent>)
    ensures |shown| <= MAX_INDICATORS && |shown| <= |dayEvents|
    ensures shown == dayEvents[..|shown|]
    ensures |dayEvents| <= MAX_INDICATORS ==> shown == dayEvents
  {
    if |dayEvents| <= MAX_INDICATORS then dayEvents else dayEvents[..MAX_INDICATORS]
  }

  /** The "+n" label under the bars, present only when some events got no bar. */
  function OverflowLabel(dayEvents: seq<CalendarEvent>): (more: Option<string>)
    ensures more.Some? <==> |dayEvents| > MAX_INDICATORS
    ensures more.Some? ==> |more.value| >= 2 && more.value[0] == '+' && IsDigits(more.value[1..])
  {
    if |dayEvents| > MAX_INDICATORS then Some("+" + NatToString(|dayEvents| - MAX_INDICATORS)) else None
  }

  /** Every event of the day is either shown as a bar or counted by the label. */
  lemma IndicatorsAccountForAll(dayEvents: seq<CalendarEvent>)
    ensures OverflowLabel(dayEvents).None? ==> |Indicators(dayEvents)| == |dayEvents|
    ensures OverflowLabel(dayEvents).Some? ==>
      |Indicators(dayEvents)| + ParseNat(OverflowLabel(dayEvents).value[1..]) == |dayEvents|
  {
    if |dayEvents| > MAX_INDICATORS {
      var n := |dayEvents| - MAX_INDICATORS;
      assert OverflowLabel(dayEvents).value[1..] == NatToString(n);
      ParseNatToString(n);
    }
  }

  // ---------------------------------------------------------------------------
  // generateEventsFromPlan

  const GENERATED_PREFIX: string := "Generated from Force Forecast plan: "

  /** The id of the event generated from schedule item `index` of a plan. */
  function GeneratedId(planId: string, index: nat): string {
    planId + "-" + NatToString(index)
  }

  /** The event built from schedule item `index` of the plan, on the selected day. */
  function GeneratedEvent(plan: DailyPlan, index: nat, date: Date, createdAt: string): CalendarEvent
    requires index < |plan.schedule|
  {
    var item := plan.schedule[index];
    CalendarEvent(GeneratedId(plan.id, index), item.task, GENERATED_PREFIX + plan.prompt,
      date, item.time, item.priority, createdAt, true)
  }

  /** The event of every schedule item, in schedule order. */
  function Candidates(plan: DailyPlan, date: Date, createdAt: string): (r: seq<CalendarEvent>)
    ensures |r| == |plan.schedule|
    ensures forall i :: 0 <= i < |r| ==> r[i] == GeneratedEvent(plan, i, date, createdAt)
  {
    seq(|plan.schedule|, i requires 0 <= i < |plan.schedule| => GeneratedEvent(plan, i, date, createdAt))
  }

  /** The `exists` test: a candidate is kept when no event in `existing` carries its id. */
  function AbsentFrom(existing: seq<CalendarEvent>): CalendarEvent -> bool {
    (e: CalendarEvent) => !HasId(existing, EventId, e.id)
  }

  /** The events a generation adds: the candidates whose id `existing` does not hold. */
  function NewEvents(plan: DailyPlan, date: Date, createdAt: string, existing: seq<CalendarEvent>): seq<CalendarEvent> {
    Filter(Candidates(plan, date, createdAt), AbsentFrom(existing))
  }

  /** The events the first `n` steps of a generation add. */
  function NewUpTo(plan: DailyPlan, date: Date, createdAt: string, existing: seq<CalendarEvent>, n: nat): seq<CalendarEvent>
    requires n <= |plan.schedule|
    decreases n
  {
    if n == 0 then []
    else
      var e := GeneratedEvent(plan, n - 1, date, createdAt);
      NewUpTo(plan, date, createdAt, existing, n - 1) + (if HasId(existing, EventId, e.id) then [] else [e])
  }

  lemma {:induction false} NewUpToIsFilter(plan: DailyPlan, date: Date, createdAt: string, existing: seq<CalendarEvent>, n: nat)
    requires n <= |plan.schedule|
    ensures NewUpTo(plan, date, createdAt, existing, n) == Filter(Candidates(plan, date, createdAt)[..n], AbsentFrom(existing))
    decreases n
  {
    var c := Candidates(plan, date, createdAt);
    if n == 0 {
      assert c[..0] == [];
    } else {
      NewUpToIsFilter(plan, date, createdAt, existing, n - 1);
      FilterStep(c, n - 1, AbsentFrom(existing));
    }
  }

  /** Distinct schedule positions give distinct ids. */
  lemma GeneratedIdInjective(planId: string, i: nat, j: nat)
    ensures GeneratedId(planId, i) == GeneratedId(planId, j) ==> i == j
  {
    var prefix := planId + "-";
    if GeneratedId(planId, i) == GeneratedId(planId, j) {
      assert GeneratedId(planId, i)[|prefix|..] == NatToString(i);
      assert GeneratedId(planId, j)[|prefix|..] == NatToString(j);
      NatToStringInjective(i, j);
    }
  }

  /** No two candidates of one plan share an id. */
  lemma CandidateIdsDistinct(plan: DailyPlan, date: Date, createdAt: string)
    ensures UniqueIds(Candidates(plan, date, createdAt), EventId)
  {
    var c := Candidates(plan, date, createdAt);
    forall a, b | 0 <= a < b < |c| ensures EventId(c[a]) != EventId(c[b]) {
      GeneratedIdInjective(plan.id, a, b);
    }
  }

  /**
   * What a generation adds: for each schedule item whose id is absent, its
   * generated event; for an item whose id is present, nothing.
   */
  lemma NewEventsSpec(plan: DailyPlan, date: Date, createdAt: string, existing: seq<CalendarEvent>)
    ensures forall i :: 0 <= i < |plan.schedule| && !HasId(existing, EventId, GeneratedId(plan.id, i)) ==>
      GeneratedEvent(plan, i, date, createdAt) in NewEvents(plan, date, createdAt, existing)
    ensures forall e :: e in NewEvents(plan, date, createdAt, existing) ==>
      e.isGenerated && e.date == date && !HasId(existing, EventId, e.id)
      && exists i :: 0 <= i < |plan.schedule| && e == GeneratedEvent(plan, i, date, createdAt)
  {
    var c := Candidates(plan, date, createdAt);
    var r := NewEvents(plan, date, createdAt, existing);
    forall e | e in r
      ensures e.isGenerated && e.date == date && !HasId(existing, EventId, e.id)
      ensures exists i :: 0 <= i < |plan.schedule| && e == GeneratedEvent(plan, i, date, createdAt)
    {
      var k :| 0 <= k < |r| && r[k] == e;
      assert e in c && AbsentFrom(existing)(e);
      var i :| 0 <= i < |c| && c[i] == e;
      assert e == GeneratedEvent(plan, i, date, createdAt);
    }
  }

  /** Generating twice from the same plan adds nothing the second time. */
  lemma GeneratingTwiceAddsNothing(plan: DailyPlan, date: Date, createdAt: string, existing: seq<CalendarEvent>)
    ensures NewEvents(plan, date, createdAt, existing + NewEvents(plan, date, createdAt, existing)) == []
  {
    var c := Candidates(plan, date, createdAt);
    var added := NewEvents(plan, date, createdAt, existing);
    var after := existing + added;
    forall i | 0 <= i < |c| ensures HasId(after, EventId, c[i].id) {
      if HasId(existing, EventId, c[i].id) {
        var j :| 0 <= j < |existing| && EventId(existing[j]) == c[i].id;
        assert after[j] == existing[j];
      } else {
        assert AbsentFrom(existing)(c[i]);
        var k :| 0 <= k < |added| && added[k] == c[i];
        assert after[|existing| + k] == c[i];
      }
    }
    FilterNone(c, AbsentFrom(after));
  }

  /** A generation keeps the event ids unique when they were unique before. */
  lemma GeneratingKeepsUniqueIds(plan: DailyPlan, date: Date, createdAt: string, existing: seq<CalendarEvent>)
    requires UniqueIds(existing, EventId)
    ensures UniqueIds(existing + NewEvents(plan, date, createdAt, existing), EventId)
  {
    var added := NewEvents(plan, date, createdAt, existing);
    var after := existing + added;
    CandidateIdsDistinct(plan, date, createdAt);
    FilterKeepsUniqueIds(Candidates(plan, date, createdAt), EventId, AbsentFrom(existing));
    forall a, b | 0 <= a < b < |after| ensures EventId(after[a]) != EventId(after[b]) {
      if b < |existing| {
        assert after[a] == existing[a] && after[b] == existing[b];
      } else if a < |existing| {
        var e := added[b - |existing|];
        assert after[b] == e;
        assert AbsentFrom(existing)(e);
        assert after[a] == existing[a];
      } else {
        assert after[a] == added[a - |existing|] && after[b] == added[b - |existing|];
      }
    }
  }

  // ---------------------------------------------------------------------------
  // The calendar panel

  /** The new-event form. */
  datatype Draft = Draft(title: string, description: string, priority: Priority, time: string)

  const EMPTY_DRAFT: Draft := Draft("", "", Standard, "09:00")

  /** `handleCreateEvent`'s guard: a day is selected and the title is not blank. */
  predicate CanCreate(selected: Option<Date>, draft: Draft) {
    selected.Some? && Trim(draft.title) != []
  }

  /** The guard fails exactly when no day is selected or the title is all white space. */
  lemma CanCreateSpec(selected: Option<Date>, draft: Draft)
    ensures !CanCreate(selected, draft) <==> selected.None? || IsBlank(draft.title)
  {
    TrimEmptyIffBlank(draft.title);
  }

  /** The event a filled-in form makes; `now` is `Date.now()`, `createdAt` the ISO time. */
  function EventFromDraft(draft: Draft, date: Date, now: nat, createdAt: string): CalendarEvent {
    CalendarEvent(NatToString(now), draft.title, draft.description, date, draft.time, draft.priority, createdAt, false)
  }

  class CalendarPanel {
    const store: Storage.Store
    var selectedDate: Option<Date>
    var events: seq<CalendarEvent>
    var plans: seq<DailyPlan>
    var showEventModal: bool
    var draft: Draft

    /** Mounting: nothing selected, the form empty, events and plans loaded from the store. */
    constructor (store: Storage.Store)
      ensures this.store == store
      ensures selectedDate == None && !showEventModal && draft == EMPTY_DRAFT
      ensures events == store.GetCalendarEvents() && plans == store.GetPlans()
    {
      this.store := store;
      selectedDate := None;
      events := store.GetCalendarEvents();
      plans := store.GetPlans();
      showEventModal := false;
      draft := EMPTY_DRAFT;
    }

    /** `getEventsForDate`: the panel's events on that day, in order. */
    function EventsForDate(date: Date): (r: seq<CalendarEvent>)
      reads this
      ensures forall i :: 0 <= i < |r| ==> r[i] in events && r[i].date == date
      ensures forall i :: 0 <= i < |events| && events[i].date == date ==> events[i] in r
    {
      Storage.EventsOnDay(events, date)
    }

    /** `handleDateClick`. */
    method SelectDate(date: Date)
      modifies this
      ensures selectedDate == Some(date)
      ensures events == old(events) && plans == old(plans) && draft == old(draft)
      ensures showEventModal == old(showEventModal)
    {
      selectedDate := Some(date);
    }

    /** The form's `onChange` handlers and the "ADD MISSION" button. */
    method EditDraft(d: Draft)
      modifies this
      ensures draft == d && showEventModal
      ensures selectedDate == old(selectedDate) && events == old(events) && plans == old(plans)
    {
      draft := d;
      showEventModal := true;
    }

    /**
     * `handleCreateEvent`: with a day selected and a non-blank title, save
     * the event, append it to the panel's list, close and clear the form;
     * otherwise nothing changes.
     */
    method CreateEvent(now: nat, createdAt: string)
      modifies this, store
      ensures selectedDate == old(selectedDate) && plans == old(plans)
      ensures !CanCreate(old(selectedDate), old(draft)) ==>
        events == old(events) && draft == old(draft) && showEventModal == old(showEventModal)
        && store.items == old(store.items)
      ensures CanCreate(old(selectedDate), old(draft)) ==>
        var event := EventFromDraft(old(draft), old(selectedDate).value, now, createdAt);
        events == old(events) + [event]
        && store.GetCalendarEvents() == Upsert(old(store.GetCalendarEvents()), EventId, event)
        && store.GetPlans() == old(store.GetPlans())
        && !showEventModal && draft == EMPTY_DRAFT
    {
      if selectedDate.None? || Trim(draft.title) == [] {
        return;
      }
      var event := EventFromDraft(draft, selectedDate.value, now, createdAt);
      store.SaveCalendarEvent(event);
      events := events + [event];
      showEventModal := false;
      draft := EMPTY_DRAFT;
    }

    /** `handleDeleteEvent`: drop every event with the id, from the store and from the panel. */
    method DeleteEvent(id: string)
      modifies this, store
      ensures events == RemoveId(old(events), EventId, id)
      ensures store.GetCalendarEvents() == RemoveId(old(store.GetCalendarEvents()), EventId, id)
      ensures store.GetPlans() == old(store.GetPlans())
      ensures selectedDate == old(selectedDate) && plans == old(plans) && draft == old(draft)
      ensures showEventModal == old(showEventModal)
    {
      store.DeleteCalendarEvent(id);
      events := RemoveId(events, EventId, id);
    }

    /**
     * `generateEventsFromPlan`: one event per schedule item, skipping every
     * id the panel already held when the handler started; a no-op without a
     * plan or a selected day.
     */
    method GenerateEventsFromPlan(currentPlan: Option<DailyPlan>, createdAt: string)
      modifies this, store
      ensures selectedDate == old(selectedDate) && plans == old(plans) && draft == old(draft)
      ensures showEventModal == old(showEventModal)
      ensures currentPlan.None? || old(selectedDate).None? ==>
        events == old(events) && store.items == old(store.items)
      ensures currentPlan.Some? && old(selectedDate).Some? ==>
        var added := NewEvents(currentPlan.value, old(selectedDate).value, createdAt, old(events));
        events == old(events) + added
        && store.GetCalendarEvents() == UpsertAll(old(store.GetCalendarEvents()), EventId, added)
        && store.GetPlans() == old(store.GetPlans())
    {
      if currentPlan.None? || selectedDate.None? {
        return;
      }
      DeployPlan(currentPlan.value, selectedDate.value, createdAt);
    }

    /** The `forEach` over the schedule of a present plan, on a selected day. */
    method DeployPlan(plan: DailyPlan, date: Date, createdAt: string)
      modifies this, store
      ensures events == old(events) + NewEvents(plan, date, createdAt, old(events))
      ensures store.GetCalendarEvents()
        == UpsertAll(old(store.GetCalendarEvents()), EventId, NewEvents(plan, date, createdAt, old(events)))
      ensures store.GetPlans() == old(store.GetPlans())
      ensures selectedDate == old(selectedDate) && plans == old(plans) && draft == old(draft)
      ensures showEventModal == old(showEventModal)
    {
      var existing := events;
      ghost var stored := store.GetCalendarEvents();
      var index := 0;
      while index < |plan.schedule|
        invariant 0 <= index <= |plan.schedule|
        invariant events == existing + NewUpTo(plan, date, createdAt, existing, index)
        invariant store.GetCalendarEvents() == UpsertAll(stored, EventId, NewUpTo(plan, date, createdAt, existing, index))
        invariant store.GetPlans() == old(store.GetPlans())
        invariant selectedDate == old(selectedDate) && plans == old(plans) && draft == old(draft)
        invariant showEventModal == old(showEventModal)
      {
        DeployItem(plan, date, createdAt, existing, index, stored);
        index := index + 1;
      }
      NewUpToIsFilter(plan, date, createdAt, existing, |plan.schedule|);
      assert Candidates(plan, date, createdAt)[..|plan.schedule|] == Candidates(plan, date, createdAt);
    }

    /** Schedule item `index`: the prefix relations of the loop advance by one item. */
    method DeployItem(plan: DailyPlan, date: Date, createdAt: string, existing: seq<CalendarEvent>,
                      index: nat, ghost stored: seq<CalendarEvent>)
      requires index < |plan.schedule|
      requires events == existing + NewUpTo(plan, date, createdAt, existing, index)
      requires store.GetCalendarEvents() == UpsertAll(stored, EventId, NewUpTo(plan, date, createdAt, existing, index))
      modifies this, store
      ensures events == existing + NewUpTo(plan, date, createdAt, existing, index + 1)
      ensures store.GetCalendarEvents() == UpsertAll(stored, EventId, NewUpTo(plan, date, createdAt, existing, index + 1))
      ensures store.GetPlans() == old(store.GetPlans())
      ensures selectedDate == old(selectedDate) && plans == old(plans) && draft == old(draft)
      ensures showEventModal == old(showEventModal)
    {
      var event := GeneratedEvent(plan, index, date, createdAt);
      ghost var before := NewUpTo(plan, date, createdAt, existing, index);
      ghost var after := NewUpTo(plan, date, createdAt, existing, index + 1);
      ghost var upserted := store.GetCalendarEvents();
      AddIfAbsent(event, existing);
      if HasId(existing, EventId, event.id) {
        assert after == before;
      } else {
        assert after == before + [event];
        UpsertAllSnoc(stored, EventId, before, event);
        assert store.GetCalendarEvents() == Upsert(upserted, EventId, event);
      }
    }

    /** One step of the `forEach`: save and append the event unless `existing` holds its id. */
    method AddIfAbsent(event: CalendarEvent, existing: seq<CalendarEvent>)
      modifies this, store
      ensures HasId(existing, EventId, event.id) ==>
        events == old(events) && store.GetCalendarEvents() == old(store.GetCalendarEvents())
      ensures !HasId(existing, EventId, event.id) ==>
        events == old(events) + [event]
        && store.GetCalendarEvents() == Upsert(old(store.GetCalendarEvents()), EventId, event)
      ensures store.GetPlans() == old(store.GetPlans())
      ensures selectedDate == old(selectedDate) && plans == old(plans) && draft == old(draft)
      ensures showEventModal == old(showEventModal)
    {
      var present := HasId(existing, EventId, event.id);
      if !present {
        store.SaveCalendarEvent(event);
        events := events + [event];
      }
    }
  }

  /**
   * When the panel and the store hold the same events, a generation appends
   * the same new events to both: none of them is already stored, and no two
   * of them share an id, so every save is an append.
   */
  lemma GenerationKeepsStoreInStep(plan: DailyPlan, date: Date, createdAt: string, events: seq<CalendarEvent>)
    ensures UpsertAll(events, EventId, NewEvents(plan, date, createdAt, events))
      == events + NewEvents(plan, date, createdAt, events)
  {
    var added := NewEvents(plan, date, createdAt, events);
    CandidateIdsDistinct(plan, date, createdAt);
    FilterKeepsUniqueIds(Candidates(plan, date, createdAt), EventId, AbsentFrom(events));
    forall i | 0 <= i < |added| ensures !HasId(events, EventId, EventId(added[i])) {
      assert AbsentFrom(events)(added[i]);
    }
    UpsertAllFresh(events, EventId, added);
  }
}
