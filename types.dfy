/**
 * The records shared by the planner, the calendar and local storage
 * (src/types/index.ts).  All string-valued fields stay strings; calendar
 * event dates are held as a calendar day rather than an ISO timestamp.
 */
module Types {

  /** A value that may be absent (`null`, `undefined` or an empty marker in the source). */
  datatype Option<T> = None | Some(value: T)

  /** A calendar day. `month` counts from 0 (January) as `Date.getMonth()` does. */
  datatype Date = Date(year: int, month: int, day: int)

  datatype Priority = Critical | High | Standard

  datatype ScheduleItem = ScheduleItem(time: string, task: string, priority: Priority)

  datatype DailyPlan = DailyPlan(
    id: string,
    date: string,
    prompt: string,
    schedule: seq<ScheduleItem>,
    goals: seq<string>,
    journalPrompt: string,
    journalEntry: string,
    createdAt: string)

  /** A calendar entry; `isGenerated` is false where the source leaves the flag out. */
  datatype CalendarEvent = CalendarEvent(
    id: string,
    title: string,
    description: string,
    date: Date,
    time: string,
    priority: Priority,
    createdAt: string,
    isGenerated: bool)

  function PlanId(p: DailyPlan): string {
    p.id
  }

  function EventId(e: CalendarEvent): string {
    e.id
  }
}
