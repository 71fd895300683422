/**
 * The project's analytics page: the events of the chosen time window and
 * four aggregate figures over them. The clock is the parameter `nowMillis`
 * and an event's timestamp is read through the parameter `time`
 * (milliseconds since the epoch).
 */
module AnalyticsPage {
  import opened Base
  import opened Stats
  import Wizards

  const DayMillis := 86_400_000

  datatype Event = Event(
    eventId: string,
    eventType: string,
    eventSubtype: string,
    eventTimestamp: string,
    metricName: string,
    metricValue: real,
    metricUnit: string,
    trendDirection: string)

  /** The length of the window in days: 7, 30 or 90, and 7 for any other value. */
  function RangeDays(range: string): (d: int)
    ensures d in {7, 30, 90}
    ensures range == "30d" <==> d == 30
    ensures range == "90d" <==> d == 90
  {
    if range == "7d" then 7 else if range == "30d" then 30 else if range == "90d" then 90 else 7
  }

  /** The start of the window: `now` moved back by the range's number of days. */
  function WindowStart(nowMillis: int, range: string): (r: int)
    ensures r < nowMillis
  {
    nowMillis - RangeDays(range) * DayMillis
  }

  predicate InWindow(e: Event, start: int, time: string -> int) {
    time(e.eventTimestamp) >= start
  }

  /** The rows the query returns: those at or after the start of the window. */
  function Query(all: seq<Event>, nowMillis: int, range: string, time: string -> int): (r: seq<Event>)
    ensures forall e :: e in r <==> e in all && time(e.eventTimestamp) >= WindowStart(nowMillis, range)
  {
    var start := WindowStart(nowMillis, range);
    Filter(all, (e: Event) => InWindow(e, start, time))
  }

  /** A longer window holds every event a shorter one holds. */
  lemma LongerWindowHoldsMore(all: seq<Event>, nowMillis: int, time: string -> int, e: Event)
    ensures e in Query(all, nowMillis, "7d", time) ==> e in Query(all, nowMillis, "30d", time)
    ensures e in Query(all, nowMillis, "30d", time) ==> e in Query(all, nowMillis, "90d", time)
    ensures Query(all, nowMillis, "1y", time) == Query(all, nowMillis, "7d", time)
  {
  }

  predicate IsGoalEvent(e: Event) {
    e.eventType == "goal_created"
  }

  predicate IsApplicationEvent(e: Event) {
    e.eventType == "application_created"
  }

  function MetricValues(events: seq<Event>): (r: seq<real>)
    ensures |r| == |events|
    ensures forall k | 0 <= k < |r| :: r[k] == events[k].metricValue
  {
    if events == [] then [] else [events[0].metricValue] + MetricValues(events[1..])
  }

  datatype Metrics = Metrics(totalEvents: nat, goalEvents: nat, applicationEvents: nat, avgMetricValue: real)

  const NoMetrics := Metrics(0, 0, 0, 0.0)

  /** The four figures; the average is 0 when there are no events. */
  function Aggregate(events: seq<Event>): (r: Metrics)
    ensures r.totalEvents == |events|
    ensures r.goalEvents == Count(events, IsGoalEvent) && r.applicationEvents == Count(events, IsApplicationEvent)
    ensures r.avgMetricValue == Mean(MetricValues(events))
    ensures events == [] ==> r == NoMetrics
  {
    Metrics(|events|, Count(events, IsGoalEvent), Count(events, IsApplicationEvent), Mean(MetricValues(events)))
  }

  /** Goal and application events are different events: together they are at most the total. */
  lemma CreatedEventsWithinTotal(events: seq<Event>)
    ensures Aggregate(events).goalEvents + Aggregate(events).applicationEvents <= Aggregate(events).totalEvents
  {
    CountDisjoint(events, IsGoalEvent, IsApplicationEvent);
  }

  /** The average lies between the smallest and the largest metric value that can occur. */
  lemma AverageWithinValues(events: seq<Event>, lo: real, hi: real)
    requires forall k | 0 <= k < |events| :: lo <= events[k].metricValue <= hi
    ensures events != [] ==> lo <= Aggregate(events).avgMetricValue <= hi
  {
    MeanBounds(MetricValues(events), lo, hi);
  }

  /** The row an analytics event written by a wizard becomes. */
  function Recorded(id: string, timestamp: string, w: Wizards.AnalyticsEvent): Event {
    Event(id, w.eventType, w.eventSubtype, timestamp, w.metricName, w.metricValue, "", "")
  }

  /**
   * When every event in the window was written by a goal or an application
   * create, the two counts add up to the total and the average is 1.
   */
  lemma OnlyCreatesAverageOne(events: seq<Event>)
    requires forall k | 0 <= k < |events| :: (IsGoalEvent(events[k]) || IsApplicationEvent(events[k])) && events[k].metricValue == 1.0
    ensures Aggregate(events).goalEvents + Aggregate(events).applicationEvents == |events|
    ensures events != [] ==> Aggregate(events).avgMetricValue == 1.0
  {
    AllCreatesCounted(events);
    MeanBounds(MetricValues(events), 1.0, 1.0);
  }

  lemma {:induction false} AllCreatesCounted(events: seq<Event>)
    requires forall k | 0 <= k < |events| :: IsGoalEvent(events[k]) || IsApplicationEvent(events[k])
    ensures Count(events, IsGoalEvent) + Count(events, IsApplicationEvent) == |events|
  {
    if events != [] {
      AllCreatesCounted(events[1..]);
    }
  }

  /** `eventTypeColors[event_type] || eventTypeColors.default`. */
  function TypeColor(eventType: string): (r: string)
    ensures eventType != "goal_created" && eventType != "application_created" ==> r == "gray"
  {
    if eventType == "goal_created" then "blue" else if eventType == "application_created" then "green" else "gray"
  }

  /** The two create events the wizards write are told apart by colour. */
  lemma WizardEventsColoured()
    ensures TypeColor(Wizards.AnalyticsEvent("goal_created", "create", "goal_count", 1.0).eventType) == "blue"
    ensures TypeColor("application_created") == "green"
    ensures TypeColor("goal_created") != TypeColor("application_created")
  {
  }

  /** The page state: the chosen range, the events shown and the figures. */
  class AnalyticsView {
    var timeRange: string
    var events: seq<Event>
    var metrics: Metrics

    /** The figures shown are always those of the events shown. */
    predicate Valid()
      reads this
    {
      metrics == Aggregate(events)
    }

    constructor()
      ensures Valid()
      ensures timeRange == "7d" && events == [] && metrics == NoMetrics
    {
      timeRange, events, metrics := "7d", [], NoMetrics;
    }

    /** A range button. */
    method SetRange(range: string)
      requires Valid()
      modifies this
      ensures Valid()
      ensures timeRange == range && events == old(events) && metrics == old(metrics)
    {
      timeRange := range;
    }

    /**
     * `fetchAnalytics`: a successful fetch replaces the events and the
     * figures together; a failed one (`None`) leaves both as they were.
     */
    method Refresh(fetched: Option<seq<Event>>)
      requires Valid()
      modifies this
      ensures Valid()
      ensures timeRange == old(timeRange)
      ensures fetched.Some? ==> events == fetched.value && metrics == Aggregate(fetched.value)
      ensures fetched.None? ==> events == old(events) && metrics == old(metrics)
    {
      if fetched.Some? {
        events := fetched.value;
        metrics := Aggregate(events);
      }
    }
  }
}
