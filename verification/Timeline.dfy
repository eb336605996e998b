/** The cluster timeline: which rows a scrape creates, re-opens and closes (`reconcileOngoing`,
    `readOpenConditions` and `recordEvents` in pocketbase/pb_hooks/lib/cluster-events.js, called
    from `scrapeOnce` in lib/node-metrics.js). A row's id is its position: rows are never
    deleted. Times are seconds. */
module Timeline {
  import opened Options
  import opened Observations

  datatype Source = Detector | Manual | Action

  datatype Row = Row(source: Source, what: Event, occurred: int, ended: Option<int>, count: nat)

  const FLAP_WINDOW_SEC := 1800

  // ---- reading the open and recently closed conditions ----------------------------------

  datatype OpenRow = OpenRow(id: nat, cond: Condition, ended: Option<int>, count: nat)

  predicate Readable(row: Row, cutoff: int) {
    && row.source == Detector
    && ConditionOf(row.what).Some?
    && (row.ended.None? || row.ended.value >= cutoff)
  }

  /** Newest first. */
  function ReadOpen(rows: seq<Row>, cutoff: int): seq<OpenRow> {
    if rows == [] then []
    else
      var last := rows[|rows| - 1];
      (if Readable(last, cutoff)
       then [OpenRow(|rows| - 1, ConditionOf(last.what).value, last.ended, last.count)] else [])
      + ReadOpen(rows[..|rows| - 1], cutoff)
  }

  // ---- the plan -------------------------------------------------------------------------

  type ByCondition = map<Condition, OpenRow>

  function OpenOf(list: seq<OpenRow>): ByCondition {
    if list == [] then map[]
    else
      var row := list[|list| - 1];
      var rest := OpenOf(list[..|list| - 1]);
      if row.ended.None? then rest[row.cond := row] else rest
  }

  /** The most recently closed row of each condition. */
  function RecentOf(list: seq<OpenRow>): ByCondition {
    if list == [] then map[]
    else
      var row := list[|list| - 1];
      var rest := RecentOf(list[..|list| - 1]);
      if row.ended.Some?
          && (row.cond !in rest || rest[row.cond].ended.None? || row.ended.value > rest[row.cond].ended.value)
      then rest[row.cond := row] else rest
  }

  datatype Reopen = Reopen(id: nat, count: nat)

  /** `closes` is a set: the order of the closes makes no difference. */
  datatype Plan = Plan(creates: seq<Event>, reopens: seq<Reopen>, closes: set<nat>)

  function Closes(open: ByCondition, cur: seq<Observation>, failed: set<Node>): set<nat> {
    set c | c in open && ActivityAt(c, cur, failed) == Over :: open[c].id
  }

  datatype Routed = Routed(creates: seq<Event>, reopens: seq<Reopen>, recent: ByCondition)

  function Bump(count: nat): nat {
    (if count == 0 then 1 else count) + 1
  }

  function RouteOne(r: Routed, e: Event, open: ByCondition): Routed {
    match ConditionOf(e)
    case None => r.(creates := r.creates + [e])
    case Some(c) =>
      if c in open then r
      else if c in r.recent then
        r.(reopens := r.reopens + [Reopen(r.recent[c].id, Bump(r.recent[c].count))], recent := r.recent - {c})
      else r.(creates := r.creates + [e])
  }

  function Route(events: seq<Event>, open: ByCondition, recent: ByCondition): Routed {
    if events == [] then Routed([], [], recent)
    else RouteOne(Route(events[..|events| - 1], open, recent), events[|events| - 1], open)
  }

  function Reconcile(events: seq<Event>, cur: seq<Observation>, openRows: seq<OpenRow>, failed: set<Node>): Plan {
    var open := OpenOf(openRows);
    var routed := Route(events, open, RecentOf(openRows));
    Plan(routed.creates, routed.reopens, Closes(open, cur, failed))
  }

  // ---- applying it ----------------------------------------------------------------------

  function CloseRows(rows: seq<Row>, closes: set<nat>, t: int): seq<Row> {
    seq(|rows|, i requires 0 <= i < |rows| => if i in closes then rows[i].(ended := Some(t)) else rows[i])
  }

  function ReopenRows(rows: seq<Row>, reopens: seq<Reopen>): seq<Row> {
    if reopens == [] then rows
    else
      var done, r := ReopenRows(rows, reopens[..|reopens| - 1]), reopens[|reopens| - 1];
      if r.id < |done| then done[r.id := done[r.id].(ended := None, count := r.count)] else done
  }

  /** An event without a duration starts and ends at `t`; a condition starts then and is still
      running, for the first time. */
  function NewRow(e: Event, t: int): Row {
    Row(Detector, e, t, if ConditionOf(e).Some? then None else Some(t), if ConditionOf(e).Some? then 1 else 0)
  }

  function CreateRows(creates: seq<Event>, t: int): seq<Row> {
    seq(|creates|, i requires 0 <= i < |creates| => NewRow(creates[i], t))
  }

  function Apply(rows: seq<Row>, plan: Plan, t: int): seq<Row> {
    ReopenRows(CloseRows(rows, plan.closes, t), plan.reopens) + CreateRows(plan.creates, t)
  }

  /** One scrape: `prev` and `cur` are the previous and current observations, `failed` the nodes
      whose row could not be written, `now` the clock when the open rows are read and `t` the
      instant stamped on every row the scrape touches. */
  datatype Scrape = Scrape(prev: seq<Observation>, cur: seq<Observation>, failed: set<Node>, now: int, t: int)

  function Detected(s: Scrape): seq<Event> {
    if s.prev == [] then [] else Diff(s.prev, s.cur, s.failed)
  }

  function PlanOf(rows: seq<Row>, s: Scrape): Plan {
    Reconcile(Detected(s), s.cur, ReadOpen(rows, s.now - FLAP_WINDOW_SEC), s.failed)
  }

  function AfterScrape(rows: seq<Row>, s: Scrape): seq<Row> {
    if s.cur == [] then rows else Apply(rows, PlanOf(rows, s), s.t)
  }

  /** What is written of a plan when a save throws: the closes come first, in any order, then the
      re-opens, then the creates. The scrape catches the error and commits what was written. */
  ghost predicate PartOf(done: Plan, plan: Plan) {
    && done.closes <= plan.closes && done.reopens <= plan.reopens && done.creates <= plan.creates
    && (done.reopens != [] ==> done.closes == plan.closes)
    && (done.creates != [] ==> done.closes == plan.closes && done.reopens == plan.reopens)
  }

  // ---- what a reader sees (webapp/src/lib/cluster-timeline.ts) --------------------------

  datatype Status = IsInstant | IsOngoing | IsResolved

  function EventStatus(row: Row): Status {
    if row.ended.None? then IsOngoing
    else if row.ended.value > row.occurred then IsResolved else IsInstant
  }
}
