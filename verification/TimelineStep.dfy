/** One scrape, row by row: the plan of the reconciliation, applied, is the same as deciding for
    every row on its own and appending the events that no readable row already covers. */
module TimelineStep {
  import opened Options
  import opened Sums
  import opened Observations
  import opened Timeline

  // ---- the invariant every scrape keeps -------------------------------------------------

  predicate CondRow(row: Row, c: Condition) {
    row.source == Detector && ConditionOf(row.what) == Some(c)
  }

  ghost predicate RowSound(row: Row, last: int) {
    row.source == Detector ==>
      && row.occurred <= last
      && (row.ended.Some? ==> row.occurred <= row.ended.value <= last)
      && (if ConditionOf(row.what).Some? then row.count >= 1 && (row.ended.Some? ==> row.occurred < row.ended.value)
          else row.count == 0 && row.ended == Some(row.occurred))
  }

  /** Two incidents of one condition never meet: the earlier one ended more than the flap window
      before the later one started. In particular at most one row of a condition is open. */
  ghost predicate Separated(rows: seq<Row>) {
    forall i, j, c :: 0 <= i < j < |rows| && CondRow(rows[i], c) && CondRow(rows[j], c) ==>
      rows[i].ended.Some? && rows[j].occurred > rows[i].ended.value + FLAP_WINDOW_SEC
  }

  ghost predicate Sound(rows: seq<Row>, last: int) {
    (forall i :: 0 <= i < |rows| ==> RowSound(rows[i], last)) && Separated(rows)
  }

  /** One observation per node, a node either recorded or failed, and a clock that moves on. */
  ghost predicate ValidScrape(s: Scrape, last: int) {
    && OnePerNode(s.prev) && OnePerNode(s.cur)
    && (forall x :: x in s.cur ==> x.node !in s.failed)
    && last < s.now <= s.t
  }

  // ---- deciding row by row --------------------------------------------------------------

  predicate OpensAt(s: Scrape, c: Condition) {
    Opening(s.prev, s.cur, s.failed, c)
  }

  /** What the scrape does to one existing row. */
  function NextRow(row: Row, s: Scrape): Row {
    if row.source != Detector || ConditionOf(row.what).None? then row
    else
      var c := ConditionOf(row.what).value;
      if row.ended.None? then
        if ActivityAt(c, s.cur, s.failed) == Over then row.(ended := Some(s.t)) else row
      else if row.ended.value < s.now - FLAP_WINDOW_SEC || !OpensAt(s, c) then row
      else row.(ended := None, count := row.count + 1)
  }

  /** Some row of `c` is open, or closed within the flap window. */
  predicate Covered(rows: seq<Row>, cutoff: int, c: Condition) {
    exists i :: 0 <= i < |rows| && CondRow(rows[i], c) && Readable(rows[i], cutoff)
  }

  function Fresh(rows: seq<Row>, cutoff: int): Event -> bool {
    (e: Event) => ConditionOf(e).None? || !Covered(rows, cutoff, ConditionOf(e).value)
  }

  function FreshEvents(rows: seq<Row>, s: Scrape): seq<Event> {
    Filter(Detected(s), Fresh(rows, s.now - FLAP_WINDOW_SEC))
  }

  function NextRows(rows: seq<Row>, s: Scrape): seq<Row> {
    seq(|rows|, i requires 0 <= i < |rows| => NextRow(rows[i], s))
    + CreateRows(FreshEvents(rows, s), s.t)
  }

  // ---- what the reader returns ----------------------------------------------------------

  function View(rows: seq<Row>, i: nat): OpenRow
    requires i < |rows| && ConditionOf(rows[i].what).Some?
  {
    OpenRow(i, ConditionOf(rows[i].what).value, rows[i].ended, rows[i].count)
  }

  lemma {:induction false} ReadOpenMembers(rows: seq<Row>, cutoff: int)
    ensures
      forall x :: x in ReadOpen(rows, cutoff) ==>
        x.id < |rows| && Readable(rows[x.id], cutoff) && x == View(rows, x.id)
    ensures forall i :: 0 <= i < |rows| && Readable(rows[i], cutoff) ==> View(rows, i) in ReadOpen(rows, cutoff)
  {
    if rows != [] {
      var rest := rows[..|rows| - 1];
      ReadOpenMembers(rest, cutoff);
      forall i | 0 <= i < |rows| && Readable(rows[i], cutoff) ensures View(rows, i) in ReadOpen(rows, cutoff) {
        if i < |rest| { assert View(rest, i) in ReadOpen(rest, cutoff); }
      }
    }
  }

  lemma {:induction false} OpenOfMembers(list: seq<OpenRow>)
    ensures
      forall c :: c in OpenOf(list) ==>
        OpenOf(list)[c] in list && OpenOf(list)[c].cond == c && OpenOf(list)[c].ended.None?
    ensures forall x :: x in list && x.ended.None? ==> x.cond in OpenOf(list)
  {
    if list != [] {
      OpenOfMembers(list[..|list| - 1]);
      assert list == list[..|list| - 1] + [list[|list| - 1]];
    }
  }

  lemma {:induction false} RecentOfMembers(list: seq<OpenRow>)
    ensures
      forall c :: c in RecentOf(list) ==>
        RecentOf(list)[c] in list && RecentOf(list)[c].cond == c && RecentOf(list)[c].ended.Some?
    ensures forall x :: x in list && x.ended.Some? ==> x.cond in RecentOf(list)
  {
    if list != [] {
      RecentOfMembers(list[..|list| - 1]);
      assert list == list[..|list| - 1] + [list[|list| - 1]];
    }
  }

  /** The reader hands the rows on newest first. */
  lemma {:induction false} ReadOpenNewestFirst(rows: seq<Row>, cutoff: int)
    ensures
      forall i, j :: 0 <= i < j < |ReadOpen(rows, cutoff)| ==>
        ReadOpen(rows, cutoff)[j].id < ReadOpen(rows, cutoff)[i].id
  {
    if rows != [] {
      ReadOpenNewestFirst(rows[..|rows| - 1], cutoff);
      ReadOpenMembers(rows[..|rows| - 1], cutoff);
    }
  }

  /** Of the closed rows of a condition the one that ended last is held for re-opening. */
  lemma {:induction false} RecentEndedLast(list: seq<OpenRow>, x: OpenRow)
    requires x in list && x.ended.Some?
    ensures x.cond in RecentOf(list) && RecentOf(list)[x.cond].ended.Some?
    ensures x.ended.value <= RecentOf(list)[x.cond].ended.value
  {
    var rest, last := list[..|list| - 1], list[|list| - 1];
    RecentOfMembers(list);
    RecentOfMembers(rest);
    assert list == rest + [last];
    if x in rest { RecentEndedLast(rest, x); }
  }

  // ---- at most one readable row of a condition ------------------------------------------

  lemma OneReadable(rows: seq<Row>, last: int, now: int, c: Condition, i: nat, j: nat)
    requires Sound(rows, last) && last < now && i < |rows| && j < |rows|
    requires CondRow(rows[i], c) && Readable(rows[i], now - FLAP_WINDOW_SEC)
    requires CondRow(rows[j], c) && Readable(rows[j], now - FLAP_WINDOW_SEC)
    ensures i == j
  {
    assert RowSound(rows[i], last) && RowSound(rows[j], last);
  }

  /** The reader's two maps hold, for each condition, its one readable row. */
  lemma ReadableRow(rows: seq<Row>, last: int, now: int, c: Condition, i: nat)
    requires Sound(rows, last) && last < now && i < |rows|
    requires CondRow(rows[i], c) && Readable(rows[i], now - FLAP_WINDOW_SEC)
    ensures var list := ReadOpen(rows, now - FLAP_WINDOW_SEC);
      if rows[i].ended.None? then c in OpenOf(list) && OpenOf(list)[c] == View(rows, i) && c !in RecentOf(list)
      else c in RecentOf(list) && RecentOf(list)[c] == View(rows, i) && c !in OpenOf(list)
  {
    var cutoff := now - FLAP_WINDOW_SEC;
    var list := ReadOpen(rows, cutoff);
    ReadOpenMembers(rows, cutoff);
    OpenOfMembers(list);
    RecentOfMembers(list);
    assert View(rows, i) in list;
    if c in OpenOf(list) { OneReadable(rows, last, now, c, i, OpenOf(list)[c].id); }
    if c in RecentOf(list) { OneReadable(rows, last, now, c, i, RecentOf(list)[c].id); }
  }

  lemma NoReadableRow(rows: seq<Row>, cutoff: int, c: Condition)
    requires !Covered(rows, cutoff, c)
    ensures c !in OpenOf(ReadOpen(rows, cutoff)) && c !in RecentOf(ReadOpen(rows, cutoff))
  {
    var list := ReadOpen(rows, cutoff);
    ReadOpenMembers(rows, cutoff);
    OpenOfMembers(list);
    RecentOfMembers(list);
  }

  // ---- routing the events ---------------------------------------------------------------

  lemma DetectedOpens(s: Scrape, c: Condition)
    requires OnePerNode(s.prev) && OnePerNode(s.cur)
    ensures Count(Detected(s), Opens(c)) == if OpensAt(s, c) then 1 else 0
  {
    if s.prev == [] { FilterNone([], Opens(c)); } else { DiffOpens(s.prev, s.cur, s.failed, c); }
  }

  function Kept(open: ByCondition, recent: ByCondition): Event -> bool {
    (e: Event) => ConditionOf(e).None? || (ConditionOf(e).value !in open && ConditionOf(e).value !in recent)
  }

  predicate Reopened(events: seq<Event>, open: ByCondition, recent: ByCondition, c: Condition) {
    c in recent && c !in open && Count(events, Opens(c)) >= 1
  }

  /** One opening event per condition: what the loop over the events ends up with. */
  ghost predicate RoutedRight(r: Routed, events: seq<Event>, open: ByCondition, recent: ByCondition) {
    && r.creates == Filter(events, Kept(open, recent))
    && (forall c :: c in r.recent <==> c in recent && !Reopened(events, open, recent, c))
    && (forall c :: c in r.recent ==> r.recent[c] == recent[c])
    && (forall c :: Reopened(events, open, recent, c) ==> Reopen(recent[c].id, Bump(recent[c].count)) in r.reopens)
    && (forall x :: x in r.reopens ==>
          exists c :: Reopened(events, open, recent, c) && x == Reopen(recent[c].id, Bump(recent[c].count)))
  }

  lemma {:induction false} RouteIs(events: seq<Event>, open: ByCondition, recent: ByCondition)
    requires forall c :: Count(events, Opens(c)) <= 1
    ensures RoutedRight(Route(events, open, recent), events, open, recent)
  {
    if events == [] {
      forall c ensures Count(events, Opens(c)) == 0 { FilterNone(events, Opens(c)); }
      FilterNone(events, Kept(open, recent));
    } else {
      var rest, e := events[..|events| - 1], events[|events| - 1];
      assert events == rest + [e];
      forall c ensures Count(events, Opens(c)) == Count(rest, Opens(c)) + if Opens(c)(e) then 1 else 0 {
        FilterSnoc(rest, e, Opens(c));
      }
      FilterSnoc(rest, e, Kept(open, recent));
      RouteIs(rest, open, recent);
      RouteStep(Route(rest, open, recent), rest, e, open, recent);
    }
  }

  lemma {:induction false} RouteStep(r: Routed, rest: seq<Event>, e: Event, open: ByCondition, recent: ByCondition)
    requires RoutedRight(r, rest, open, recent)
    requires forall c :: Count(rest + [e], Opens(c)) <= 1
    requires forall c :: Count(rest + [e], Opens(c)) == Count(rest, Opens(c)) + if Opens(c)(e) then 1 else 0
    requires Filter(rest + [e], Kept(open, recent))
        == if Kept(open, recent)(e) then Filter(rest, Kept(open, recent)) + [e] else Filter(rest, Kept(open, recent))
    ensures RoutedRight(RouteOne(r, e, open), rest + [e], open, recent)
  {
    hide Filter, Count, Reopened;
    var r', events := RouteOne(r, e, open), rest + [e];
    forall c
      ensures Reopened(events, open, recent, c)
         <==> Reopened(rest, open, recent, c) || (Opens(c)(e) && c in recent && c !in open)
    {
      ReopenedStep(rest, e, open, recent, c);
    }
    ReopenedIsRecent(rest, open, recent);
    ReopenedIsRecent(events, open, recent);
    if ConditionOf(e).Some? {
      NotYetReopened(rest, e, open, recent, ConditionOf(e).value);
      assert Opens(ConditionOf(e).value)(e);
    }
    forall x | x in r'.reopens
      ensures exists c :: Reopened(events, open, recent, c) && x == Reopen(recent[c].id, Bump(recent[c].count))
    {
      if x in r.reopens {
        var c :| Reopened(rest, open, recent, c) && x == Reopen(recent[c].id, Bump(recent[c].count));
        assert Reopened(events, open, recent, c);
      } else {
        var c := ConditionOf(e).value;
        assert Reopened(events, open, recent, c);
      }
    }
  }

  lemma ReopenedIsRecent(events: seq<Event>, open: ByCondition, recent: ByCondition)
    ensures forall c :: Reopened(events, open, recent, c) ==> c in recent && c !in open
  {
    hide Count;
  }

  lemma ReopenedStep(rest: seq<Event>, e: Event, open: ByCondition, recent: ByCondition, c: Condition)
    requires Count(rest + [e], Opens(c)) == Count(rest, Opens(c)) + if Opens(c)(e) then 1 else 0
    ensures Reopened(rest + [e], open, recent, c)
        <==> Reopened(rest, open, recent, c) || (Opens(c)(e) && c in recent && c !in open)
  {
    hide Filter;
  }

  /** The condition of an event that opens it once has not been re-opened before. */
  lemma NotYetReopened(rest: seq<Event>, e: Event, open: ByCondition, recent: ByCondition, c: Condition)
    requires ConditionOf(e) == Some(c) && Count(rest + [e], Opens(c)) <= 1
    requires Count(rest + [e], Opens(c)) == Count(rest, Opens(c)) + if Opens(c)(e) then 1 else 0
    ensures !Reopened(rest, open, recent, c)
  {
    hide Filter;
  }

  // ---- closing and re-opening one row ---------------------------------------------------

  lemma {:induction false} ReopenAt(rows: seq<Row>, reopens: seq<Reopen>, i: nat)
    requires i < |rows|
    requires forall x, y :: x in reopens && y in reopens && x.id == y.id ==> x.count == y.count
    ensures |ReopenRows(rows, reopens)| == |rows|
    ensures (forall x :: x in reopens ==> x.id != i) ==> ReopenRows(rows, reopens)[i] == rows[i]
    ensures
      forall x :: x in reopens && x.id == i ==>
        ReopenRows(rows, reopens)[i] == rows[i].(ended := None, count := x.count)
  {
    if reopens != [] {
      var rest, r := reopens[..|reopens| - 1], reopens[|reopens| - 1];
      assert reopens == rest + [r];
      ReopenAt(rows, rest, i);
    }
  }

  lemma {:induction false} ReopenLength(rows: seq<Row>, reopens: seq<Reopen>)
    ensures |ReopenRows(rows, reopens)| == |rows|
  {
    if reopens != [] { ReopenLength(rows, reopens[..|reopens| - 1]); }
  }

  lemma {:induction false} ClosesAre(rows: seq<Row>, last: int, s: Scrape, i: nat)
    requires Sound(rows, last) && ValidScrape(s, last) && i < |rows|
    ensures var open := OpenOf(ReadOpen(rows, s.now - FLAP_WINDOW_SEC));
      i in Closes(open, s.cur, s.failed)
      <==> rows[i].source == Detector && ConditionOf(rows[i].what).Some? && rows[i].ended.None?
           && ActivityAt(ConditionOf(rows[i].what).value, s.cur, s.failed) == Over
  {
    hide Sound, ValidScrape, ReadOpen, OpenOf, RecentOf, ActivityAt;
    var cutoff := s.now - FLAP_WINDOW_SEC;
    var list := ReadOpen(rows, cutoff);
    var open := OpenOf(list);
    ReadOpenMembers(rows, cutoff);
    OpenOfMembers(list);
    if i in Closes(open, s.cur, s.failed) {
      var c :| c in open && ActivityAt(c, s.cur, s.failed) == Over && open[c].id == i;
      assert open[c] in list && open[c] == View(rows, i);
    }
    if Readable(rows[i], cutoff) && rows[i].ended.None? {
      var c := ConditionOf(rows[i].what).value;
      OpenIsView(rows, last, s, i);
      assert open[c].id == i;
    }
  }

  lemma OpenIsView(rows: seq<Row>, last: int, s: Scrape, i: nat)
    requires Sound(rows, last) && ValidScrape(s, last) && i < |rows|
    requires Readable(rows[i], s.now - FLAP_WINDOW_SEC) && rows[i].ended.None?
    ensures var c, open := ConditionOf(rows[i].what).value, OpenOf(ReadOpen(rows, s.now - FLAP_WINDOW_SEC));
      c in open && open[c] == View(rows, i)
  {
    hide Sound, ReadOpen, OpenOf, RecentOf, OnePerNode;
    ReadableRow(rows, last, s.now, ConditionOf(rows[i].what).value, i);
  }

  /** The maps and the routed events of one scrape. */
  lemma ScrapeRouted(rows: seq<Row>, s: Scrape)
    requires OnePerNode(s.prev) && OnePerNode(s.cur)
    ensures var list := ReadOpen(rows, s.now - FLAP_WINDOW_SEC);
      RoutedRight(Route(Detected(s), OpenOf(list), RecentOf(list)), Detected(s), OpenOf(list), RecentOf(list))
    ensures forall c :: Count(Detected(s), Opens(c)) == if OpensAt(s, c) then 1 else 0
  {
    hide ReadOpen, OpenOf, RecentOf, Route, RoutedRight, OpensAt, Detected, Count;
    forall c { DetectedOpens(s, c); }
    var list := ReadOpen(rows, s.now - FLAP_WINDOW_SEC);
    RouteIs(Detected(s), OpenOf(list), RecentOf(list));
  }

  /** A reopen in the plan bumps a closed readable row of a condition that opens now. */
  lemma {:induction false} ReopensAre(rows: seq<Row>, s: Scrape, x: Reopen)
    requires OnePerNode(s.prev) && OnePerNode(s.cur)
    requires x in PlanOf(rows, s).reopens
    ensures x.id < |rows| && Readable(rows[x.id], s.now - FLAP_WINDOW_SEC) && rows[x.id].ended.Some?
    ensures OpensAt(s, ConditionOf(rows[x.id].what).value) && x.count == Bump(rows[x.id].count)
  {
    hide ReadOpen, OpenOf, RecentOf, Route, Filter, Detected, Closes, OpensAt;
    var list := ReadOpen(rows, s.now - FLAP_WINDOW_SEC);
    var events, open, recent := Detected(s), OpenOf(list), RecentOf(list);
    forall c { DetectedOpens(s, c); }
    RouteIs(events, open, recent);
    var c :| Reopened(events, open, recent, c) && x == Reopen(recent[c].id, Bump(recent[c].count));
    ReadOpenMembers(rows, s.now - FLAP_WINDOW_SEC);
    RecentOfMembers(list);
    assert recent[c] == View(rows, x.id);
  }

  lemma {:induction false} ReopensCover(rows: seq<Row>, last: int, s: Scrape, i: nat)
    requires Sound(rows, last) && ValidScrape(s, last) && i < |rows|
    requires Readable(rows[i], s.now - FLAP_WINDOW_SEC) && rows[i].ended.Some?
    requires OpensAt(s, ConditionOf(rows[i].what).value)
    ensures Reopen(i, Bump(rows[i].count)) in PlanOf(rows, s).reopens
  {
    hide ReadOpen, OpenOf, RecentOf, Route, Count, Sound, OpensAt, Detected, Closes;
    var list := ReadOpen(rows, s.now - FLAP_WINDOW_SEC);
    var c := ConditionOf(rows[i].what).value;
    ScrapeRouted(rows, s);
    RecentIsView(rows, last, s, i);
    assert Reopened(Detected(s), OpenOf(list), RecentOf(list), c);
  }

  lemma RecentIsView(rows: seq<Row>, last: int, s: Scrape, i: nat)
    requires Sound(rows, last) && ValidScrape(s, last) && i < |rows|
    requires Readable(rows[i], s.now - FLAP_WINDOW_SEC) && rows[i].ended.Some?
    ensures ConditionOf(rows[i].what).Some?
    ensures var c, list := ConditionOf(rows[i].what).value, ReadOpen(rows, s.now - FLAP_WINDOW_SEC);
      c in RecentOf(list) && c !in OpenOf(list) && RecentOf(list)[c] == View(rows, i)
  {
    hide Sound, ReadOpen, OpenOf, RecentOf, OnePerNode;
    ReadableRow(rows, last, s.now, ConditionOf(rows[i].what).value, i);
  }

  /** The plan passes over exactly the events some readable row covers. */
  lemma KeptIsFresh(rows: seq<Row>, last: int, s: Scrape, e: Event)
    requires Sound(rows, last) && ValidScrape(s, last)
    ensures var list := ReadOpen(rows, s.now - FLAP_WINDOW_SEC);
      Kept(OpenOf(list), RecentOf(list))(e) == Fresh(rows, s.now - FLAP_WINDOW_SEC)(e)
  {
    hide ReadOpen, OpenOf, RecentOf, Sound;
    if ConditionOf(e).Some? {
      var c, cutoff := ConditionOf(e).value, s.now - FLAP_WINDOW_SEC;
      if Covered(rows, cutoff, c) {
        var i :| 0 <= i < |rows| && CondRow(rows[i], c) && Readable(rows[i], cutoff);
        ReadableRow(rows, last, s.now, c, i);
      } else {
        NoReadableRow(rows, cutoff, c);
      }
    }
  }

  lemma CreatesAre(rows: seq<Row>, last: int, s: Scrape)
    requires Sound(rows, last) && ValidScrape(s, last)
    ensures PlanOf(rows, s).creates == FreshEvents(rows, s)
  {
    hide ReadOpen, OpenOf, RecentOf, Route, Filter, Sound, Kept, Fresh, Detected, Closes;
    var list := ReadOpen(rows, s.now - FLAP_WINDOW_SEC);
    ScrapeRouted(rows, s);
    forall e | e in Detected(s)
      ensures Kept(OpenOf(list), RecentOf(list))(e) == Fresh(rows, s.now - FLAP_WINDOW_SEC)(e)
    {
      KeptIsFresh(rows, last, s, e);
    }
    FilterCongruent(Detected(s), Kept(OpenOf(list), RecentOf(list)), Fresh(rows, s.now - FLAP_WINDOW_SEC));
  }

  lemma RowIs(rows: seq<Row>, last: int, s: Scrape, i: nat)
    requires Sound(rows, last) && ValidScrape(s, last) && i < |rows|
    ensures var plan := PlanOf(rows, s);
      var after := ReopenRows(CloseRows(rows, plan.closes, s.t), plan.reopens);
      |after| == |rows| && after[i] == NextRow(rows[i], s)
  {
    hide ReadOpen, Reconcile, ReopenRows, Separated, ActivityAt, OpensAt;
    var plan := PlanOf(rows, s);
    forall x | x in plan.reopens
      ensures x.id < |rows| && Readable(rows[x.id], s.now - FLAP_WINDOW_SEC) && rows[x.id].ended.Some?
      ensures OpensAt(s, ConditionOf(rows[x.id].what).value) && x.count == Bump(rows[x.id].count)
    {
      ReopensAre(rows, s, x);
    }
    ReopenAt(CloseRows(rows, plan.closes, s.t), plan.reopens, i);
    PlanCloses(rows, last, s, i);
    assert RowSound(rows[i], last);
    if Readable(rows[i], s.now - FLAP_WINDOW_SEC) && rows[i].ended.Some?
        && OpensAt(s, ConditionOf(rows[i].what).value) {
      ReopensCover(rows, last, s, i);
    }
  }

  lemma {:induction false} PlanCloses(rows: seq<Row>, last: int, s: Scrape, i: nat)
    requires Sound(rows, last) && ValidScrape(s, last) && i < |rows|
    ensures i in PlanOf(rows, s).closes
      <==> rows[i].source == Detector && ConditionOf(rows[i].what).Some? && rows[i].ended.None?
           && ActivityAt(ConditionOf(rows[i].what).value, s.cur, s.failed) == Over
  {
    hide Route, Closes, Sound, Detected, ReadOpen, OpenOf, RecentOf, ActivityAt, ValidScrape;
    ClosesAre(rows, last, s, i);
  }

  /** The whole pipeline of one scrape is the row-by-row rule. */
  lemma {:induction false} ScrapeIs(rows: seq<Row>, last: int, s: Scrape)
    requires Sound(rows, last) && ValidScrape(s, last) && s.cur != []
    ensures AfterScrape(rows, s) == NextRows(rows, s)
  {
    hide ReadOpen, Reconcile, ReopenRows, Sound, NextRow, FreshEvents, Detected, CloseRows, ValidScrape;
    var plan := PlanOf(rows, s);
    var after := ReopenRows(CloseRows(rows, plan.closes, s.t), plan.reopens);
    CloseLength(rows, plan.closes, s.t);
    ReopenLength(CloseRows(rows, plan.closes, s.t), plan.reopens);
    forall i | 0 <= i < |rows| ensures after[i] == NextRow(rows[i], s) { RowIs(rows, last, s, i); }
    CreatesAre(rows, last, s);
    assert after == seq(|rows|, i requires 0 <= i < |rows| => NextRow(rows[i], s));
  }

  lemma CloseLength(rows: seq<Row>, closes: set<nat>, t: int)
    ensures |CloseRows(rows, closes, t)| == |rows|
  { }

  // ---- a plan written in part -----------------------------------------------------------

  /** Each old row is as it was or as the scrape leaves it, and the new rows are the first of the
      scrape's. */
  ghost predicate Partly(rows: seq<Row>, s: Scrape, rows': seq<Row>) {
    && |rows| <= |rows'| <= |NextRows(rows, s)|
    && (forall i :: 0 <= i < |rows| ==> rows'[i] == rows[i] || rows'[i] == NextRow(rows[i], s))
    && (forall i :: |rows| <= i < |rows'| ==> rows'[i] == NextRows(rows, s)[i])
  }

  lemma PartRowIs(rows: seq<Row>, last: int, s: Scrape, done: Plan, i: nat)
    requires Sound(rows, last) && ValidScrape(s, last) && i < |rows| && PartOf(done, PlanOf(rows, s))
    ensures
      var after := ReopenRows(CloseRows(rows, done.closes, s.t), done.reopens);
      |after| == |rows| && (after[i] == rows[i] || after[i] == NextRow(rows[i], s))
  {
    hide PlanOf, ReopenRows, Separated, ActivityAt, OpensAt;
    var plan := PlanOf(rows, s);
    assert forall x :: x in done.reopens ==> x in plan.reopens;
    forall x | x in done.reopens
      ensures x.id < |rows| && Readable(rows[x.id], s.now - FLAP_WINDOW_SEC) && rows[x.id].ended.Some?
      ensures OpensAt(s, ConditionOf(rows[x.id].what).value) && x.count == Bump(rows[x.id].count)
    {
      ReopensAre(rows, s, x);
    }
    ReopenAt(CloseRows(rows, done.closes, s.t), done.reopens, i);
    PlanCloses(rows, last, s, i);
    assert RowSound(rows[i], last);
  }

  lemma PartIsPartly(rows: seq<Row>, last: int, s: Scrape, done: Plan)
    requires Sound(rows, last) && ValidScrape(s, last) && s.cur != [] && PartOf(done, PlanOf(rows, s))
    ensures Partly(rows, s, Apply(rows, done, s.t))
  {
    hide PlanOf, ReopenRows, Sound, NextRow, FreshEvents, CloseRows, ValidScrape;
    var after := ReopenRows(CloseRows(rows, done.closes, s.t), done.reopens);
    CloseLength(rows, done.closes, s.t);
    ReopenLength(CloseRows(rows, done.closes, s.t), done.reopens);
    forall i | 0 <= i < |rows| ensures after[i] == rows[i] || after[i] == NextRow(rows[i], s) {
      PartRowIs(rows, last, s, done, i);
    }
    CreatesAre(rows, last, s);
  }
}
