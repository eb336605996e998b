/** What one scrape does to the timeline, read off the observations: which rows it closes, which it
    opens again, which it adds (`reconcileOngoing` and `recordEvents` in
    pocketbase/pb_hooks/lib/cluster-events.js, called from lib/node-metrics.js). */
module ScrapeRule {
  import opened Options
  import opened Sums
  import opened Observations
  import opened DiffContents
  import opened Timeline
  import opened TimelineStep
  import opened TimelineTheorems

  // ---- the observations -----------------------------------------------------------------

  ghost predicate Reports(rows: seq<Observation>, n: Node) {
    exists x :: x in rows && x.node == n
  }

  /** The node is reported, and up. */
  ghost predicate SeenUp(cur: seq<Observation>, n: Node) {
    exists x :: x in cur && x.node == n && x.isUp
  }

  /** The node is reported with a storage role that the layout vouches for. */
  ghost predicate SeenInLayout(cur: seq<Observation>, n: Node) {
    exists x :: x in cur && x.node == n && x.roleOk && x.capacity > 0
  }

  /** Up before, down now. */
  ghost predicate WentDown(prev: seq<Observation>, cur: seq<Observation>, n: Node) {
    exists p, x :: p in prev && x in cur && p.node == n && x.node == n && p.isUp && !x.isUp
  }

  /** Reported before, and now either not at all, without its row having failed to write, or without
      the storage role that both layouts vouch for it had. */
  ghost predicate WentAway(prev: seq<Observation>, cur: seq<Observation>, failed: set<Node>, n: Node) {
    || (Reports(prev, n) && !Reports(cur, n) && n !in failed)
    || (exists p, x :: p in prev && x in cur && p.node == n && x.node == n
                       && p.roleOk && x.roleOk && p.capacity > 0 && x.capacity == 0)
  }

  lemma ReportedIs(rows: seq<Observation>, n: Node)
    requires OnePerNode(rows)
    ensures Reports(rows, n) <==> Of(rows, n).Some?
    ensures forall x :: x in rows && x.node == n ==> Of(rows, n) == Some(x)
  {
    OfMember(rows, n);
    forall x | x in rows && x.node == n ensures Of(rows, n) == Some(x) { OfUnique(rows, x); }
    if Of(rows, n).Some? { assert Of(rows, n).value in rows; }
  }

  lemma OverIs(s: Scrape, last: int, n: Node)
    requires ValidScrape(s, last)
    ensures ActivityAt(Outage(n), s.cur, s.failed) == Over <==> SeenUp(s.cur, n)
    ensures ActivityAt(Removal(n), s.cur, s.failed) == Over <==> SeenInLayout(s.cur, n)
  {
    hide Of, OnePerNode;
    ReportedIs(s.cur, n);
    OfMember(s.cur, n);
  }

  /** The three answers to whether a condition is still true, read off the scrape. A failed row and an
      unread layout say nothing, and a node that is not reported may be down or gone. */
  lemma ActivityReadsOff(s: Scrape, n: Node)
    requires OnePerNode(s.cur)
    ensures ActivityAt(Outage(n), s.cur, s.failed)
         == if n in s.failed || !Reports(s.cur, n) then CannotTell else if SeenUp(s.cur, n) then Over else Going
    ensures ActivityAt(Removal(n), s.cur, s.failed)
         == if n in s.failed then CannotTell
            else if !Reports(s.cur, n) then Going
            else if !exists x :: x in s.cur && x.node == n && x.roleOk then CannotTell
            else if SeenInLayout(s.cur, n) then Over else Going
  {
    hide Of, OnePerNode;
    ReportedIs(s.cur, n);
    OfMember(s.cur, n);
  }

  lemma OpensIs(s: Scrape, last: int, n: Node)
    requires ValidScrape(s, last)
    ensures OpensAt(s, Outage(n)) <==> WentDown(s.prev, s.cur, n)
    ensures OpensAt(s, Removal(n)) <==> WentAway(s.prev, s.cur, s.failed, n)
  {
    hide Of, OnePerNode;
    ReportedIs(s.prev, n);
    ReportedIs(s.cur, n);
    OfMember(s.prev, n);
    OfMember(s.cur, n);
  }

  // ---- the rows that are there ----------------------------------------------------------

  ghost predicate IsOutage(row: Row, n: Node) {
    row.source == Detector && row.what == NodeDown(n)
  }

  ghost predicate IsRemoval(row: Row, n: Node) {
    row.source == Detector && row.what.NodeRemoved? && row.what.node == n
  }

  ghost predicate IsCondition(row: Row) {
    row.source == Detector && (row.what.NodeDown? || row.what.NodeRemoved?)
  }

  /** An open outage ends, at the scrape's instant, exactly when its node is reported up. One that
      ended no more than half an hour before the scrape runs on, counted once more, exactly when
      the node went down; an older one is left alone. */
  lemma {:induction false} OutageRowRule(rows: seq<Row>, last: int, s: Scrape, i: nat, n: Node)
    requires Sound(rows, last) && ValidScrape(s, last) && s.cur != [] && i < |rows| && IsOutage(rows[i], n)
    ensures |AfterScrape(rows, s)| >= |rows|
    ensures
      AfterScrape(rows, s)[i]
      == if rows[i].ended.None? then (if SeenUp(s.cur, n) then rows[i].(ended := Some(s.t)) else rows[i])
         else if s.now - rows[i].ended.value <= 1800 && WentDown(s.prev, s.cur, n)
         then rows[i].(ended := None, count := rows[i].count + 1)
         else rows[i]
  {
    hide AfterScrape, Sound, ValidScrape, ActivityAt, OpensAt, FreshEvents, SeenUp, WentDown;
    ScrapeIs(rows, last, s);
    OverIs(s, last, n);
    OpensIs(s, last, n);
  }

  /** An open removal ends exactly when its node is reported with a storage role the layout vouches
      for; a recent one runs on exactly when the node went away again. */
  lemma {:induction false} RemovalRowRule(rows: seq<Row>, last: int, s: Scrape, i: nat, n: Node)
    requires Sound(rows, last) && ValidScrape(s, last) && s.cur != [] && i < |rows| && IsRemoval(rows[i], n)
    ensures |AfterScrape(rows, s)| >= |rows|
    ensures
      AfterScrape(rows, s)[i]
      == if rows[i].ended.None? then (if SeenInLayout(s.cur, n) then rows[i].(ended := Some(s.t)) else rows[i])
         else if s.now - rows[i].ended.value <= 1800 && WentAway(s.prev, s.cur, s.failed, n)
         then rows[i].(ended := None, count := rows[i].count + 1)
         else rows[i]
  {
    hide AfterScrape, Sound, ValidScrape, ActivityAt, OpensAt, FreshEvents, SeenInLayout, WentAway;
    ScrapeIs(rows, last, s);
    OverIs(s, last, n);
    OpensIs(s, last, n);
  }

  /** Every other row stays as it is, rows written by hand included. */
  lemma {:induction false} OtherRowRule(rows: seq<Row>, last: int, s: Scrape, i: nat)
    requires Sound(rows, last) && ValidScrape(s, last) && s.cur != [] && i < |rows| && !IsCondition(rows[i])
    ensures |AfterScrape(rows, s)| >= |rows| && AfterScrape(rows, s)[i] == rows[i]
  {
    hide AfterScrape, Sound, ValidScrape, ActivityAt, OpensAt, FreshEvents;
    ScrapeIs(rows, last, s);
  }

  // ---- the rows that are added ----------------------------------------------------------

  /** The condition has a row already that is open, or ended no more than half an hour before. */
  ghost predicate OnRecord(rows: seq<Row>, now: int, e: Event) {
    exists i :: 0 <= i < |rows| && rows[i].source == Detector
                && ((e.NodeDown? && rows[i].what == e)
                    || (e.NodeRemoved? && rows[i].what.NodeRemoved? && rows[i].what.node == e.node))
                && (rows[i].ended.None? || now - rows[i].ended.value <= 1800)
  }


  lemma FreshIs(rows: seq<Row>, now: int, e: Event)
    ensures Fresh(rows, now - FLAP_WINDOW_SEC)(e) <==> !OnRecord(rows, now, e)
  {
    if ConditionOf(e).Some? {
      var c, cutoff := ConditionOf(e).value, now - FLAP_WINDOW_SEC;
      if Covered(rows, cutoff, c) {
        var i :| 0 <= i < |rows| && CondRow(rows[i], c) && Readable(rows[i], cutoff);
        assert rows[i].source == Detector;
      }
      if OnRecord(rows, now, e) {
        var i :| 0 <= i < |rows| && rows[i].source == Detector
                 && ((e.NodeDown? && rows[i].what == e)
                     || (e.NodeRemoved? && rows[i].what.NodeRemoved? && rows[i].what.node == e.node))
                 && (rows[i].ended.None? || now - rows[i].ended.value <= 1800);
        assert CondRow(rows[i], c) && Readable(rows[i], cutoff);
      }
    }
  }

  /** The added rows stand for events of the diff that are not on record, in the order of the diff.
      Each starts at the scrape's instant: an outage or a removal open and for the first time, any
      other event over at once. And nothing is missing: each such event has its row. */
  lemma {:induction false} NewRowRule(rows: seq<Row>, last: int, s: Scrape, keep: Event -> bool)
    requires Sound(rows, last) && ValidScrape(s, last) && s.cur != [] && s.prev != []
    requires forall e :: keep(e) <==> !OnRecord(rows, s.now, e)
    ensures
      var after, added := AfterScrape(rows, s), Filter(Diff(s.prev, s.cur, s.failed), keep);
      && |after| == |rows| + |added|
      && (forall k :: 0 <= k < |added| ==>
            var lasting := added[k].NodeDown? || added[k].NodeRemoved?;
            after[|rows| + k]
            == Row(Detector, added[k], s.t, if lasting then None else Some(s.t), if lasting then 1 else 0))
  {
    hide AfterScrape, Sound, ValidScrape, NextRow, Diff, Filter, OnRecord, Fresh;
    ScrapeIs(rows, last, s);
    forall e ensures keep(e) == Fresh(rows, s.now - FLAP_WINDOW_SEC)(e) { FreshIs(rows, s.now, e); }
    FilterCongruent(Diff(s.prev, s.cur, s.failed), keep, Fresh(rows, s.now - FLAP_WINDOW_SEC));
  }

  /** The first scrape in a while has nothing to compare with and adds no row. */
  lemma {:induction false} FirstScrapeAddsNothing(rows: seq<Row>, last: int, s: Scrape)
    requires Sound(rows, last) && ValidScrape(s, last) && s.prev == []
    ensures |AfterScrape(rows, s)| == |rows|
  {
    hide AfterScrape, Sound, ValidScrape, NextRow;
    if s.cur == [] { NothingRecorded(rows, s); } else { ScrapeIs(rows, last, s); }
  }

  /** A node that went down has an open outage afterwards, one that went away an open removal. */
  lemma {:induction false} WhatHappenedIsOpen(rows: seq<Row>, last: int, s: Scrape, n: Node)
    requires Sound(rows, last) && ValidScrape(s, last) && s.cur != []
    ensures WentDown(s.prev, s.cur, n) ==>
      exists i :: 0 <= i < |AfterScrape(rows, s)|
                  && IsOutage(AfterScrape(rows, s)[i], n) && AfterScrape(rows, s)[i].ended.None?
    ensures WentAway(s.prev, s.cur, s.failed, n) ==>
      exists i :: 0 <= i < |AfterScrape(rows, s)|
                  && IsRemoval(AfterScrape(rows, s)[i], n) && AfterScrape(rows, s)[i].ended.None?
  {
    hide AfterScrape, Sound, ValidScrape, OpensAt, WentDown, WentAway;
    OpensIs(s, last, n);
    if WentDown(s.prev, s.cur, n) {
      OpeningIsRecorded(rows, last, s, Outage(n));
      assert HasOpen(AfterScrape(rows, s), Outage(n));
      OpenRow(AfterScrape(rows, s), Outage(n));
    }
    if WentAway(s.prev, s.cur, s.failed, n) {
      OpeningIsRecorded(rows, last, s, Removal(n));
      OpenRow(AfterScrape(rows, s), Removal(n));
    }
  }

  lemma OpenRow(rows: seq<Row>, c: Condition)
    requires HasOpen(rows, c)
    ensures
      exists i :: 0 <= i < |rows| && rows[i].ended.None?
                  && if c.Outage? then IsOutage(rows[i], c.node) else IsRemoval(rows[i], c.node)
  {
    var i :| 0 <= i < |rows| && CondRow(rows[i], c) && rows[i].ended.None?;
    assert rows[i].source == Detector;
  }
}
