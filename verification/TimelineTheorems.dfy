/** What holds of the timeline after every run of scrapes, whatever they saw, with rows written
    by hand in between. */
module TimelineTheorems {
  import opened Options
  import opened Sums
  import opened Observations
  import opened Timeline
  import opened TimelineStep

  // ---- runs -----------------------------------------------------------------------------

  /** A scrape, a scrape whose recording threw after `done` of its plan was written, or a row
      written by hand. */
  datatype Entry = Scraped(s: Scrape) | Stopped(s: Scrape, done: Plan) | Logged(row: Row)

  function AfterEntry(rows: seq<Row>, e: Entry): seq<Row> {
    match e
    case Scraped(s) => AfterScrape(rows, s)
    case Stopped(s, done) => Apply(rows, done, s.t)
    case Logged(row) => rows + [row]
  }

  function Run(entries: seq<Entry>): seq<Row> {
    if entries == [] then [] else AfterEntry(Run(entries[..|entries| - 1]), entries[|entries| - 1])
  }

  /** The instant of the last scrape, or `epoch` when there was none. */
  function LastTime(epoch: int, entries: seq<Entry>): int {
    if entries == [] then epoch
    else match entries[|entries| - 1]
      case Scraped(s) => s.t
      case Stopped(s, _) => s.t
      case Logged(_) => LastTime(epoch, entries[..|entries| - 1])
  }

  ghost predicate ValidRun(epoch: int, entries: seq<Entry>) {
    entries != [] ==>
      var before := entries[..|entries| - 1];
      && ValidRun(epoch, before)
      && match entries[|entries| - 1]
         case Scraped(s) => ValidScrape(s, LastTime(epoch, before))
         case Stopped(s, done) =>
           ValidScrape(s, LastTime(epoch, before)) && s.cur != [] && PartOf(done, PlanOf(Run(before), s))
         case Logged(row) => row.source != Detector
  }

  // ---- the invariant --------------------------------------------------------------------

  lemma {:induction false} TwoKept<T(!new)>(s: seq<T>, i: nat, j: nat, keep: T -> bool)
    requires i < j < |s| && keep(s[i]) && keep(s[j])
    ensures Count(s, keep) >= 2
  {
    if j == |s| - 1 {
      FilterMembers(s[..j], keep);
      assert s[i] in s[..j];
      assert s[i] in Filter(s[..j], keep);
    } else {
      TwoKept(s[..|s| - 1], i, j, keep);
    }
  }

  lemma {:induction false} FilterCountsLess<T(!new)>(s: seq<T>, p: T -> bool, keep: T -> bool)
    ensures Count(Filter(s, p), keep) <= Count(s, keep)
  {
    if s != [] {
      var rest, x := s[..|s| - 1], s[|s| - 1];
      FilterCountsLess(rest, p, keep);
      FilterSnoc(Filter(rest, p), x, keep);
    }
  }

  lemma NewRowsDiffer(rows: seq<Row>, s: Scrape, i: nat, j: nat, c: Condition)
    requires OnePerNode(s.prev) && OnePerNode(s.cur)
    requires i < j < |FreshEvents(rows, s)| && Opens(c)(FreshEvents(rows, s)[i])
    ensures !Opens(c)(FreshEvents(rows, s)[j])
  {
    hide Filter, Detected, OpensAt, Fresh, OnePerNode;
    if Opens(c)(FreshEvents(rows, s)[j]) {
      TwoKept(FreshEvents(rows, s), i, j, Opens(c));
      FilterCountsLess(Detected(s), Fresh(rows, s.now - FLAP_WINDOW_SEC), Opens(c));
      DetectedOpens(s, c);
    }
  }

  lemma NextRowSound(row: Row, s: Scrape, last: int)
    requires RowSound(row, last) && last < s.now <= s.t
    ensures RowSound(NextRow(row, s), s.t)
  {
    hide ActivityAt, OpensAt;
  }

  /** A row that a later one of its condition follows is closed, too old to re-open, and stays. */
  lemma OlderRowStays(rows: seq<Row>, last: int, s: Scrape, i: nat, j: nat, c: Condition)
    requires Sound(rows, last) && last < s.now && i < j < |rows| && CondRow(rows[i], c) && CondRow(rows[j], c)
    ensures NextRow(rows[i], s) == rows[i]
  {
    hide ActivityAt, OpensAt;
    assert RowSound(rows[j], last);
  }

  lemma UncoveredRowStays(rows: seq<Row>, s: Scrape, i: nat, c: Condition)
    requires i < |rows| && CondRow(rows[i], c) && !Covered(rows, s.now - FLAP_WINDOW_SEC, c)
    ensures NextRow(rows[i], s) == rows[i] && rows[i].ended.Some? && rows[i].ended.value < s.now - FLAP_WINDOW_SEC
  {
    hide ActivityAt, OpensAt;
    assert !Readable(rows[i], s.now - FLAP_WINDOW_SEC);
  }

  lemma FreshIsUncovered(rows: seq<Row>, s: Scrape, j: nat, c: Condition)
    requires j < |FreshEvents(rows, s)| && Opens(c)(FreshEvents(rows, s)[j])
    ensures !Covered(rows, s.now - FLAP_WINDOW_SEC, c)
  {
    hide Filter, Detected, Covered;
    FilterMembers(Detected(s), Fresh(rows, s.now - FLAP_WINDOW_SEC));
    assert FreshEvents(rows, s)[j] in FreshEvents(rows, s);
  }

  lemma PairSeparated(rows: seq<Row>, last: int, s: Scrape, i: nat, j: nat, c: Condition)
    requires Sound(rows, last) && ValidScrape(s, last) && i < j < |NextRows(rows, s)|
    requires CondRow(NextRows(rows, s)[i], c) && CondRow(NextRows(rows, s)[j], c)
    ensures NextRows(rows, s)[i].ended.Some?
    ensures NextRows(rows, s)[j].occurred > NextRows(rows, s)[i].ended.value + FLAP_WINDOW_SEC
  {
    hide Sound, Covered, Filter, ActivityAt, OpensAt, OnePerNode, Detected;
    var rows' := NextRows(rows, s);
    if j < |rows| {
      OlderRowStays(rows, last, s, i, j, c);
      SeparatedAt(rows, last, i, j, c);
    } else {
      FreshIsUncovered(rows, s, j - |rows|, c);
      if i < |rows| {
        UncoveredRowStays(rows, s, i, c);
      } else {
        NewRowsDiffer(rows, s, i - |rows|, j - |rows|, c);
      }
    }
  }

  lemma SeparatedAt(rows: seq<Row>, last: int, i: nat, j: nat, c: Condition)
    requires Sound(rows, last) && i < j < |rows| && CondRow(rows[i], c) && CondRow(rows[j], c)
    ensures rows[i].ended.Some? && rows[j].occurred > rows[i].ended.value + FLAP_WINDOW_SEC
  {
  }

  lemma {:induction false} ScrapeKeepsSound(rows: seq<Row>, last: int, s: Scrape)
    requires Sound(rows, last) && ValidScrape(s, last)
    ensures Sound(AfterScrape(rows, s), s.t)
  {
    hide AfterScrape, Filter, Detected, OnePerNode, NextRows, RowSound, Separated;
    if s.cur == [] {
      NothingRecorded(rows, s);
      LaterIsSound(rows, last, s.t);
    } else {
      ScrapeIs(rows, last, s);
      NextRowsSound(rows, last, s);
      NextRowsSeparated(rows, last, s);
    }
  }

  lemma LaterIsSound(rows: seq<Row>, last: int, t: int)
    requires Sound(rows, last) && last <= t
    ensures Sound(rows, t)
  {
    forall i | 0 <= i < |rows| ensures RowSound(rows[i], t) { assert RowSound(rows[i], last); }
  }

  lemma NextRowsSeparated(rows: seq<Row>, last: int, s: Scrape)
    requires Sound(rows, last) && ValidScrape(s, last) && s.cur != []
    ensures Separated(NextRows(rows, s))
  {
    hide Sound, NextRows, NextRow, Filter, Detected, OnePerNode;
    var rows' := NextRows(rows, s);
    forall i, j, c | 0 <= i < j < |rows'| && CondRow(rows'[i], c) && CondRow(rows'[j], c)
      ensures rows'[i].ended.Some? && rows'[j].occurred > rows'[i].ended.value + FLAP_WINDOW_SEC
    {
      PairSeparated(rows, last, s, i, j, c);
    }
  }

  lemma NextRowsSound(rows: seq<Row>, last: int, s: Scrape)
    requires Sound(rows, last) && last < s.now <= s.t
    ensures forall i :: 0 <= i < |NextRows(rows, s)| ==> RowSound(NextRows(rows, s)[i], s.t)
  {
    hide NextRow, FreshEvents, Separated;
    forall i | 0 <= i < |rows| { NextRowSound(rows[i], s, last); }
  }

  /** So does a plan that a throwing save cuts short: the invariant survives whatever part of it
      was written. */
  lemma {:induction false} PartKeepsSound(rows: seq<Row>, last: int, s: Scrape, done: Plan)
    requires Sound(rows, last) && ValidScrape(s, last) && s.cur != [] && PartOf(done, PlanOf(rows, s))
    ensures Sound(Apply(rows, done, s.t), s.t)
  {
    hide Apply, NextRows, RowSound, PlanOf, OnePerNode;
    PartIsPartly(rows, last, s, done);
    PartlyKeepsRows(rows, last, s, Apply(rows, done, s.t));
    PartlyKeepsSeparation(rows, last, s, Apply(rows, done, s.t));
  }

  lemma PartlyKeepsRows(rows: seq<Row>, last: int, s: Scrape, rows': seq<Row>)
    requires Sound(rows, last) && last < s.now <= s.t && Partly(rows, s, rows')
    ensures forall i :: 0 <= i < |rows'| ==> RowSound(rows'[i], s.t)
  {
    hide NextRow, FreshEvents, Separated;
    NextRowsSound(rows, last, s);
    forall i | 0 <= i < |rows'| ensures RowSound(rows'[i], s.t) {
      if i < |rows| { assert RowSound(rows[i], last) && RowSound(NextRows(rows, s)[i], s.t); }
    }
  }

  lemma PartlyKeepsSeparation(rows: seq<Row>, last: int, s: Scrape, rows': seq<Row>)
    requires Sound(rows, last) && ValidScrape(s, last) && Partly(rows, s, rows')
    ensures Separated(rows')
  {
    hide Sound, FreshEvents, ValidScrape, NextRow;
    forall i, j, c | 0 <= i < j < |rows'| && CondRow(rows'[i], c) && CondRow(rows'[j], c)
      ensures rows'[i].ended.Some? && rows'[j].occurred > rows'[i].ended.value + FLAP_WINDOW_SEC
    {
      PairPartlySeparated(rows, last, s, rows', i, j, c);
    }
  }

  lemma SameKind(row: Row, s: Scrape)
    ensures SameIncident(NextRow(row, s), row)
  {
    hide ActivityAt, OpensAt;
  }

  lemma PairPartlySeparated(rows: seq<Row>, last: int, s: Scrape, rows': seq<Row>, i: nat, j: nat, c: Condition)
    requires Sound(rows, last) && ValidScrape(s, last) && Partly(rows, s, rows') && i < j < |rows'|
    requires CondRow(rows'[i], c) && CondRow(rows'[j], c)
    ensures rows'[i].ended.Some? && rows'[j].occurred > rows'[i].ended.value + FLAP_WINDOW_SEC
  {
    hide Sound, FreshEvents, OnePerNode, NextRow;
    if i < |rows| { SameKind(rows[i], s); }
    if j < |rows| { SameKind(rows[j], s); }
    PairSeparated(rows, last, s, i, j, c);
    if j < |rows| {
      OlderRowStays(rows, last, s, i, j, c);
    } else if i < |rows| {
      FreshIsUncovered(rows, s, j - |rows|, c);
      UncoveredRowStays(rows, s, i, c);
    }
  }

  lemma {:induction false} RunIsSound(epoch: int, entries: seq<Entry>)
    requires ValidRun(epoch, entries)
    ensures Sound(Run(entries), LastTime(epoch, entries))
  {
    if entries != [] {
      var before := entries[..|entries| - 1];
      RunIsSound(epoch, before);
      match entries[|entries| - 1]
      case Scraped(s) => ScrapeKeepsSound(Run(before), LastTime(epoch, before), s);
      case Stopped(s, done) => PartKeepsSound(Run(before), LastTime(epoch, before), s, done);
      case Logged(row) =>
    }
  }

  /** Over every run a condition has at most one open row, and two of its rows are apart by more
      than the flap window, so an incident is never touched once a newer one exists. */
  lemma {:induction false} IncidentsSeparated(epoch: int, entries: seq<Entry>, i: nat, j: nat, c: Condition)
    requires ValidRun(epoch, entries) && i < j < |Run(entries)|
    requires CondRow(Run(entries)[i], c) && CondRow(Run(entries)[j], c)
    ensures Run(entries)[i].ended.Some?
    ensures Run(entries)[j].occurred - Run(entries)[i].ended.value > FLAP_WINDOW_SEC
  {
    RunIsSound(epoch, entries);
  }

  /** The three-state reading of every detector row agrees with its history. */
  lemma {:induction false} StatusAgrees(epoch: int, entries: seq<Entry>, i: nat)
    requires ValidRun(epoch, entries) && i < |Run(entries)| && Run(entries)[i].source == Detector
    ensures EventStatus(Run(entries)[i]) == IsInstant <==> ConditionOf(Run(entries)[i].what).None?
    ensures EventStatus(Run(entries)[i]) == IsOngoing <==> Run(entries)[i].ended.None?
    ensures EventStatus(Run(entries)[i]) == IsResolved
        <==> ConditionOf(Run(entries)[i].what).Some? && Run(entries)[i].ended.Some?
  {
    RunIsSound(epoch, entries);
    assert RowSound(Run(entries)[i], LastTime(epoch, entries));
  }

  // ---- what one scrape settles ----------------------------------------------------------

  ghost predicate HasOpen(rows: seq<Row>, c: Condition) {
    exists i :: 0 <= i < |rows| && CondRow(rows[i], c) && rows[i].ended.None?
  }

  /** A condition the observations call over has no open row after the scrape, even when nothing
      was known before. */
  lemma {:induction false} OverIsClosed(rows: seq<Row>, last: int, s: Scrape, c: Condition)
    requires Sound(rows, last) && ValidScrape(s, last) && ActivityAt(c, s.cur, s.failed) == Over
    ensures !HasOpen(AfterScrape(rows, s), c)
  {
    hide AfterScrape, Filter, Detected;
    assert s.cur != [] by { OfMember(s.cur, c.node); }
    ScrapeIs(rows, last, s);
    var rows' := NextRows(rows, s);
    forall i | 0 <= i < |rows'| && CondRow(rows'[i], c) ensures rows'[i].ended.Some? {
      if i >= |rows| { FreshOpens(rows, s, i - |rows|, c); }
    }
  }

  /** A new condition row means the scrape opened the condition. */
  lemma FreshOpens(rows: seq<Row>, s: Scrape, j: nat, c: Condition)
    requires OnePerNode(s.prev) && OnePerNode(s.cur)
    requires j < |FreshEvents(rows, s)| && Opens(c)(FreshEvents(rows, s)[j])
    ensures OpensAt(s, c)
  {
    hide Filter, Detected, OpensAt, Fresh;
    FilterMembers(Detected(s), Fresh(rows, s.now - FLAP_WINDOW_SEC));
    assert FreshEvents(rows, s)[j] in FreshEvents(rows, s);
    FilterMembers(Detected(s), Opens(c));
    DetectedOpens(s, c);
    assert FreshEvents(rows, s)[j] in Filter(Detected(s), Opens(c));
  }

  lemma {:induction false} UpClosesOutages(rows: seq<Row>, last: int, s: Scrape, x: Observation)
    requires Sound(rows, last) && ValidScrape(s, last) && x in s.cur && x.isUp
    ensures !HasOpen(AfterScrape(rows, s), Outage(x.node))
  {
    OfUnique(s.cur, x);
    OverIsClosed(rows, last, s, Outage(x.node));
  }

  lemma {:induction false} CapacityClosesRemovals(rows: seq<Row>, last: int, s: Scrape, x: Observation)
    requires Sound(rows, last) && ValidScrape(s, last) && x in s.cur && x.roleOk && x.capacity > 0
    ensures !HasOpen(AfterScrape(rows, s), Removal(x.node))
  {
    OfUnique(s.cur, x);
    OverIsClosed(rows, last, s, Removal(x.node));
  }

  /** A condition the scrape cannot judge and does not open keeps its rows exactly as they were
      and gets no new one. */
  lemma {:induction false} UndecidedIsKept(rows: seq<Row>, last: int, s: Scrape, c: Condition)
    requires Sound(rows, last) && ValidScrape(s, last) && !OpensAt(s, c) && ActivityAt(c, s.cur, s.failed) != Over
    ensures |AfterScrape(rows, s)| >= |rows|
    ensures forall i :: 0 <= i < |rows| && CondRow(rows[i], c) ==> AfterScrape(rows, s)[i] == rows[i]
    ensures forall i :: |rows| <= i < |AfterScrape(rows, s)| ==> !CondRow(AfterScrape(rows, s)[i], c)
  {
    hide AfterScrape, Filter, Detected, Opening, ActivityAt;
    if s.cur == [] {
      NothingRecorded(rows, s);
    } else {
      ScrapeIs(rows, last, s);
      forall i | |rows| <= i < |NextRows(rows, s)| ensures !CondRow(NextRows(rows, s)[i], c) {
        if CondRow(NextRows(rows, s)[i], c) { FreshOpens(rows, s, i - |rows|, c); }
      }
    }
  }

  lemma NothingRecorded(rows: seq<Row>, s: Scrape)
    requires s.cur == []
    ensures AfterScrape(rows, s) == rows
  {
  }

  /** A node whose row could not be written: its condition rows stay as they are, and no new row
      of any kind names it. */
  lemma {:induction false} FailedNodeIsUntouched(rows: seq<Row>, last: int, s: Scrape, c: Condition)
    requires Sound(rows, last) && ValidScrape(s, last) && c.node in s.failed
    ensures |AfterScrape(rows, s)| >= |rows|
    ensures forall i :: 0 <= i < |rows| && CondRow(rows[i], c) ==> AfterScrape(rows, s)[i] == rows[i]
    ensures forall i :: |rows| <= i < |AfterScrape(rows, s)| ==> !Names(AfterScrape(rows, s)[i].what, c.node)
  {
    OfMember(s.cur, c.node);
    UndecidedIsKept(rows, last, s, c);
    NewRowsNotNaming(rows, last, s, c.node);
  }

  lemma NewRowsNotNaming(rows: seq<Row>, last: int, s: Scrape, n: Node)
    requires Sound(rows, last) && ValidScrape(s, last) && n in s.failed
    ensures forall i :: |rows| <= i < |AfterScrape(rows, s)| ==> !Names(AfterScrape(rows, s)[i].what, n)
  {
    hide AfterScrape, Filter, Diff, Fresh, NextRow, Sound;
    if s.cur == [] {
      NothingRecorded(rows, s);
    } else {
      ScrapeIs(rows, last, s);
      FailedNodeIsUnnamed(s.prev, s.cur, s.failed, n);
      FilterMembers(Detected(s), Fresh(rows, s.now - FLAP_WINDOW_SEC));
      var events := FreshEvents(rows, s);
      forall i | |rows| <= i < |NextRows(rows, s)| ensures !Names(NextRows(rows, s)[i].what, n) {
        assert events[i - |rows|] in events;
      }
    }
  }

  /** A scrape that could not read the layout closes no removal. */
  lemma {:induction false} UnreadableLayoutClosesNoRemoval(rows: seq<Row>, last: int, s: Scrape, i: nat, n: Node)
    requires Sound(rows, last) && ValidScrape(s, last) && forall x :: x in s.cur ==> !x.roleOk
    requires i < |rows| && CondRow(rows[i], Removal(n)) && rows[i].ended.None?
    ensures i < |AfterScrape(rows, s)| && AfterScrape(rows, s)[i] == rows[i]
  {
    hide AfterScrape, Filter, Detected, Opening;
    if s.cur == [] {
      NothingRecorded(rows, s);
    } else {
      OfMember(s.cur, n);
      ScrapeIs(rows, last, s);
    }
  }

  /** Nothing is missed: a condition the scrape opens has an open row afterwards, whether it was
      open already, re-opened or created. */
  lemma OpeningIsRecorded(rows: seq<Row>, last: int, s: Scrape, c: Condition)
    requires Sound(rows, last) && ValidScrape(s, last) && s.cur != [] && OpensAt(s, c)
    ensures HasOpen(AfterScrape(rows, s), c)
  {
    hide AfterScrape, Filter, Detected, Opening, ActivityAt;
    ScrapeIs(rows, last, s);
    var rows', cutoff := NextRows(rows, s), s.now - FLAP_WINDOW_SEC;
    DetectedOpens(s, c);
    OpeningActive(s, last, c);
    if Covered(rows, cutoff, c) {
      var i :| 0 <= i < |rows| && CondRow(rows[i], c) && Readable(rows[i], cutoff);
      assert CondRow(rows'[i], c) && rows'[i].ended.None?;
    } else {
      var e := OpeningEvent(s, c);
      FilterMembers(Detected(s), Fresh(rows, cutoff));
      var j :| 0 <= j < |FreshEvents(rows, s)| && FreshEvents(rows, s)[j] == e;
      assert CondRow(rows'[|rows| + j], c) && rows'[|rows| + j].ended.None?;
    }
  }

  lemma OpeningActive(s: Scrape, last: int, c: Condition)
    requires ValidScrape(s, last) && OpensAt(s, c)
    ensures ActivityAt(c, s.cur, s.failed) != Over
  {
  }

  lemma OpeningEvent(s: Scrape, c: Condition) returns (e: Event)
    requires OnePerNode(s.prev) && OnePerNode(s.cur) && OpensAt(s, c)
    ensures e in Detected(s) && Opens(c)(e)
  {
    DetectedOpens(s, c);
    FilterMembers(Detected(s), Opens(c));
    e := Filter(Detected(s), Opens(c))[0];
  }

  // ---- outages tell the truth -----------------------------------------------------------

  /** The last observation of node `n` that any scrape recorded. A scrape whose recording threw may
      have left open what it saw over, so of such a scrape only a node seen down counts. */
  function LastSeen(entries: seq<Entry>, n: Node): Option<Observation> {
    if entries == [] then None
    else
      var rest := LastSeen(entries[..|entries| - 1], n);
      match entries[|entries| - 1]
      case Logged(_) => rest
      case Scraped(s) => if Of(s.cur, n).Some? then Of(s.cur, n) else rest
      case Stopped(s, _) => if Of(s.cur, n).Some? && !Of(s.cur, n).value.isUp then Of(s.cur, n) else rest
  }

  /** An outage shown as running: the node was down the last time anything was heard of it. */
  lemma {:induction false} OpenOutageIsTrue(epoch: int, entries: seq<Entry>, n: Node)
    requires ValidRun(epoch, entries) && HasOpen(Run(entries), Outage(n))
    ensures LastSeen(entries, n).Some? && !LastSeen(entries, n).value.isUp
  {
    hide AfterScrape;
    var before, e := entries[..|entries| - 1], entries[|entries| - 1];
    match e
    case Logged(row) =>
      assert HasOpen(Run(before), Outage(n));
      OpenOutageIsTrue(epoch, before, n);
    case Scraped(s) =>
      RunIsSound(epoch, before);
      if Of(s.cur, n).Some? {
        OfMember(s.cur, n);
        if Of(s.cur, n).value.isUp { UpClosesOutages(Run(before), LastTime(epoch, before), s, Of(s.cur, n).value); }
      } else {
        StillOpen(Run(before), LastTime(epoch, before), s, Outage(n));
        OpenOutageIsTrue(epoch, before, n);
      }
    case Stopped(s, done) =>
      if Of(s.cur, n).None? || Of(s.cur, n).value.isUp {
        RunIsSound(epoch, before);
        PartIsPartly(Run(before), LastTime(epoch, before), s, done);
        OpenBefore(Run(before), s, Run(entries), Outage(n));
        OpenOutageIsTrue(epoch, before, n);
      }
  }

  /** What is open after any part of a scrape that did not open it was open before. */
  lemma {:induction false} OpenBefore(rows: seq<Row>, s: Scrape, rows': seq<Row>, c: Condition)
    requires OnePerNode(s.prev) && OnePerNode(s.cur)
    requires Partly(rows, s, rows') && HasOpen(rows', c) && !OpensAt(s, c)
    ensures HasOpen(rows, c)
  {
    hide FreshEvents, OpensAt, ActivityAt, OnePerNode;
    var i :| 0 <= i < |rows'| && CondRow(rows'[i], c) && rows'[i].ended.None?;
    if i < |rows| {
      SameKind(rows[i], s);
      assert CondRow(rows[i], c) && rows[i].ended.None?;
    } else {
      FreshOpens(rows, s, i - |rows|, c);
    }
  }

  lemma {:induction false} StillOpen(rows: seq<Row>, last: int, s: Scrape, c: Condition)
    requires Sound(rows, last) && ValidScrape(s, last) && HasOpen(AfterScrape(rows, s), c)
    requires !OpensAt(s, c) && ActivityAt(c, s.cur, s.failed) != Over
    ensures HasOpen(rows, c)
  {
    hide AfterScrape, OpensAt, ActivityAt, Sound, OnePerNode;
    UndecidedIsKept(rows, last, s, c);
    var after := AfterScrape(rows, s);
    var i :| 0 <= i < |after| && CondRow(after[i], c) && after[i].ended.None?;
    KindsStay(rows, last, s);
    if i < |rows| { assert CondRow(rows[i], c); }
  }

  /** What a scrape says for certain about a node's place in the layout. */
  datatype Word = Gone | Holds(capacity: nat)

  /** The last certain word on node `n`: that it was not listed, or a reading of its capacity that
      the layout vouches for. A scrape that recorded nothing, that failed on the node or that could
      not read the layout says nothing, and one whose recording threw does not take a word back. */
  function LastWord(entries: seq<Entry>, n: Node): Option<Word> {
    if entries == [] then None
    else
      var rest := LastWord(entries[..|entries| - 1], n);
      match entries[|entries| - 1]
      case Logged(_) => rest
      case Scraped(s) =>
        if s.cur == [] || n in s.failed then rest
        else (match Of(s.cur, n)
          case None => Some(Gone)
          case Some(x) => if x.roleOk then Some(Holds(x.capacity)) else rest)
      case Stopped(s, _) =>
        if n in s.failed then rest
        else match Of(s.cur, n)
          case None => Some(Gone)
          case Some(x) => if x.roleOk && x.capacity == 0 then Some(Holds(0)) else rest
  }

  /** A removal shown as running: the last certain word is that the node is not listed, or that it
      holds no capacity. */
  lemma {:induction false} OpenRemovalIsTrue(epoch: int, entries: seq<Entry>, n: Node)
    requires ValidRun(epoch, entries) && HasOpen(Run(entries), Removal(n))
    ensures LastWord(entries, n) in {Some(Gone), Some(Holds(0))}
  {
    hide AfterScrape, Sound, OnePerNode;
    var before, e := entries[..|entries| - 1], entries[|entries| - 1];
    match e
    case Logged(row) =>
      assert HasOpen(Run(before), Removal(n));
      OpenRemovalIsTrue(epoch, before, n);
    case Scraped(s) =>
      RunIsSound(epoch, before);
      var rows, last, x := Run(before), LastTime(epoch, before), Of(s.cur, n);
      OfMember(s.cur, n);
      if s.cur == [] {
        NothingRecorded(rows, s);
        OpenRemovalIsTrue(epoch, before, n);
      } else if n in s.failed || (x.Some? && !x.value.roleOk) {
        StillOpen(rows, last, s, Removal(n));
        OpenRemovalIsTrue(epoch, before, n);
      } else if x.Some? && x.value.capacity > 0 {
        CapacityClosesRemovals(rows, last, s, x.value);
      }
    case Stopped(s, done) =>
      var x := Of(s.cur, n);
      OfMember(s.cur, n);
      if n in s.failed || (x.Some? && !(x.value.roleOk && x.value.capacity == 0)) {
        RunIsSound(epoch, before);
        PartIsPartly(Run(before), LastTime(epoch, before), s, done);
        OpenBefore(Run(before), s, Run(entries), Removal(n));
        OpenRemovalIsTrue(epoch, before, n);
      }
  }

  // ---- occurrences and starts -----------------------------------------------------------

  /** A scrape never changes what a row is about or when it started. */
  lemma {:induction false} KindsStay(rows: seq<Row>, last: int, s: Scrape)
    requires Sound(rows, last) && ValidScrape(s, last)
    ensures |AfterScrape(rows, s)| >= |rows|
    ensures forall i :: 0 <= i < |rows| ==> SameIncident(AfterScrape(rows, s)[i], rows[i])
    ensures forall i :: 0 <= i < |rows| && rows[i].source != Detector ==> AfterScrape(rows, s)[i] == rows[i]
  {
    hide AfterScrape, Filter, Detected;
    if s.cur == [] { NothingRecorded(rows, s); } else { ScrapeIs(rows, last, s); }
  }

  /** Nor does any part of one. */
  lemma {:induction false} KindsPartlyStay(rows: seq<Row>, s: Scrape, rows': seq<Row>)
    requires Partly(rows, s, rows')
    ensures |rows'| >= |rows|
    ensures forall i :: 0 <= i < |rows| ==> SameIncident(rows'[i], rows[i])
    ensures forall i :: 0 <= i < |rows| && rows[i].source != Detector ==> rows'[i] == rows[i]
  {
    hide ActivityAt, OpensAt, FreshEvents;
    forall i | 0 <= i < |rows| ensures SameIncident(rows'[i], rows[i]) { SameKind(rows[i], s); }
  }

  predicate SameIncident(a: Row, b: Row) {
    a.source == b.source && a.what == b.what && a.occurred == b.occurred
  }

  /** Over a run the rows of its beginning keep their kind, their start and their place, and rows
      written by hand are never touched. */
  lemma {:induction false} StartsNeverMove(epoch: int, entries: seq<Entry>, k: nat)
    requires ValidRun(epoch, entries) && k <= |entries|
    ensures |Run(entries)| >= |Run(entries[..k])|
    ensures forall i :: 0 <= i < |Run(entries[..k])| ==> SameIncident(Run(entries)[i], Run(entries[..k])[i])
    ensures
      forall i :: 0 <= i < |Run(entries[..k])| && Run(entries[..k])[i].source != Detector ==>
        Run(entries)[i] == Run(entries[..k])[i]
  {
    hide AfterScrape;
    if k == |entries| {
      assert entries[..k] == entries;
    } else {
      var before := entries[..|entries| - 1];
      assert before[..k] == entries[..k];
      StartsNeverMove(epoch, before, k);
      RunIsSound(epoch, before);
      match entries[|entries| - 1]
      case Scraped(s) => KindsStay(Run(before), LastTime(epoch, before), s);
      case Stopped(s, done) =>
        PartIsPartly(Run(before), LastTime(epoch, before), s, done);
        KindsPartlyStay(Run(before), s, Run(entries));
      case Logged(row) =>
    }
  }

  predicate IsOpenAt(rows: seq<Row>, i: nat) {
    i < |rows| && rows[i].ended.None?
  }

  /** How often row `i` went from absent or closed to open. */
  function Openings(entries: seq<Entry>, i: nat): nat {
    if entries == [] then 0
    else
      var before := entries[..|entries| - 1];
      Openings(before, i) + if IsOpenAt(Run(entries), i) && !IsOpenAt(Run(before), i) then 1 else 0
  }

  lemma {:induction false} CountStep(rows: seq<Row>, last: int, s: Scrape, i: nat)
    requires Sound(rows, last) && ValidScrape(s, last) && i < |AfterScrape(rows, s)|
    requires AfterScrape(rows, s)[i].source == Detector && ConditionOf(AfterScrape(rows, s)[i].what).Some?
    ensures var before := if i < |rows| then rows[i].count else 0;
      AfterScrape(rows, s)[i].count == before + if IsOpenAt(AfterScrape(rows, s), i) && !IsOpenAt(rows, i) then 1 else 0
  {
    hide AfterScrape, Filter, Detected, ActivityAt, OpensAt;
    if s.cur == [] { NothingRecorded(rows, s); } else { ScrapeIs(rows, last, s); }
  }

  lemma {:induction false} CountPartStep(rows: seq<Row>, last: int, s: Scrape, rows': seq<Row>, i: nat)
    requires Sound(rows, last) && Partly(rows, s, rows') && i < |rows'|
    requires rows'[i].source == Detector && ConditionOf(rows'[i].what).Some?
    ensures rows'[i].count == (if i < |rows| then rows[i].count else 0)
                              + if IsOpenAt(rows', i) && !IsOpenAt(rows, i) then 1 else 0
  {
    hide ActivityAt, OpensAt, FreshEvents, Separated;
  }

  /** A condition row's occurrence count is the number of times it was created or re-opened. */
  lemma {:induction false} CountsAreOpenings(epoch: int, entries: seq<Entry>, i: nat)
    requires ValidRun(epoch, entries) && i < |Run(entries)|
    requires Run(entries)[i].source == Detector && ConditionOf(Run(entries)[i].what).Some?
    ensures Run(entries)[i].count == Openings(entries, i)
  {
    hide AfterScrape;
    var before := entries[..|entries| - 1];
    RunIsSound(epoch, before);
    StartsNeverMove(epoch, entries, |before|);
    assert entries[..|before|] == before;
    if i < |Run(before)| { CountsAreOpenings(epoch, before, i); } else { NeverOpened(epoch, before, i); }
    match entries[|entries| - 1]
    case Scraped(s) => CountStep(Run(before), LastTime(epoch, before), s, i);
    case Stopped(s, done) =>
      PartIsPartly(Run(before), LastTime(epoch, before), s, done);
      CountPartStep(Run(before), LastTime(epoch, before), s, Run(entries), i);
    case Logged(row) =>
  }

  lemma {:induction false} NeverOpened(epoch: int, entries: seq<Entry>, i: nat)
    requires ValidRun(epoch, entries) && i >= |Run(entries)|
    ensures Openings(entries, i) == 0
  {
    if entries != [] {
      StartsNeverMove(epoch, entries, |entries| - 1);
      NeverOpened(epoch, entries[..|entries| - 1], i);
    }
  }

  // ---- point-in-time events -------------------------------------------------------------

  function InstantRow(): Row -> bool {
    (row: Row) => row.source == Detector && ConditionOf(row.what).None?
  }

  /** The rows the detected point-in-time events should leave, in order; of a scrape whose recording
      threw, those that were written before. */
  function Expected(entries: seq<Entry>): seq<Row> {
    if entries == [] then []
    else
      var rest := Expected(entries[..|entries| - 1]);
      match entries[|entries| - 1]
      case Logged(_) => rest
      case Scraped(s) => if s.cur == [] then rest else rest + CreateRows(Filter(Detected(s), Instant()), s.t)
      case Stopped(s, done) => rest + CreateRows(Filter(done.creates, Instant()), s.t)
  }

  lemma {:induction false} FilterSame(rows: seq<Row>, rows': seq<Row>)
    requires |rows| == |rows'|
    requires
      forall i :: 0 <= i < |rows| ==>
        InstantRow()(rows[i]) == InstantRow()(rows'[i]) && (InstantRow()(rows[i]) ==> rows[i] == rows'[i])
    ensures Filter(rows, InstantRow()) == Filter(rows', InstantRow())
  {
    if rows != [] { FilterSame(rows[..|rows| - 1], rows'[..|rows'| - 1]); }
  }

  lemma {:induction false} FilterCreated(creates: seq<Event>, t: int)
    ensures Filter(CreateRows(creates, t), InstantRow()) == CreateRows(Filter(creates, Instant()), t)
  {
    if creates != [] {
      var rest, e := creates[..|creates| - 1], creates[|creates| - 1];
      FilterCreated(rest, t);
      assert CreateRows(creates, t) == CreateRows(rest, t) + [NewRow(e, t)];
      FilterSnoc(CreateRows(rest, t), NewRow(e, t), InstantRow());
    }
  }

  lemma InstantStep(rows: seq<Row>, last: int, s: Scrape)
    requires Sound(rows, last) && ValidScrape(s, last) && s.cur != []
    ensures Filter(AfterScrape(rows, s), InstantRow())
         == Filter(rows, InstantRow()) + CreateRows(Filter(Detected(s), Instant()), s.t)
  {
    hide AfterScrape, Filter, Detected, ActivityAt, OpensAt;
    ScrapeIs(rows, last, s);
    var kept := seq(|rows|, i requires 0 <= i < |rows| => NextRow(rows[i], s));
    FilterSame(kept, rows);
    FilterConcat(kept, CreateRows(FreshEvents(rows, s), s.t), InstantRow());
    FilterCreated(FreshEvents(rows, s), s.t);
    FilterTwice(Detected(s), Fresh(rows, s.now - FLAP_WINDOW_SEC), Instant(), Instant());
  }

  lemma InstantPartStep(rows: seq<Row>, last: int, s: Scrape, done: Plan)
    requires Sound(rows, last) && ValidScrape(s, last) && s.cur != [] && PartOf(done, PlanOf(rows, s))
    ensures Filter(Apply(rows, done, s.t), InstantRow())
         == Filter(rows, InstantRow()) + CreateRows(Filter(done.creates, Instant()), s.t)
  {
    hide Filter, Detected, ActivityAt, OpensAt, PlanOf, ReopenRows, FreshEvents, Sound, ValidScrape;
    var kept := ReopenRows(CloseRows(rows, done.closes, s.t), done.reopens);
    ReopenLength(CloseRows(rows, done.closes, s.t), done.reopens);
    PartIsPartly(rows, last, s, done);
    forall i | 0 <= i < |rows| ensures kept[i] == rows[i] || kept[i] == NextRow(rows[i], s) {
      assert kept[i] == Apply(rows, done, s.t)[i];
    }
    FilterSame(kept, rows);
    FilterConcat(kept, CreateRows(done.creates, s.t), InstantRow());
    FilterCreated(done.creates, s.t);
  }

  /** What such a scrape leaves out are the last of its point-in-time events. */
  lemma {:induction false} StoppedKeepsFirst(rows: seq<Row>, last: int, s: Scrape, done: Plan)
    requires Sound(rows, last) && ValidScrape(s, last) && PartOf(done, PlanOf(rows, s))
    ensures Filter(done.creates, Instant()) <= Filter(Detected(s), Instant())
  {
    hide Filter, Detected, PlanOf, Sound, ValidScrape, Fresh;
    CreatesAre(rows, last, s);
    var all := FreshEvents(rows, s);
    assert all == done.creates + all[|done.creates|..];
    FilterConcat(done.creates, all[|done.creates|..], Instant());
    assert forall e :: Instant()(e) ==> Fresh(rows, s.now - FLAP_WINDOW_SEC)(e) by {
      InstantIsFresh(rows, s.now - FLAP_WINDOW_SEC);
    }
    FilterTwice(Detected(s), Fresh(rows, s.now - FLAP_WINDOW_SEC), Instant(), Instant());
  }

  lemma InstantIsFresh(rows: seq<Row>, cutoff: int)
    ensures forall e :: Instant()(e) ==> Fresh(rows, cutoff)(e)
  { }

  /** Every point-in-time event of the run is on the timeline exactly once and in order. */
  lemma {:induction false} InstantsRecordedOnce(epoch: int, entries: seq<Entry>)
    requires ValidRun(epoch, entries)
    ensures Filter(Run(entries), InstantRow()) == Expected(entries)
  {
    hide AfterScrape, Filter, Detected;
    if entries == [] {
      FilterNone([], InstantRow());
    } else {
      var before := entries[..|entries| - 1];
      InstantsRecordedOnce(epoch, before);
      RunIsSound(epoch, before);
      match entries[|entries| - 1]
      case Scraped(s) =>
        if s.cur == [] {
          NothingRecorded(Run(before), s);
        } else {
          InstantStep(Run(before), LastTime(epoch, before), s);
        }
      case Stopped(s, done) => InstantPartStep(Run(before), LastTime(epoch, before), s, done);
      case Logged(row) => FilterSnoc(Run(before), row, InstantRow());
    }
  }
}
