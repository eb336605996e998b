/** The scrape as it runs: reading the previous samples back, writing this scrape's, diffing,
    reconciling and recording, with the loops and maps the hook uses (`scrapeOnce`,
    `readPreviousObservations` and `pruneOld` in pocketbase/pb_hooks/lib/node-metrics.js,
    lib/cluster-events.js). */
module Collector {
  import opened Options
  import opened Sums
  import opened Observations
  import opened Timeline
  import opened TimelineStep
  import opened TimelineTheorems
  import opened ScrapeRule

  const PREV_WINDOW_SEC := 2 * 3600

  // ---- diffObservations -----------------------------------------------------------------

  method ByNode(rows: seq<Observation>) returns (m: map<Node, Observation>)
    ensures forall n :: n in m <==> Of(rows, n).Some?
    ensures forall n :: n in m ==> m[n] == Of(rows, n).value
  {
    m := map[];
    for i := 0 to |rows|
      invariant forall n :: n in m <==> Of(rows[..i], n).Some?
      invariant forall n :: n in m ==> m[n] == Of(rows[..i], n).value
    {
      assert rows[..i + 1][..i] == rows[..i];
      if rows[i].node != "" {
        m := m[rows[i].node := rows[i]];
      }
    }
    assert rows[..|rows|] == rows;
  }

  method PairedUsedTotals(prev: map<Node, Observation>, cur: seq<Observation>, ghost prevRows: seq<Observation>)
    returns (before: real, after: real)
    requires forall n :: n in prev <==> Of(prevRows, n).Some?
    requires forall n :: n in prev ==> prev[n] == Of(prevRows, n).value
    ensures before == Sum(cur, BytesBefore(prevRows)) && after == Sum(cur, BytesAfter(prevRows))
  {
    before, after := 0.0, 0.0;
    for i := 0 to |cur|
      invariant before == Sum(cur[..i], BytesBefore(prevRows)) && after == Sum(cur[..i], BytesAfter(prevRows))
    {
      assert cur[..i + 1] == cur[..i] + [cur[i]];
      SumSnoc(cur[..i], cur[i], BytesBefore(prevRows));
      SumSnoc(cur[..i], cur[i], BytesAfter(prevRows));
      if cur[i].node !in prev {
        continue;
      }
      var p := prev[cur[i].node];
      var b := UsedBytes(p.dataTotal, p.dataAvailable);
      var a := UsedBytes(cur[i].dataTotal, cur[i].dataAvailable);
      if b.None? || a.None? {
        continue;
      }
      before := before + b.value as real;
      after := after + a.value as real;
    }
    assert cur[..|cur|] == cur;
  }

  /** Daemon version and zone: an empty value on either side is never a change. */
  method CompareStatus(p: Observation, cur: Observation) returns (events: seq<Event>)
    ensures events == StatusEvents(p, cur)
  {
    events := [];
    if p.garageVersion != "" && cur.garageVersion != "" && p.garageVersion != cur.garageVersion {
      events := events + [VersionChanged(cur.node, p.garageVersion, cur.garageVersion)];
    }
    if p.zone != "" && cur.zone != "" && p.zone != cur.zone {
      events := events + [ZoneChanged(cur.node, p.zone, cur.zone)];
    }
  }

  /** The layout role, which needs the gate on both rows. */
  method CompareRole(p: Observation, cur: Observation) returns (events: seq<Event>)
    ensures events == RoleEvents(p, cur)
  {
    events := [];
    if !p.roleOk || !cur.roleOk {
      return;
    }
    if p.capacity != cur.capacity {
      if p.capacity == 0 {
        events := events + [NodeAdded(cur.node, cur.capacity)];
      } else if cur.capacity == 0 {
        events := events + [NodeRemoved(cur.node, p.capacity)];
      } else {
        events := events + [CapacityChanged(cur.node, p.capacity, cur.capacity)];
      }
    }
    if p.tags != cur.tags {
      events := events + [TagsChanged(cur.node, p.tags, cur.tags)];
    }
  }

  /** The comparisons made for one node, in the order they are made. */
  method CompareNode(p: Observation, cur: Observation, totalBefore: real, totalAfter: real) returns (events: seq<Event>)
    ensures events == NodeEvents(p, cur, totalBefore, totalAfter)
  {
    hide DropsData, StatusEvents, RoleEvents, DiskEvents;
    events := [];
    if p.isUp && !cur.isUp {
      events := events + [NodeDown(cur.node)];
    }
    events := events + DiskEvents(cur.node, Data, p.dataTotal, cur.dataTotal);
    events := events + DiskEvents(cur.node, Meta, p.metaTotal, cur.metaTotal);
    var beforeUsed, afterUsed := Used(p), Used(cur);
    if beforeUsed.Some? && afterUsed.Some? && DropsData(beforeUsed.value, afterUsed.value, totalBefore, totalAfter) {
      events := events + [DataDropped(cur.node, beforeUsed.value, afterUsed.value)];
    }
    var status := CompareStatus(p, cur);
    var role := CompareRole(p, cur);
    events := events + status + role;
  }

  method CompareReported(prev: map<Node, Observation>, cur: seq<Observation>, before: real, after: real,
                         ghost prevRows: seq<Observation>)
    returns (events: seq<Event>)
    requires forall n :: n in prev <==> Of(prevRows, n).Some?
    requires forall n :: n in prev ==> prev[n] == Of(prevRows, n).value
    ensures events == ReportedEvents(prevRows, cur, before, after)
  {
    hide NodeEvents, Of;
    events := [];
    for i := 0 to |cur|
      invariant events == ReportedEvents(prevRows, cur[..i], before, after)
    {
      assert cur[..i + 1][..i] == cur[..i];
      if cur[i].node !in prev {
        continue; // no base to compare with
      }
      var own := CompareNode(prev[cur[i].node], cur[i], before, after);
      events := events + own;
    }
    assert cur[..|cur|] == cur;
  }

  method CollectVanished(prevRows: seq<Observation>, seenNow: map<Node, Observation>, failed: set<Node>,
                         ghost curRows: seq<Observation>)
    returns (events: seq<Event>)
    requires forall n :: n in seenNow <==> Of(curRows, n).Some?
    ensures events == VanishedEvents(prevRows, curRows, failed)
  {
    hide Of;
    events := [];
    for i := 0 to |prevRows|
      invariant events == VanishedEvents(prevRows[..i], curRows, failed)
    {
      assert prevRows[..i + 1][..i] == prevRows[..i];
      var p := prevRows[i];
      if p.node in seenNow {
        continue;
      }
      if p.node in failed {
        continue;
      }
      events := events + [NodeRemoved(p.node, p.capacity)];
    }
    assert prevRows[..|prevRows|] == prevRows;
  }

  method DiffObservations(prevRows: seq<Observation>, curRows: seq<Observation>, failedIds: seq<Node>)
    returns (events: seq<Event>)
    ensures events == Diff(prevRows, curRows, set n | n in failedIds)
  {
    events := [];
    var prev := ByNode(prevRows);
    var seenNow := ByNode(curRows);
    var failed := set n | n in failedIds;
    var prevVersion, curVersion := LayoutVersionOf(prevRows), LayoutVersionOf(curRows);
    if prevVersion.Some? && curVersion.Some? && prevVersion != curVersion {
      events := events + [LayoutMoved(prevVersion.value, curVersion.value)];
    }
    var before, after := PairedUsedTotals(prev, curRows, prevRows);
    var reported := CompareReported(prev, curRows, before, after, prevRows);
    var vanished := CollectVanished(prevRows, seenNow, failed, curRows);
    events := events + reported + vanished;
  }

  // ---- reconcileOngoing -----------------------------------------------------------------

  method IndexOpenRows(openRows: seq<OpenRow>) returns (open: ByCondition, recent: ByCondition)
    ensures open == OpenOf(openRows) && recent == RecentOf(openRows)
  {
    open, recent := map[], map[];
    for i := 0 to |openRows|
      invariant open == OpenOf(openRows[..i]) && recent == RecentOf(openRows[..i])
    {
      assert openRows[..i + 1][..i] == openRows[..i];
      var row := openRows[i];
      if row.ended.None? {
        open := open[row.cond := row];
        continue;
      }
      if row.cond !in recent || recent[row.cond].ended.None? || row.ended.value > recent[row.cond].ended.value {
        recent := recent[row.cond := row];
      }
    }
    assert openRows[..|openRows|] == openRows;
  }

  method CloseOver(open: ByCondition, cur: seq<Observation>, failedIds: seq<Node>) returns (closes: set<nat>)
    ensures closes == Closes(open, cur, set n | n in failedIds)
  {
    var seenNow := ByNode(cur);
    var failed := set n | n in failedIds;
    closes := {};
    var pending := open.Keys;
    while pending != {}
      invariant pending <= open.Keys
      invariant closes == set c | c in open && c !in pending && ActivityAt(c, cur, failed) == Over :: open[c].id
      decreases pending
    {
      var c :| c in pending;
      var seen := if c.node in seenNow then Some(seenNow[c.node]) else None;
      if ConditionActive(c, seen, c.node in failed) == Over {
        closes := closes + {open[c].id};
      }
      pending := pending - {c};
    }
  }

  method ReconcileOngoing(events: seq<Event>, cur: seq<Observation>, openRows: seq<OpenRow>, failedIds: seq<Node>)
    returns (plan: Plan)
    ensures plan == Reconcile(events, cur, openRows, set n | n in failedIds)
  {
    hide OpenOf, RecentOf, Closes;
    var open, recent := IndexOpenRows(openRows);
    var closes := CloseOver(open, cur, failedIds);
    var creates, reopens := [], [];
    for i := 0 to |events|
      invariant Routed(creates, reopens, recent) == Route(events[..i], open, RecentOf(openRows))
    {
      assert events[..i + 1][..i] == events[..i];
      var e := events[i];
      if ConditionOf(e).None? {
        creates := creates + [e];
        continue;
      }
      var c := ConditionOf(e).value;
      if c in open {
        continue;
      }
      if c in recent {
        var prior := recent[c];
        reopens := reopens + [Reopen(prior.id, (if prior.count == 0 then 1 else prior.count) + 1)];
        recent := recent - {c};
        continue;
      }
      creates := creates + [e];
    }
    assert events[..|events|] == events;
    plan := Plan(creates, reopens, closes);
  }

  // ---- the stored samples ---------------------------------------------------------------

  datatype Sample = Sample(created: int, obs: Observation)

  /** The newest sample of each node inside the window, newest first; `seen` nodes are skipped. */
  function Previous(samples: seq<Sample>, cutoff: int, seen: set<Node>): seq<Observation> {
    if samples == [] then []
    else
      var x := samples[|samples| - 1];
      if x.created >= cutoff && x.obs.node != "" && x.obs.node !in seen
      then [x.obs] + Previous(samples[..|samples| - 1], cutoff, seen + {x.obs.node})
      else Previous(samples[..|samples| - 1], cutoff, seen)
  }

  function Newest(samples: seq<Sample>, cutoff: int, n: Node): Option<Observation> {
    if samples == [] then None
    else
      var x := samples[|samples| - 1];
      if x.created >= cutoff && x.obs.node == n then Some(x.obs) else Newest(samples[..|samples| - 1], cutoff, n)
  }

  lemma {:induction false} OfPrepend(x: Observation, rows: seq<Observation>, n: Node)
    ensures Of([x] + rows, n)
        == if Of(rows, n).Some? then Of(rows, n) else if x.node == n && n != "" then Some(x) else None
  {
    if rows != [] {
      assert ([x] + rows)[..|rows|] == [x] + rows[..|rows| - 1];
      OfPrepend(x, rows[..|rows| - 1], n);
    }
  }

  /** The diff base holds one row per node, and it is that node's newest sample in the window. */
  lemma {:induction false} PreviousIsNewest(samples: seq<Sample>, cutoff: int, seen: set<Node>, n: Node)
    ensures OnePerNode(Previous(samples, cutoff, seen))
    ensures forall o :: o in Previous(samples, cutoff, seen) ==> o.node !in seen
    ensures n != "" && n !in seen ==> Of(Previous(samples, cutoff, seen), n) == Newest(samples, cutoff, n)
  {
    if samples != [] {
      var rest, x := samples[..|samples| - 1], samples[|samples| - 1];
      if x.created >= cutoff && x.obs.node != "" && x.obs.node !in seen {
        PreviousIsNewest(rest, cutoff, seen + {x.obs.node}, n);
        OfPrepend(x.obs, Previous(rest, cutoff, seen + {x.obs.node}), n);
        OfMember(Previous(rest, cutoff, seen + {x.obs.node}), n);
      } else {
        PreviousIsNewest(rest, cutoff, seen, n);
      }
    }
  }

  /** Sample `j` is the newest one of node `n` that is not older than the cutoff. */
  ghost predicate IsNewest(samples: seq<Sample>, cutoff: int, n: Node, j: nat) {
    && j < |samples| && samples[j].obs.node == n && samples[j].created >= cutoff
    && forall k :: j < k < |samples| && samples[k].obs.node == n ==> samples[k].created < cutoff
  }

  lemma {:induction false} NewestIs(samples: seq<Sample>, cutoff: int, n: Node, j: nat)
    requires IsNewest(samples, cutoff, n, j)
    ensures Newest(samples, cutoff, n) == Some(samples[j].obs)
  {
    if j < |samples| - 1 {
      var rest := samples[..|samples| - 1];
      assert forall k :: 0 <= k < |rest| ==> rest[k] == samples[k];
      NewestIs(rest, cutoff, n, j);
    }
  }

  /** The diff base are the newest samples in the window, one for each node that has one there. */
  lemma {:induction false} PreviousAreNewest(samples: seq<Sample>, cutoff: int, n: Node)
    requires n != ""
    ensures OnePerNode(Previous(samples, cutoff, {}))
    ensures
      forall j :: 0 <= j < |samples| && IsNewest(samples, cutoff, n, j) ==>
        samples[j].obs in Previous(samples, cutoff, {})
    ensures
      forall o :: o in Previous(samples, cutoff, {}) && o.node == n ==>
        exists j :: 0 <= j < |samples| && IsNewest(samples, cutoff, n, j) && samples[j].obs == o
  {
    var base := Previous(samples, cutoff, {});
    PreviousIsNewest(samples, cutoff, {}, n);
    OfMember(base, n);
    forall j | 0 <= j < |samples| && IsNewest(samples, cutoff, n, j) ensures samples[j].obs in base {
      NewestIs(samples, cutoff, n, j);
    }
    forall o | o in base && o.node == n
      ensures exists j :: 0 <= j < |samples| && IsNewest(samples, cutoff, n, j) && samples[j].obs == o
    {
      OfUnique(base, o);
      NewestFound(samples, cutoff, n);
    }
  }

  lemma {:induction false} NewestFound(samples: seq<Sample>, cutoff: int, n: Node)
    requires Newest(samples, cutoff, n).Some?
    ensures
      exists j :: 0 <= j < |samples| && IsNewest(samples, cutoff, n, j)
                  && samples[j].obs == Newest(samples, cutoff, n).value
  {
    var rest, x := samples[..|samples| - 1], samples[|samples| - 1];
    if x.created >= cutoff && x.obs.node == n {
      assert IsNewest(samples, cutoff, n, |samples| - 1);
    } else {
      NewestFound(rest, cutoff, n);
      var j :| 0 <= j < |rest| && IsNewest(rest, cutoff, n, j) && rest[j].obs == Newest(rest, cutoff, n).value;
      assert forall k :: 0 <= k < |rest| ==> rest[k] == samples[k];
      assert IsNewest(samples, cutoff, n, j);
    }
  }

  function Stamped(cur: seq<Observation>, created: int): seq<Sample> {
    seq(|cur|, i requires 0 <= i < |cur| => Sample(created, cur[i]))
  }

  /** A gated scrape hands its layout version on: the next one inside the window compares against
      exactly that version, whatever older samples the base also holds. */
  lemma {:induction false} VersionCarried(samples: seq<Sample>, cur: seq<Observation>, created: int, cutoff: int,
                                          v: nat)
    requires cur != [] && OnePerNode(cur) && created >= cutoff
    requires forall o :: o in cur ==> o.roleOk && o.layoutVersion == v
    ensures LayoutVersionOf(Previous(samples + Stamped(cur, created), cutoff, {})) == Some(v) == LayoutVersionOf(cur)
  {
    var all := samples + Stamped(cur, created);
    assert all[|all| - 1] == Sample(created, cur[|cur| - 1]);
    assert cur[|cur| - 1] in cur && cur[0] in cur;
  }

  // ---- one scrape -----------------------------------------------------------------------

  /** A node the cluster reported, and whether its row could be written. */
  datatype Reported = Reported(obs: Observation, saves: bool)

  function Saved(nodes: seq<Reported>): seq<Observation> {
    if nodes == [] then []
    else Saved(nodes[..|nodes| - 1]) + if nodes[|nodes| - 1].saves then [nodes[|nodes| - 1].obs] else []
  }

  function FailedIds(nodes: seq<Reported>): seq<Node> {
    if nodes == [] then []
    else FailedIds(nodes[..|nodes| - 1]) + if nodes[|nodes| - 1].saves then [] else [nodes[|nodes| - 1].obs.node]
  }

  ghost predicate DistinctReports(nodes: seq<Reported>) {
    && (forall i :: 0 <= i < |nodes| ==> nodes[i].obs.node != "")
    && (forall i, j :: 0 <= i < j < |nodes| ==> nodes[i].obs.node != nodes[j].obs.node)
  }

  lemma {:induction false} SavedAreReported(nodes: seq<Reported>)
    ensures forall x :: x in Saved(nodes) ==> exists i :: 0 <= i < |nodes| && nodes[i].obs == x
    ensures forall n :: n in FailedIds(nodes) ==> exists i :: 0 <= i < |nodes| && nodes[i].obs.node == n
  {
    if nodes != [] {
      var rest := nodes[..|nodes| - 1];
      SavedAreReported(rest);
      assert forall i :: 0 <= i < |rest| ==> rest[i] == nodes[i];
    }
  }

  lemma {:induction false} SavedOnce(nodes: seq<Reported>)
    requires DistinctReports(nodes)
    ensures OnePerNode(Saved(nodes))
    ensures forall x :: x in Saved(nodes) ==> x.node !in FailedIds(nodes)
    ensures forall x :: x in Saved(nodes) ==> exists i :: 0 <= i < |nodes| && nodes[i].obs == x
    ensures forall n :: n in FailedIds(nodes) ==> exists i :: 0 <= i < |nodes| && nodes[i].obs.node == n
  {
    SavedAreReported(nodes);
    if nodes != [] {
      var rest, last := nodes[..|nodes| - 1], nodes[|nodes| - 1];
      SavedOnce(rest);
      forall x | x in Saved(rest) ensures x.node != last.obs.node {
        var i :| 0 <= i < |rest| && rest[i].obs == x;
        assert nodes[i].obs.node != nodes[|nodes| - 1].obs.node;
      }
      forall n | n in FailedIds(rest) ensures n != last.obs.node {
        var i :| 0 <= i < |rest| && rest[i].obs.node == n;
        assert nodes[i].obs.node != nodes[|nodes| - 1].obs.node;
      }
    }
  }

  /** How many of the first `i` reports were saved. */
  function SavesBefore(nodes: seq<Reported>, i: nat): nat
    requires i <= |nodes|
  {
    if i == 0 then 0 else SavesBefore(nodes, i - 1) + if nodes[i - 1].saves then 1 else 0
  }

  lemma {:induction false} SavesOfPrefix(nodes: seq<Reported>, more: seq<Reported>, i: nat)
    requires i <= |nodes|
    ensures SavesBefore(nodes + more, i) == SavesBefore(nodes, i)
  {
    if i > 0 { SavesOfPrefix(nodes, more, i - 1); }
  }

  /** The report was saved, in its turn, or its node counts as failed. */
  ghost predicate ReportCounts(nodes: seq<Reported>, i: nat)
    requires i < |nodes|
  {
    if nodes[i].saves then SavesBefore(nodes, i) < |Saved(nodes)| && Saved(nodes)[SavesBefore(nodes, i)] == nodes[i].obs
    else nodes[i].obs.node in FailedIds(nodes)
  }

  lemma ReportStillCounts(rest: seq<Reported>, last: Reported, i: nat)
    requires i < |rest| && ReportCounts(rest, i)
    ensures ReportCounts(rest + [last], i)
  {
    SavesOfPrefix(rest, [last], i);
    assert (rest + [last])[..|rest|] == rest && (rest + [last])[i] == rest[i];
  }

  /** Every report is saved or failed: the saved ones are there, once each and in order, whatever they
      say, and so are the nodes of the others. */
  lemma {:induction false} EveryReportCounts(nodes: seq<Reported>)
    ensures |Saved(nodes)| == SavesBefore(nodes, |nodes|) && |Saved(nodes)| + |FailedIds(nodes)| == |nodes|
    ensures forall i :: 0 <= i < |nodes| ==> ReportCounts(nodes, i)
  {
    if nodes != [] {
      var rest, last := nodes[..|nodes| - 1], nodes[|nodes| - 1];
      EveryReportCounts(rest);
      assert nodes == rest + [last];
      SavesOfPrefix(rest, [last], |rest|);
      forall i | 0 <= i < |rest| ensures ReportCounts(nodes, i) {
        ReportStillCounts(rest, last, i);
      }
    }
  }

  function NotOlder(cutoff: int): Sample -> bool {
    (x: Sample) => x.created >= cutoff
  }

  /** `days` is the parsed retention; unset, unreadable and negative values mean 90 days and zero
      means forever. */
  function RetentionDays(days: Option<int>): nat {
    if days.None? || days.value < 0 then 90 else days.value
  }

  /** The sample is not older than the days to keep: 90 when the setting is missing, unreadable or
      negative, any number of them when it is zero. */
  ghost predicate YoungEnough(x: Sample, now: int, days: Option<int>) {
    match days
    case None => x.created >= now - 90 * 86400
    case Some(d) =>
      if d < 0 then x.created >= now - 90 * 86400 else d > 0 ==> x.created >= now - d * 86400
  }

  /** The scrape as the timeline sees it. */
  function ScrapeOf(samples: seq<Sample>, nodes: seq<Reported>, start: int, now: int, t: int): Scrape {
    Scrape(Previous(samples, start - PREV_WINDOW_SEC, {}), Saved(nodes), (set n | n in FailedIds(nodes)), now, t)
  }

  function PlanSize(plan: Plan): nat {
    |plan.closes| + |plan.reopens| + |plan.creates|
  }

  /** The stored samples after a scrape. */
  function SamplesAfter(samples: seq<Sample>, nodes: seq<Reported>, start: int, t: int, prune: bool, days: Option<int>)
    : seq<Sample>
  {
    var all := samples + Stamped(Saved(nodes), start);
    if prune && RetentionDays(days) != 0 then Filter(all, NotOlder(t - RetentionDays(days) * 86400)) else all
  }

  lemma PlanIdsExist(rows: seq<Row>, s: Scrape)
    requires OnePerNode(s.prev) && OnePerNode(s.cur)
    ensures var plan := PlanOf(rows, s);
      (forall i :: i in plan.closes ==> i < |rows|) && (forall r :: r in plan.reopens ==> r.id < |rows|)
  {
    hide ReadOpen, OpenOf, RecentOf, Route, Detected;
    var list := ReadOpen(rows, s.now - FLAP_WINDOW_SEC);
    var plan := Reconcile(Detected(s), s.cur, list, s.failed);
    ReadOpenMembers(rows, s.now - FLAP_WINDOW_SEC);
    OpenOfMembers(list);
    forall r | r in plan.reopens ensures r.id < |rows| { ReopensAre(rows, s, r); }
  }

  class Monitor {
    var samples: seq<Sample>
    var rows: seq<Row>

    /** `last` is the instant of the last scrape. */
    ghost predicate Valid(last: int)
      reads this
    {
      Sound(rows, last)
    }

    constructor ()
      ensures samples == [] && rows == []
      ensures forall last :: Valid(last)
    {
      samples, rows := [], [];
    }

    method ReadPrevious(cutoff: int) returns (out: seq<Observation>)
      ensures out == Previous(samples, cutoff, {})
    {
      out := [];
      var seen: set<Node> := {};
      var i := |samples|;
      assert samples[..i] == samples;
      while i > 0
        invariant 0 <= i <= |samples|
        invariant out + Previous(samples[..i], cutoff, seen) == Previous(samples, cutoff, {})
      {
        i := i - 1;
        assert samples[..i + 1][..i] == samples[..i];
        var x := samples[i];
        if x.created < cutoff || x.obs.node == "" || x.obs.node in seen {
          continue;
        }
        seen := seen + {x.obs.node};
        out := out + [x.obs];
      }
    }

    method ReadOpenConditions(cutoff: int) returns (out: seq<OpenRow>)
      ensures out == ReadOpen(rows, cutoff)
    {
      out := [];
      var i := |rows|;
      assert rows[..i] == rows;
      while i > 0
        invariant 0 <= i <= |rows|
        invariant out + ReadOpen(rows[..i], cutoff) == ReadOpen(rows, cutoff)
      {
        i := i - 1;
        assert rows[..i + 1][..i] == rows[..i];
        var row := rows[i];
        if row.source != Detector || (row.ended.Some? && row.ended.value < cutoff) {
          continue;
        }
        if ConditionOf(row.what).None? {
          continue;
        }
        out := out + [OpenRow(i, ConditionOf(row.what).value, row.ended, row.count)];
      }
    }

    /** Each write is a save of its own; `budget` is how many go through before one throws. `done`
        is what was written of the plan. */
    method RecordEvents(plan: Plan, t: int, budget: nat)
      returns (ok: bool, created: nat, reopened: nat, closed: nat, ghost done: Plan)
      requires forall i :: i in plan.closes ==> i < |rows|
      requires forall r :: r in plan.reopens ==> r.id < |rows|
      modifies `rows
      ensures rows == Apply(old(rows), done, t) && PartOf(done, plan)
      ensures ok ==> done == plan
      ensures ok ==> created == |plan.creates| && reopened == |plan.reopens| && closed == |plan.closes|
      ensures ok <==> |plan.closes| + |plan.reopens| + |plan.creates| <= budget
      ensures !ok ==> |done.closes| + |done.reopens| + |done.creates| == budget
      ensures |done.closes| < |plan.closes| ==> done.reopens == [] && done.creates == []
      ensures |done.reopens| < |plan.reopens| ==> done.creates == []
    {
      hide ReopenRows, CreateRows, CloseRows;
      created, reopened := 0, 0;
      ghost var closes: set<nat>;
      ok, closed, closes := CloseAll(plan.closes, t, budget);
      done := Plan([], [], closes);
      ApplyNothing(rows, t);
      if !ok {
        return;
      }
      ghost var reopens: seq<Reopen>;
      ok, reopened, reopens := ReopenAll(plan.reopens, budget - closed);
      done := Plan([], reopens, closes);
      ApplyNothing(rows, t);
      if !ok {
        return;
      }
      ghost var creates: seq<Event>;
      ok, created, creates := CreateAll(plan.creates, t, budget - closed - reopened);
      done := Plan(creates, reopens, closes);
    }

    method CloseAll(closes: set<nat>, t: int, budget: nat) returns (ok: bool, closed: nat, ghost done: set<nat>)
      requires forall i :: i in closes ==> i < |rows|
      modifies `rows
      ensures done <= closes && rows == CloseRows(old(rows), done, t) && |rows| == |old(rows)|
      ensures closed == |done| <= budget
      ensures ok ==> done == closes
      ensures ok <==> |closes| <= budget
      ensures !ok ==> closed == budget
    {
      hide CloseRows;
      closed, ok := 0, true;
      var pending := closes;
      done := {};
      ApplyNothing(rows, t);
      while pending != {}
        invariant pending <= closes && closed == |closes| - |pending| && closed <= budget
        invariant done == closes - pending && closed == |done|
        invariant rows == CloseRows(old(rows), done, t) && |rows| == |old(rows)|
        decreases pending
      {
        if closed == budget {
          ok := false;
          return;
        }
        var id :| id in pending;
        CloseOne(old(rows), done, id, t);
        rows := rows[id := rows[id].(ended := Some(t))];
        pending := pending - {id};
        done := done + {id};
        closed := closed + 1;
      }
    }

    method ReopenAll(reopens: seq<Reopen>, budget: nat) returns (ok: bool, reopened: nat, ghost done: seq<Reopen>)
      requires forall r :: r in reopens ==> r.id < |rows|
      modifies `rows
      ensures done <= reopens && rows == ReopenRows(old(rows), done) && reopened == |done| <= budget
      ensures ok ==> done == reopens
      ensures ok <==> |reopens| <= budget
      ensures !ok ==> reopened == budget
    {
      reopened := 0;
      for i := 0 to |reopens|
        invariant rows == ReopenRows(old(rows), reopens[..i]) && |rows| == |old(rows)| && reopened == i <= budget
      {
        if i == budget {
          return false, i, reopens[..i];
        }
        assert reopens[..i + 1][..i] == reopens[..i];
        var r := reopens[i];
        rows := rows[r.id := rows[r.id].(ended := None, count := r.count)];
        reopened := reopened + 1;
      }
      assert reopens[..|reopens|] == reopens;
      ok, done := true, reopens;
    }

    method CreateAll(creates: seq<Event>, t: int, budget: nat) returns (ok: bool, created: nat, ghost done: seq<Event>)
      modifies `rows
      ensures done <= creates && rows == old(rows) + CreateRows(done, t) && created == |done| <= budget
      ensures ok ==> done == creates
      ensures ok <==> |creates| <= budget
      ensures !ok ==> created == budget
    {
      created := 0;
      for i := 0 to |creates|
        invariant rows == old(rows) + CreateRows(creates[..i], t) && created == i <= budget
      {
        if i == budget {
          return false, i, creates[..i];
        }
        var e := creates[i];
        var ongoing := ConditionOf(e).Some?;
        rows := rows + [Row(Detector, e, t, if ongoing then None else Some(t), if ongoing then 1 else 0)];
        created := created + 1;
      }
      assert creates[..|creates|] == creates;
      ok, done := true, creates;
    }

    /** Write this scrape's samples; a row that throws is noted and left out. */
    method SaveSamples(nodes: seq<Reported>, created: int) returns (current: seq<Observation>, failedIds: seq<Node>)
      modifies `samples
      ensures current == Saved(nodes) && failedIds == FailedIds(nodes)
      ensures samples == old(samples) + Stamped(Saved(nodes), created)
    {
      current, failedIds := [], [];
      for i := 0 to |nodes|
        invariant current == Saved(nodes[..i]) && failedIds == FailedIds(nodes[..i])
        invariant samples == old(samples) + Stamped(Saved(nodes[..i]), created)
      {
        assert nodes[..i + 1][..i] == nodes[..i];
        if nodes[i].saves {
          samples := samples + [Sample(created, nodes[i].obs)];
          current := current + [nodes[i].obs];
        } else {
          failedIds := failedIds + [nodes[i].obs.node];
        }
      }
      assert nodes[..|nodes|] == nodes;
    }

    /** Delete at most 500 of the samples older than the cutoff. */
    method PruneBatch(cutoff: int) returns (removed: nat)
      modifies `samples
      ensures removed == |old(samples)| - |samples|
      ensures Filter(samples, NotOlder(cutoff)) == Filter(old(samples), NotOlder(cutoff))
      ensures removed == 0 ==> samples == Filter(old(samples), NotOlder(cutoff))
    {
      hide Filter;
      var was := samples;
      var kept: seq<Sample> := [];
      FilterNone([], NotOlder(cutoff));
      removed := 0;
      for i := 0 to |was|
        invariant samples == was && removed == i - |kept|
        invariant Filter(kept, NotOlder(cutoff)) == Filter(was[..i], NotOlder(cutoff))
        invariant removed == 0 ==> kept == Filter(was[..i], NotOlder(cutoff))
      {
        assert was[..i + 1] == was[..i] + [was[i]];
        FilterSnoc(was[..i], was[i], NotOlder(cutoff));
        FilterSnoc(kept, was[i], NotOlder(cutoff));
        if was[i].created < cutoff && removed < 500 {
          removed := removed + 1;
        } else {
          kept := kept + [was[i]];
        }
      }
      assert was[..|was|] == was;
      samples := kept;
    }

    method PruneOld(days: Option<int>, now: int) returns (pruned: nat)
      modifies `samples
      ensures var kept := RetentionDays(days);
        samples == if kept == 0 then old(samples) else Filter(old(samples), NotOlder(now - kept * 86400))
      ensures pruned == |old(samples)| - |samples|
      ensures forall x :: x in samples <==> x in old(samples) && YoungEnough(x, now, days)
    {
      hide Filter;
      FilterMembers(samples, NotOlder(now - RetentionDays(days) * 86400));
      var kept := RetentionDays(days);
      pruned := 0;
      if kept == 0 {
        return;
      }
      var cutoff := now - kept * 86400;
      var more := true;
      while more
        invariant pruned == |old(samples)| - |samples|
        invariant Filter(samples, NotOlder(cutoff)) == Filter(old(samples), NotOlder(cutoff))
        invariant !more ==> samples == Filter(old(samples), NotOlder(cutoff))
        decreases more, |samples|
      {
        var removed := PruneBatch(cutoff);
        pruned := pruned + removed;
        more := removed > 0;
      }
    }

    /** `start`, `now` and `t` are the clock at the first read, at the read of the open rows and
        at the write. The previous samples are read before this scrape's are written; `remembers`
        is false when that read throws, which is caught: nothing opens then, but what is over is
        still closed. Whatever throws between reading the open rows and the last write of the plan
        is caught, and what was written is committed: `detects` is false when detection throws
        before its first write, `budget` numbers the write that throws. */
    method ScrapeOnce(nodes: seq<Reported>, start: int, now: int, t: int, remembers: bool, detects: bool,
                      budget: nat, prune: bool, days: Option<int>, ghost last: int)
      returns (ok: bool, ghost done: Plan)
      requires Valid(last) && DistinctReports(nodes) && last < start <= now <= t
      modifies this
      ensures Valid(t)
      ensures
        var s := ScrapeOf(if remembers then old(samples) else [], nodes, start, now, t);
        && ValidScrape(s, last)
        && PartOf(done, PlanOf(old(rows), s))
        && rows == (if s.cur == [] then old(rows) else Apply(old(rows), done, t))
        && (ok ==> rows == AfterScrape(old(rows), s))
        && (detects && PlanSize(PlanOf(old(rows), s)) <= budget ==> ok)
      ensures samples == SamplesAfter(old(samples), nodes, start, t, prune, days)
      ensures
        forall x ::
          x in samples <==>
            && (x in old(samples) || exists i :: 0 <= i < |nodes| && nodes[i].saves && x == Sample(start, nodes[i].obs))
            && (prune ==> YoungEnough(x, t, days))
      ensures !prune ==> Appended(old(samples), samples, nodes, start)
      ensures ok ==>
        forall i :: 0 <= i < |nodes| && nodes[i].saves ==>
          if nodes[i].obs.isUp then !OutageOpen(rows, nodes[i].obs.node)
          else remembers && WasUp(old(samples), start - 7200, nodes[i].obs.node) ==> OutageOpen(rows, nodes[i].obs.node)
      ensures ok && remembers ==>
        forall n ::
          WasThere(old(samples), start - 7200, n) && SavesBefore(nodes, |nodes|) > 0
          && (forall i :: 0 <= i < |nodes| ==> nodes[i].obs.node != n) ==>
            RemovalOpen(rows, n)
    {
      hide Sound, AfterScrape, Detected, PlanOf, Apply, PartOf, PlanSize, ValidScrape, OnePerNode;
      hide Filter, Saved, FailedIds, Previous, DistinctReports;
      ghost var known := if remembers then samples else [];
      ghost var s := ScrapeOf(known, nodes, start, now, t);
      ScrapeIsValid(known, nodes, start, now, t, last);
      NothingOf(PlanOf(rows, s));
      var previous := [];
      if remembers {
        previous := ReadPrevious(start - PREV_WINDOW_SEC);
      }
      NothingPrevious(start - PREV_WINDOW_SEC);
      var current, failedIds := SaveSamples(nodes, start);
      if |current| > 0 {
        ok, done := DetectAndRecord(previous, current, failedIds, now, t, detects, budget);
        PartKeepsSound(old(rows), last, s, done);
        CompleteIsScrape(old(rows), s);
      } else {
        NothingRecorded(rows, s);
        LaterIsSound(rows, last, t);
        ok, done := true, Plan([], [], {});
      }
      if ok { OutcomeOfScrape(old(rows), last, known, nodes, start, now, t); }
      StampedAre(samples, |old(samples)|, nodes, start);
      if prune {
        var pruned := PruneOld(days, t);
      }
    }

    method DetectAndRecord(previous: seq<Observation>, current: seq<Observation>, failedIds: seq<Node>,
                           now: int, t: int, detects: bool, budget: nat)
      returns (ok: bool, ghost done: Plan)
      requires OnePerNode(previous) && OnePerNode(current) && current != []
      modifies `rows
      ensures
        var plan := PlanOf(old(rows), Scrape(previous, current, (set n | n in failedIds), now, t));
        && rows == Apply(old(rows), done, t) && PartOf(done, plan) && (ok ==> done == plan)
        && (detects && PlanSize(plan) <= budget ==> ok)
    {
      hide ReadOpen, Diff, Apply, Reconcile, OnePerNode;
      ghost var s := Scrape(previous, current, (set n | n in failedIds), now, t);
      if !detects {
        ApplyNothing(rows, t);
        return false, Plan([], [], {});
      }
      var detected := [];
      if |previous| > 0 {
        detected := DiffObservations(previous, current, failedIds);
      }
      assert detected == Detected(s);
      var openRows := ReadOpenConditions(now - FLAP_WINDOW_SEC);
      PlanIdsExist(rows, s);
      var plan := ReconcileOngoing(detected, current, openRows, failedIds);
      var created, reopened, closed;
      ok, created, reopened, closed, done := RecordEvents(plan, t, budget);
    }
  }

  lemma ScrapeIsValid(samples: seq<Sample>, nodes: seq<Reported>, start: int, now: int, t: int, last: int)
    requires DistinctReports(nodes) && last < start <= now <= t
    ensures
      var s := ScrapeOf(samples, nodes, start, now, t);
      ValidScrape(s, last) && OnePerNode(s.prev) && OnePerNode(s.cur)
  {
    hide Saved, FailedIds, Previous;
    PreviousIsNewest(samples, start - PREV_WINDOW_SEC, {}, "");
    SavedOnce(nodes);
  }

  // ---- what the scrape is worth ----------------------------------------------------------

  ghost predicate OutageOpen(rows: seq<Row>, n: Node) {
    exists i :: 0 <= i < |rows| && IsOutage(rows[i], n) && rows[i].ended.None?
  }

  ghost predicate RemovalOpen(rows: seq<Row>, n: Node) {
    exists i :: 0 <= i < |rows| && IsRemoval(rows[i], n) && rows[i].ended.None?
  }

  /** The node has a sample since the cutoff, and its newest one is up. */
  ghost predicate WasUp(samples: seq<Sample>, cutoff: int, n: Node) {
    exists j :: 0 <= j < |samples| && IsNewest(samples, cutoff, n, j) && samples[j].obs.isUp
  }

  ghost predicate WasThere(samples: seq<Sample>, cutoff: int, n: Node) {
    n != "" && exists j :: 0 <= j < |samples| && IsNewest(samples, cutoff, n, j)
  }

  /** One sample for each saved report, in the order of the reports, stamped with the instant. */
  ghost predicate Appended(before: seq<Sample>, after: seq<Sample>, nodes: seq<Reported>, start: int) {
    && |after| == |before| + SavesBefore(nodes, |nodes|) && after[..|before|] == before
    && forall i :: 0 <= i < |nodes| && nodes[i].saves ==>
         var k := |before| + SavesBefore(nodes, i);
         k < |after| && after[k] == Sample(start, nodes[i].obs)
  }

  lemma OutcomeOfScrape(rows: seq<Row>, last: int, samples: seq<Sample>, nodes: seq<Reported>, start: int, now: int,
                        t: int)
    requires Sound(rows, last) && DistinctReports(nodes) && last < start <= now <= t
    ensures
      var after := AfterScrape(rows, ScrapeOf(samples, nodes, start, now, t));
      forall i :: 0 <= i < |nodes| && nodes[i].saves ==>
        if nodes[i].obs.isUp then !OutageOpen(after, nodes[i].obs.node)
        else WasUp(samples, start - 7200, nodes[i].obs.node) ==> OutageOpen(after, nodes[i].obs.node)
    ensures
      var after := AfterScrape(rows, ScrapeOf(samples, nodes, start, now, t));
      forall n ::
        WasThere(samples, start - 7200, n) && SavesBefore(nodes, |nodes|) > 0
        && (forall i :: 0 <= i < |nodes| ==> nodes[i].obs.node != n) ==>
          RemovalOpen(after, n)
  {
    hide Sound, AfterScrape, Previous, Saved, FailedIds, ValidScrape, SavesBefore, IsNewest;
    var s := ScrapeOf(samples, nodes, start, now, t);
    ScrapeIsValid(samples, nodes, start, now, t, last);
    EveryReportCounts(nodes);
    SavedOnce(nodes);
    forall i | 0 <= i < |nodes| && nodes[i].saves
      ensures
        if nodes[i].obs.isUp then !OutageOpen(AfterScrape(rows, s), nodes[i].obs.node)
        else WasUp(samples, start - 7200, nodes[i].obs.node) ==>
          OutageOpen(AfterScrape(rows, s), nodes[i].obs.node)
    {
      assert ReportCounts(nodes, i);
      SavedOutcome(rows, last, samples, s, start, nodes[i].obs);
    }
    forall n | && WasThere(samples, start - 7200, n) && s.cur != []
               && forall i :: 0 <= i < |nodes| ==> nodes[i].obs.node != n
      ensures RemovalOpen(AfterScrape(rows, s), n)
    {
      PreviousAreNewest(samples, start - 7200, n);
      var j :| 0 <= j < |samples| && IsNewest(samples, start - 7200, n, j);
      NewestNode(samples, start - 7200, n, j);
      assert samples[j].obs in s.prev && !Reports(s.cur, n) && n !in s.failed;
      WhatHappenedIsOpen(rows, last, s, n);
    }
  }

  lemma NewestNode(samples: seq<Sample>, cutoff: int, n: Node, j: nat)
    requires IsNewest(samples, cutoff, n, j)
    ensures j < |samples| && samples[j].obs.node == n
  { }

  lemma SavedOutcome(rows: seq<Row>, last: int, samples: seq<Sample>, s: Scrape, start: int, x: Observation)
    requires Sound(rows, last) && ValidScrape(s, last) && x in s.cur && x.node != ""
    requires s.prev == Previous(samples, start - 7200, {})
    ensures x.isUp ==> !OutageOpen(AfterScrape(rows, s), x.node)
    ensures !x.isUp && WasUp(samples, start - 7200, x.node) ==> OutageOpen(AfterScrape(rows, s), x.node)
  {
    hide Sound, AfterScrape, Previous, IsNewest, OnePerNode;
    if x.isUp {
      UpClosesOutages(rows, last, s, x);
      NoOutage(AfterScrape(rows, s), x.node);
    } else if WasUp(samples, start - 7200, x.node) {
      PreviousAreNewest(samples, start - 7200, x.node);
      var j :| 0 <= j < |samples| && IsNewest(samples, start - 7200, x.node, j) && samples[j].obs.isUp;
      NewestNode(samples, start - 7200, x.node, j);
      assert WentDown(s.prev, s.cur, x.node);
      WhatHappenedIsOpen(rows, last, s, x.node);
    }
  }

  lemma NoOutage(rows: seq<Row>, n: Node)
    requires !HasOpen(rows, Outage(n))
    ensures !OutageOpen(rows, n)
  {
    forall i | 0 <= i < |rows| && IsOutage(rows[i], n) ensures rows[i].ended.Some? {
      assert CondRow(rows[i], Outage(n));
    }
  }

  /** The samples that a scrape appends, in front of which there are `k`. */
  lemma StampedAre(samples: seq<Sample>, k: nat, nodes: seq<Reported>, start: int)
    requires k <= |samples| && samples[k..] == Stamped(Saved(nodes), start)
    ensures Appended(samples[..k], samples, nodes, start)
    ensures
      forall x ::
        x in samples <==>
          x in samples[..k] || exists i :: 0 <= i < |nodes| && nodes[i].saves && x == Sample(start, nodes[i].obs)
  {
    hide Saved, FailedIds, SavesBefore, Stamped, Appended;
    EveryReportCounts(nodes);
    assert samples == samples[..k] + samples[k..];
    assert Appended(samples[..k], samples, nodes, start) by { StampedInOrder(samples, k, nodes, start); }
    StampedMembers(nodes, start);
  }

  lemma StampedInOrder(samples: seq<Sample>, k: nat, nodes: seq<Reported>, start: int)
    requires k <= |samples| && samples[k..] == Stamped(Saved(nodes), start)
    ensures Appended(samples[..k], samples, nodes, start)
  {
    hide Saved, FailedIds, SavesBefore;
    EveryReportCounts(nodes);
    var added := Stamped(Saved(nodes), start);
    forall i | 0 <= i < |nodes| && nodes[i].saves
      ensures k + SavesBefore(nodes, i) < |samples|
      ensures samples[k + SavesBefore(nodes, i)] == Sample(start, nodes[i].obs)
    {
      assert ReportCounts(nodes, i);
      assert samples[k..][SavesBefore(nodes, i)] == added[SavesBefore(nodes, i)];
    }
  }

  lemma StampedMembers(nodes: seq<Reported>, start: int)
    ensures
      forall x ::
        x in Stamped(Saved(nodes), start) <==>
          exists i :: 0 <= i < |nodes| && nodes[i].saves && x == Sample(start, nodes[i].obs)
  {
    hide Saved, FailedIds, SavesBefore;
    EveryReportCounts(nodes);
    SavedComeFrom(nodes);
    var saved := Saved(nodes);
    forall i | 0 <= i < |nodes| && nodes[i].saves ensures Sample(start, nodes[i].obs) in Stamped(saved, start) {
      assert ReportCounts(nodes, i);
      assert Stamped(saved, start)[SavesBefore(nodes, i)] == Sample(start, nodes[i].obs);
    }
    forall x | x in Stamped(saved, start)
      ensures exists i :: 0 <= i < |nodes| && nodes[i].saves && x == Sample(start, nodes[i].obs)
    {
      var j :| 0 <= j < |saved| && Stamped(saved, start)[j] == x;
      assert saved[j] in saved;
    }
  }

  lemma {:induction false} SavedComeFrom(nodes: seq<Reported>)
    ensures forall x :: x in Saved(nodes) ==> exists i :: 0 <= i < |nodes| && nodes[i].saves && nodes[i].obs == x
  {
    if nodes != [] {
      var rest := nodes[..|nodes| - 1];
      SavedComeFrom(rest);
      assert forall i :: 0 <= i < |rest| ==> rest[i] == nodes[i];
    }
  }

  lemma NothingPrevious(cutoff: int)
    ensures Previous([], cutoff, {}) == []
  { }

  lemma NothingOf(plan: Plan)
    ensures PartOf(Plan([], [], {}), plan)
  { }

  lemma CloseOne(rows: seq<Row>, done: set<nat>, id: nat, t: int)
    requires id < |rows|
    ensures
      var closed := CloseRows(rows, done, t);
      |closed| == |rows| && closed[id := closed[id].(ended := Some(t))] == CloseRows(rows, done + {id}, t)
  { }

  lemma CompleteIsScrape(rows: seq<Row>, s: Scrape)
    requires s.cur != []
    ensures AfterScrape(rows, s) == Apply(rows, PlanOf(rows, s), s.t)
  { }

  lemma ApplyNothing(rows: seq<Row>, t: int)
    ensures CloseRows(rows, {}, t) == rows && ReopenRows(rows, []) == rows && rows + CreateRows([], t) == rows
    ensures Apply(rows, Plan([], [], {}), t) == rows
  { }
}
