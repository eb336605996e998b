/** What two consecutive scrapes disagree about: `diffObservations` and the pure tests beside it
    (pocketbase/pb_hooks/lib/cluster-events.js), as values. Titles and details are left out. */
module Observations {
  import opened Options
  import opened Sums

  type Node = string

  datatype Observation = Observation(node: Node, zone: string, isUp: bool, roleOk: bool, capacity: nat, tags: string,
                                     layoutVersion: nat, garageVersion: string,
                                     dataTotal: nat, dataAvailable: nat, metaTotal: nat)

  datatype Axis = Data | Meta

  datatype Event =
    | LayoutMoved(versionBefore: nat, versionAfter: nat)
    | NodeDown(node: Node)
    | DiskChanged(node: Node, axis: Axis, bytesBefore: nat, bytesAfter: nat)
    | DataDropped(node: Node, bytesBefore: nat, bytesAfter: nat)
    | VersionChanged(node: Node, before: string, after: string)
    | ZoneChanged(node: Node, before: string, after: string)
    | NodeAdded(node: Node, capacityAfter: nat)
    | NodeRemoved(node: Node, capacityBefore: nat)
    | CapacityChanged(node: Node, capacityBefore: nat, capacityAfter: nat)
    | TagsChanged(node: Node, before: string, after: string)

  /** The two kinds that describe something which starts and later stops. */
  datatype Condition = Outage(node: Node) | Removal(node: Node)

  function ConditionOf(e: Event): Option<Condition> {
    match e
    case NodeDown(n) => Some(Outage(n))
    case NodeRemoved(n, _) => Some(Removal(n))
    case _ => None
  }

  function Instant(): Event -> bool {
    (e: Event) => ConditionOf(e) == None
  }

  function Opens(c: Condition): Event -> bool {
    (e: Event) => ConditionOf(e) == Some(c)
  }

  const DISK_CHANGE_TOLERANCE := 0.01
  const DATA_DROP_PCT := 0.1
  const DATA_DROP_MIN_BYTES := 64 * 1024 * 1024 * 1024
  const CLUSTER_DROP_RATIO := 0.5

  // ---- reading one scrape ---------------------------------------------------------------

  /** `byNode`: the last row of a node wins, rows without a node id are skipped. */
  function Of(rows: seq<Observation>, n: Node): Option<Observation> {
    if rows == [] || n == "" then None
    else if rows[|rows| - 1].node == n then Some(rows[|rows| - 1])
    else Of(rows[..|rows| - 1], n)
  }

  function LayoutVersionOf(rows: seq<Observation>): Option<nat> {
    if rows == [] then None
    else if rows[0].roleOk then Some(rows[0].layoutVersion)
    else LayoutVersionOf(rows[1..])
  }

  function UsedBytes(total: nat, available: nat): Option<nat> {
    if total == 0 then None else Some(if total < available then 0 else total - available)
  }

  function Used(o: Observation): Option<nat> {
    UsedBytes(o.dataTotal, o.dataAvailable)
  }

  // ---- stored bytes over the nodes read in both scrapes ---------------------------------

  predicate ReadTwice(prev: seq<Observation>, cur: Observation) {
    Of(prev, cur.node).Some? && Used(Of(prev, cur.node).value).Some? && Used(cur).Some?
  }

  function BytesBefore(prev: seq<Observation>): Observation -> real {
    (cur: Observation) => if ReadTwice(prev, cur) then Used(Of(prev, cur.node).value).value as real else 0.0
  }

  function BytesAfter(prev: seq<Observation>): Observation -> real {
    (cur: Observation) => if ReadTwice(prev, cur) then Used(cur).value as real else 0.0
  }

  // ---- one node in both scrapes ---------------------------------------------------------

  function DiskEvents(n: Node, axis: Axis, before: nat, after: nat): seq<Event> {
    if before == 0 || after == 0 then []
    else if Abs(after as real - before as real) / before as real <= DISK_CHANGE_TOLERANCE then []
    else [DiskChanged(n, axis, before, after)]
  }

  /** The fraction of `before` that is gone. */
  function Lost(before: real, after: real): real
    requires before > 0.0
  {
    (before - after) / before
  }

  function PeerDrop(peerBefore: real, peerAfter: real): real {
    if peerBefore > 0.0 then Max(Lost(peerBefore, peerAfter), 0.0) else 0.0
  }

  /** `total*` are the cluster's paired bytes, this node included; its peers are the rest. */
  predicate DropsData(before: nat, after: nat, totalBefore: real, totalAfter: real) {
    before >= DATA_DROP_MIN_BYTES
    && var drop := Lost(before as real, after as real);
       drop >= DATA_DROP_PCT
       && PeerDrop(totalBefore - before as real, totalAfter - after as real) < drop * CLUSTER_DROP_RATIO
  }

  function DropEvents(p: Observation, cur: Observation, totalBefore: real, totalAfter: real): seq<Event> {
    if Used(p).Some? && Used(cur).Some? && DropsData(Used(p).value, Used(cur).value, totalBefore, totalAfter)
    then [DataDropped(cur.node, Used(p).value, Used(cur).value)]
    else []
  }

  function StatusEvents(p: Observation, cur: Observation): seq<Event> {
    (if p.garageVersion != "" && cur.garageVersion != "" && p.garageVersion != cur.garageVersion
     then [VersionChanged(cur.node, p.garageVersion, cur.garageVersion)] else [])
    + (if p.zone != "" && cur.zone != "" && p.zone != cur.zone then [ZoneChanged(cur.node, p.zone, cur.zone)] else [])
  }

  function CapacityEvents(n: Node, before: nat, after: nat): seq<Event> {
    if before == after then []
    else if before == 0 then [NodeAdded(n, after)]
    else if after == 0 then [NodeRemoved(n, before)]
    else [CapacityChanged(n, before, after)]
  }

  function RoleEvents(p: Observation, cur: Observation): seq<Event> {
    if !p.roleOk || !cur.roleOk then []
    else
      CapacityEvents(cur.node, p.capacity, cur.capacity)
      + (if p.tags != cur.tags then [TagsChanged(cur.node, p.tags, cur.tags)] else [])
  }

  function NodeEvents(p: Observation, cur: Observation, totalBefore: real, totalAfter: real): seq<Event> {
    (if p.isUp && !cur.isUp then [NodeDown(cur.node)] else [])
    + DiskEvents(cur.node, Data, p.dataTotal, cur.dataTotal)
    + DiskEvents(cur.node, Meta, p.metaTotal, cur.metaTotal)
    + DropEvents(p, cur, totalBefore, totalAfter)
    + StatusEvents(p, cur)
    + RoleEvents(p, cur)
  }

  // ---- the whole scrape -----------------------------------------------------------------

  function LayoutEvents(prev: seq<Observation>, cur: seq<Observation>): seq<Event> {
    var before, after := LayoutVersionOf(prev), LayoutVersionOf(cur);
    if before.Some? && after.Some? && before != after then [LayoutMoved(before.value, after.value)] else []
  }

  function ReportedEvents(prev: seq<Observation>, cur: seq<Observation>, totalBefore: real, totalAfter: real)
    : seq<Event>
  {
    if cur == [] then []
    else
      var x := cur[|cur| - 1];
      ReportedEvents(prev, cur[..|cur| - 1], totalBefore, totalAfter)
      + match Of(prev, x.node) case Some(p) => NodeEvents(p, x, totalBefore, totalAfter) case None => []
  }

  function VanishedEvents(prev: seq<Observation>, cur: seq<Observation>, failed: set<Node>): seq<Event> {
    if prev == [] then []
    else
      var p := prev[|prev| - 1];
      VanishedEvents(prev[..|prev| - 1], cur, failed)
      + if Of(cur, p.node).Some? || p.node in failed then [] else [NodeRemoved(p.node, p.capacity)]
  }

  function Diff(prev: seq<Observation>, cur: seq<Observation>, failed: set<Node>): seq<Event> {
    LayoutEvents(prev, cur)
    + ReportedEvents(prev, cur, Sum(cur, BytesBefore(prev)), Sum(cur, BytesAfter(prev)))
    + VanishedEvents(prev, cur, failed)
  }

  // ---- is a condition still true --------------------------------------------------------

  datatype Activity = Going | Over | CannotTell

  function ConditionActive(c: Condition, cur: Option<Observation>, wasFailed: bool): Activity {
    if wasFailed then CannotTell
    else match c
      case Outage(_) =>
        if cur.None? then CannotTell else if cur.value.isUp then Over else Going
      case Removal(_) =>
        if cur.None? then Going
        else if !cur.value.roleOk then CannotTell
        else if cur.value.capacity > 0 then Over else Going
  }

  function ActivityAt(c: Condition, cur: seq<Observation>, failed: set<Node>): Activity {
    ConditionActive(c, Of(cur, c.node), c.node in failed)
  }

  // ---- one observation per node ---------------------------------------------------------

  ghost predicate OnePerNode(rows: seq<Observation>) {
    && (forall i :: 0 <= i < |rows| ==> rows[i].node != "")
    && (forall i, j :: 0 <= i < j < |rows| ==> rows[i].node != rows[j].node)
  }

  lemma {:induction false} OfMember(rows: seq<Observation>, n: Node)
    ensures Of(rows, n).Some? ==> Of(rows, n).value in rows && Of(rows, n).value.node == n && n != ""
    ensures Of(rows, n).None? && n != "" ==> forall x :: x in rows ==> x.node != n
  {
    if rows != [] && n != "" && rows[|rows| - 1].node != n {
      OfMember(rows[..|rows| - 1], n);
      assert rows == rows[..|rows| - 1] + [rows[|rows| - 1]];
    }
  }

  lemma {:induction false} OfUnique(rows: seq<Observation>, x: Observation)
    requires OnePerNode(rows) && x in rows
    ensures Of(rows, x.node) == Some(x)
  {
    var rest, last := rows[..|rows| - 1], rows[|rows| - 1];
    if x != last {
      assert rows == rest + [last];
      assert x in rest;
      OfUnique(rest, x);
    }
  }

  // ---- which conditions a scrape opens --------------------------------------------------

  /** What a reader would say opens a condition, read off the two scrapes. */
  predicate Opening(prev: seq<Observation>, cur: seq<Observation>, failed: set<Node>, c: Condition) {
    Of(prev, c.node).Some? &&
    var p, x := Of(prev, c.node).value, Of(cur, c.node);
    match c
    case Outage(_) => x.Some? && p.isUp && !x.value.isUp
    case Removal(n) =>
      if x.Some? then p.roleOk && x.value.roleOk && p.capacity > 0 && x.value.capacity == 0
      else n !in failed
  }

  lemma CountConcat<T(!new)>(s: seq<T>, t: seq<T>, keep: T -> bool)
    ensures Count(s + t, keep) == Count(s, keep) + Count(t, keep)
  {
    FilterConcat(s, t, keep);
  }

  predicate NodeOpens(p: Observation, x: Observation, c: Condition) {
    x.node == c.node && match c
      case Outage(_) => p.isUp && !x.isUp
      case Removal(_) => p.roleOk && x.roleOk && p.capacity > 0 && x.capacity == 0
  }

  lemma NodeEventsOpen(p: Observation, x: Observation, b: real, a: real, c: Condition)
    ensures Count(NodeEvents(p, x, b, a), Opens(c)) == if NodeOpens(p, x, c) then 1 else 0
  {
    hide DiskEvents, DropEvents, StatusEvents, RoleEvents;
    var down := if p.isUp && !x.isUp then [NodeDown(x.node)] else [];
    var d, m := DiskEvents(x.node, Data, p.dataTotal, x.dataTotal), DiskEvents(x.node, Meta, p.metaTotal, x.metaTotal);
    var quiet := DropEvents(p, x, b, a);
    var status, role := StatusEvents(p, x), RoleEvents(p, x);
    CountConcat(down + d + m + quiet + status, role, Opens(c));
    CountConcat(down + d + m + quiet, status, Opens(c));
    CountConcat(down + d + m, quiet, Opens(c));
    CountConcat(down + d, m, Opens(c));
    CountConcat(down, d, Opens(c));
    CountOne(NodeDown(x.node), Opens(c));
    FilterNone([], Opens(c));
    assert Count(down, Opens(c)) == if c.Outage? && NodeOpens(p, x, c) then 1 else 0;
    QuietEventsOpenNothing(p, x, b, a, c);
    RoleEventsOpen(p, x, c);
    assert NodeEvents(p, x, b, a) == down + d + m + quiet + status + role;
  }

  lemma QuietEventsOpenNothing(p: Observation, x: Observation, b: real, a: real, c: Condition)
    ensures Count(DiskEvents(x.node, Data, p.dataTotal, x.dataTotal), Opens(c)) == 0
    ensures Count(DiskEvents(x.node, Meta, p.metaTotal, x.metaTotal), Opens(c)) == 0
    ensures Count(DropEvents(p, x, b, a), Opens(c)) == 0
    ensures Count(StatusEvents(p, x), Opens(c)) == 0
  {
    FilterNone(DiskEvents(x.node, Data, p.dataTotal, x.dataTotal), Opens(c));
    FilterNone(DiskEvents(x.node, Meta, p.metaTotal, x.metaTotal), Opens(c));
    FilterNone(DropEvents(p, x, b, a), Opens(c));
    FilterNone(StatusEvents(p, x), Opens(c));
  }

  lemma RoleEventsOpen(p: Observation, x: Observation, c: Condition)
    ensures Count(RoleEvents(p, x), Opens(c)) == if c.Removal? && NodeOpens(p, x, c) then 1 else 0
  {
    hide Filter, CapacityEvents;
    FilterNone([], Opens(c));
    if p.roleOk && x.roleOk {
      var tags := if p.tags != x.tags then [TagsChanged(x.node, p.tags, x.tags)] else [];
      CountConcat(CapacityEvents(x.node, p.capacity, x.capacity), tags, Opens(c));
      CountOne(TagsChanged(x.node, p.tags, x.tags), Opens(c));
      CapacityOpens(x.node, p.capacity, x.capacity, c);
    }
  }

  lemma CapacityOpens(n: Node, before: nat, after: nat, c: Condition)
    ensures Count(CapacityEvents(n, before, after), Opens(c))
        == if c == Removal(n) && before > 0 && after == 0 then 1 else 0
  {
    hide Filter;
    FilterNone([], Opens(c));
    CountOne(NodeAdded(n, after), Opens(c));
    CountOne(NodeRemoved(n, before), Opens(c));
    CountOne(CapacityChanged(n, before, after), Opens(c));
  }

  /** Events of one node come from that node's own comparison only. */
  lemma {:induction false} ReportedCount(prev: seq<Observation>, cur: seq<Observation>, b: real, a: real, n: Node,
                                         keep: Event -> bool)
    requires OnePerNode(cur)
    requires forall p: Observation, x: Observation :: x.node != n ==> Count(NodeEvents(p, x, b, a), keep) == 0
    ensures Count(ReportedEvents(prev, cur, b, a), keep)
         == if Of(prev, n).Some? && Of(cur, n).Some?
            then Count(NodeEvents(Of(prev, n).value, Of(cur, n).value, b, a), keep) else 0
  {
    hide Filter, NodeEvents;
    if cur == [] {
      FilterNone([], keep);
    } else {
      var rest, x := cur[..|cur| - 1], cur[|cur| - 1];
      ReportedCount(prev, rest, b, a, n, keep);
      var own := match Of(prev, x.node) case Some(p) => NodeEvents(p, x, b, a) case None => [];
      CountConcat(ReportedEvents(prev, rest, b, a), own, keep);
      FilterNone([], keep);
      OfMember(rest, n);
    }
  }

  lemma ReportedOpen(prev: seq<Observation>, cur: seq<Observation>, b: real, a: real, c: Condition)
    requires OnePerNode(cur)
    ensures Count(ReportedEvents(prev, cur, b, a), Opens(c))
         == if Of(prev, c.node).Some? && Of(cur, c.node).Some?
               && NodeOpens(Of(prev, c.node).value, Of(cur, c.node).value, c)
            then 1 else 0
  {
    hide Filter, NodeEvents, ReportedEvents;
    forall p, x ensures Count(NodeEvents(p, x, b, a), Opens(c)) == if NodeOpens(p, x, c) then 1 else 0 {
      NodeEventsOpen(p, x, b, a, c);
    }
    ReportedCount(prev, cur, b, a, c.node, Opens(c));
    OfMember(cur, c.node);
  }

  lemma CountOne<T(!new)>(x: T, keep: T -> bool)
    ensures Count([x], keep) == if keep(x) then 1 else 0
  {
    FilterSnoc([], x, keep);
    assert [] + [x] == [x];
  }

  lemma {:induction false} VanishedOpen(prev: seq<Observation>, cur: seq<Observation>, failed: set<Node>, c: Condition)
    requires OnePerNode(prev)
    ensures Count(VanishedEvents(prev, cur, failed), Opens(c))
         == if c.Removal? && Of(prev, c.node).Some? && Of(cur, c.node).None? && c.node !in failed then 1 else 0
  {
    hide Filter;
    if prev == [] {
      FilterNone([], Opens(c));
    } else {
      var rest, p := prev[..|prev| - 1], prev[|prev| - 1];
      VanishedOpen(rest, cur, failed, c);
      var own := if Of(cur, p.node).Some? || p.node in failed then [] else [NodeRemoved(p.node, p.capacity)];
      CountConcat(VanishedEvents(rest, cur, failed), own, Opens(c));
      CountOne(NodeRemoved(p.node, p.capacity), Opens(c));
      FilterNone([], Opens(c));
      OfMember(rest, c.node);
    }
  }

  /** A scrape opens each condition at most once, and exactly when the two scrapes say so: the
      two rules that report a removal exclude each other. */
  lemma DiffOpens(prev: seq<Observation>, cur: seq<Observation>, failed: set<Node>, c: Condition)
    requires OnePerNode(prev) && OnePerNode(cur)
    ensures Count(Diff(prev, cur, failed), Opens(c)) == if Opening(prev, cur, failed, c) then 1 else 0
  {
    var b, a := Sum(cur, BytesBefore(prev)), Sum(cur, BytesAfter(prev));
    var layout, reported := LayoutEvents(prev, cur), ReportedEvents(prev, cur, b, a);
    var vanished := VanishedEvents(prev, cur, failed);
    CountConcat(layout + reported, vanished, Opens(c));
    CountConcat(layout, reported, Opens(c));
    FilterNone(layout, Opens(c));
    ReportedOpen(prev, cur, b, a, c);
    VanishedOpen(prev, cur, failed, c);
    OfMember(cur, c.node);
  }

  /** No scrape opens a condition that the same observations call over. */
  lemma OpeningIsNotOver(prev: seq<Observation>, cur: seq<Observation>, failed: set<Node>, c: Condition)
    requires OnePerNode(prev) && OnePerNode(cur) && Count(Diff(prev, cur, failed), Opens(c)) > 0
    ensures ActivityAt(c, cur, failed) != Over
    ensures c.node !in failed ==> ActivityAt(c, cur, failed) == Going
  {
    DiffOpens(prev, cur, failed, c);
  }

  // ---- which node an event names --------------------------------------------------------

  predicate Names(e: Event, n: Node) {
    !e.LayoutMoved? && e.node == n
  }

  lemma NodeEventsName(p: Observation, x: Observation, b: real, a: real, n: Node)
    requires x.node != n
    ensures forall e :: e in NodeEvents(p, x, b, a) ==> !Names(e, n)
  {
    hide DropsData;
    var disk := DiskEvents(x.node, Data, p.dataTotal, x.dataTotal) + DiskEvents(x.node, Meta, p.metaTotal, x.metaTotal);
    assert forall e :: e in disk ==> !Names(e, n);
    assert forall e :: e in DropEvents(p, x, b, a) ==> !Names(e, n);
    assert forall e :: e in StatusEvents(p, x) ==> !Names(e, n);
    assert forall e :: e in RoleEvents(p, x) ==> !Names(e, n);
    hide DiskEvents, DropEvents, StatusEvents, RoleEvents;
    forall e | e in NodeEvents(p, x, b, a) ensures !Names(e, n) { }
  }

  lemma {:induction false} ReportedName(prev: seq<Observation>, cur: seq<Observation>, b: real, a: real, n: Node)
    requires forall x :: x in cur ==> x.node != n
    ensures forall e :: e in ReportedEvents(prev, cur, b, a) ==> !Names(e, n)
  {
    hide NodeEvents;
    if cur != [] {
      var rest, x := cur[..|cur| - 1], cur[|cur| - 1];
      assert x in cur && forall y :: y in rest ==> y in cur;
      ReportedName(prev, rest, b, a, n);
      if Of(prev, x.node).Some? { NodeEventsName(Of(prev, x.node).value, x, b, a, n); }
    }
  }

  lemma {:induction false} VanishedName(prev: seq<Observation>, cur: seq<Observation>, failed: set<Node>, n: Node)
    requires n in failed
    ensures forall e :: e in VanishedEvents(prev, cur, failed) ==> !Names(e, n)
  {
    if prev != [] { VanishedName(prev[..|prev| - 1], cur, failed, n); }
  }

  /** No event of any kind names a node that the scrape failed to record. */
  lemma {:induction false} FailedNodeIsUnnamed(prev: seq<Observation>, cur: seq<Observation>, failed: set<Node>,
                                               n: Node)
    requires n in failed && forall x :: x in cur ==> x.node != n
    ensures forall e :: e in Diff(prev, cur, failed) ==> !Names(e, n)
  {
    hide ReportedEvents, VanishedEvents;
    ReportedName(prev, cur, Sum(cur, BytesBefore(prev)), Sum(cur, BytesAfter(prev)), n);
    VanishedName(prev, cur, failed, n);
  }
}
