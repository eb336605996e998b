/** The whole diff of two scrapes, read off their columns: for each node exactly which events there
    are, in which order and with which values (`diffObservations` in
    pocketbase/pb_hooks/lib/cluster-events.js). */
module DiffContents {
  import opened Options
  import opened Sums
  import opened Observations
  import opened DiffTheorems

  function About(n: Node): Event -> bool {
    (e: Event) => !e.LayoutMoved? && e.node == n
  }

  function IsLayout(): Event -> bool {
    (e: Event) => e.LayoutMoved?
  }

  // ---- the columns ----------------------------------------------------------------------

  /** Bytes in use on the data partition. */
  function Stored(o: Observation): nat {
    if o.dataAvailable <= o.dataTotal then o.dataTotal - o.dataAvailable else 0
  }

  /** A total that was read both times moved by more than a hundredth, either way. */
  predicate Resized(before: nat, after: nat) {
    before > 0 && after > 0 && (100 * (after - before) > before || 100 * (before - after) > before)
  }

  /** What the node's peers stored in the first scrape, over those read in both. */
  function PeersBefore(prev: seq<Observation>, n: Node): Observation -> real {
    (y: Observation) =>
      match Of(prev, y.node)
      case Some(q) => if y.node != n && q.dataTotal > 0 && y.dataTotal > 0 then Stored(q) as real else 0.0
      case None => 0.0
  }

  function PeersAfter(prev: seq<Observation>, n: Node): Observation -> real {
    (y: Observation) =>
      match Of(prev, y.node)
      case Some(q) => if y.node != n && q.dataTotal > 0 && y.dataTotal > 0 then Stored(y) as real else 0.0
      case None => 0.0
  }

  /** At least 64 GiB were stored, at least a tenth of that is gone, and the peers together lost
      less than half that fraction of theirs. */
  predicate Wiped(prev: seq<Observation>, cur: seq<Observation>, p: Observation, x: Observation) {
    var before, after := Stored(p), Stored(x);
    var peersBefore, peersAfter := Sum(cur, PeersBefore(prev, x.node)), Sum(cur, PeersAfter(prev, x.node));
    && p.dataTotal > 0 && x.dataTotal > 0 && before >= 68_719_476_736 && 10 * (before - after) >= before
    && (peersBefore > 0.0 ==>
          2.0 * (peersBefore - peersAfter) * before as real < (before - after) as real * peersBefore)
  }

  // ---- arithmetic -----------------------------------------------------------------------

  lemma Cross(a: real, b: real, c: real, d: real)
    requires b > 0.0 && d > 0.0
    ensures a / b < c / d <==> a * d < c * b
  {
    var q, r := a / b, c / d;
    assert q * b == a && r * d == c;
    assert a * d == q * (b * d) && c * b == r * (b * d);
    if q < r { assert (r - q) * (b * d) > 0.0; }
    if q >= r { assert (q - r) * (b * d) >= 0.0; }
  }

  lemma {:induction false} ResizedIs(n: Node, axis: Axis, before: nat, after: nat)
    ensures DiskEvents(n, axis, before, after)
         == if Resized(before, after) then [DiskChanged(n, axis, before, after)] else []
  {
    if before > 0 && after > 0 {
      var gap := Abs(after as real - before as real);
      assert gap / before as real <= 0.01 <==> gap <= 0.01 * before as real by { Within(gap, before as real, 0.01); }
    }
  }

  lemma Within(a: real, b: real, k: real)
    requires b > 0.0
    ensures a / b <= k <==> a <= k * b
  {
    var q := a / b;
    assert q * b == a;
    if q <= k { assert (k - q) * b >= 0.0; } else { assert (q - k) * b > 0.0; }
  }

  lemma DropIs(before: nat, after: nat, peersBefore: real, peersAfter: real)
    requires before >= 68_719_476_736
    ensures
      DropsData(before, after, peersBefore + before as real, peersAfter + after as real)
      <==> 10 * (before - after) >= before
           && (peersBefore > 0.0 ==>
                 2.0 * (peersBefore - peersAfter) * before as real < (before - after) as real * peersBefore)
  {
    hide DropsData;
    var b, lost, gone := before as real, (before - after) as real, peersBefore - peersAfter;
    DropUnfolds(before, after, peersBefore, peersAfter);
    Within(-lost, b, -0.1);
    assert -lost / b == -(lost / b);
    if peersBefore > 0.0 {
      Cross(gone, peersBefore, lost * 0.5, b);
      assert lost * 0.5 / b == lost / b * 0.5;
      assert gone * b < lost * 0.5 * peersBefore <==> 2.0 * gone * b < lost * peersBefore;
    }
  }

  lemma DropUnfolds(before: nat, after: nat, peersBefore: real, peersAfter: real)
    requires before >= 68_719_476_736
    ensures
      var d := (before - after) as real / before as real;
      DropsData(before, after, peersBefore + before as real, peersAfter + after as real)
      <==> d >= 0.1 && (if peersBefore > 0.0 then (peersBefore - peersAfter) / peersBefore < d * 0.5 else true)
  {
    var d := (before - after) as real / before as real;
    assert (before - after) as real == before as real - after as real;
    assert peersBefore + before as real - before as real == peersBefore;
    assert peersAfter + after as real - after as real == peersAfter;
  }

  lemma PeerTotals(prev: seq<Observation>, cur: seq<Observation>, x: Observation)
    requires OnePerNode(cur) && x in cur
    ensures Sum(cur, BytesBefore(prev)) == Sum(cur, PeersBefore(prev, x.node)) + BytesBefore(prev)(x)
    ensures Sum(cur, BytesAfter(prev)) == Sum(cur, PeersAfter(prev, x.node)) + BytesAfter(prev)(x)
  {
    hide Sum, Filter, Of;
    PeerSum(cur, x, BytesBefore(prev));
    PeerSum(cur, x, BytesAfter(prev));
    SumFiltered(cur, PeerOf(x.node), BytesBefore(prev), PeersBefore(prev, x.node));
    SumFiltered(cur, PeerOf(x.node), BytesAfter(prev), PeersAfter(prev, x.node));
  }

  lemma WipedIs(prev: seq<Observation>, cur: seq<Observation>, p: Observation, x: Observation)
    requires OnePerNode(cur) && x in cur && Of(prev, x.node) == Some(p)
    ensures DropEvents(p, x, Sum(cur, BytesBefore(prev)), Sum(cur, BytesAfter(prev)))
         == if Wiped(prev, cur, p, x) then [DataDropped(x.node, Stored(p), Stored(x))] else []
  {
    hide Sum, DropsData, Of, OnePerNode;
    PeerTotals(prev, cur, x);
    if p.dataTotal > 0 && x.dataTotal > 0 {
      assert Used(p) == Some(Stored(p)) && Used(x) == Some(Stored(x));
      assert ReadTwice(prev, x);
      OwnBytes(prev, x);
      if Stored(p) >= 68_719_476_736 {
        DropIs(Stored(p), Stored(x), Sum(cur, PeersBefore(prev, x.node)), Sum(cur, PeersAfter(prev, x.node)));
      } else {
        TooLittle(Stored(p), Stored(x), Sum(cur, BytesBefore(prev)), Sum(cur, BytesAfter(prev)));
      }
    }
  }

  lemma TooLittle(before: nat, after: nat, totalBefore: real, totalAfter: real)
    requires before < 68_719_476_736
    ensures !DropsData(before, after, totalBefore, totalAfter)
  { }

  // ---- the parts of the diff that name a node -------------------------------------------

  lemma OwnEventsOnly(p: Observation, x: Observation, b: real, a: real, n: Node)
    ensures Filter(NodeEvents(p, x, b, a), About(n)) == if x.node == n then NodeEvents(p, x, b, a) else []
  {
    if x.node == n {
      AllAbout(p, x, b, a);
      FilterAll(NodeEvents(p, x, b, a), About(n));
    } else {
      NodeEventsName(p, x, b, a, n);
      FilterNone(NodeEvents(p, x, b, a), About(n));
    }
  }

  lemma AllAbout(p: Observation, x: Observation, b: real, a: real)
    ensures forall e :: e in NodeEvents(p, x, b, a) ==> About(x.node)(e)
  {
    hide DropsData;
    var disk := DiskEvents(x.node, Data, p.dataTotal, x.dataTotal) + DiskEvents(x.node, Meta, p.metaTotal, x.metaTotal);
    assert forall e :: e in disk ==> About(x.node)(e);
    assert forall e :: e in DropEvents(p, x, b, a) ==> About(x.node)(e);
    assert forall e :: e in StatusEvents(p, x) ==> About(x.node)(e);
    assert forall e :: e in RoleEvents(p, x) ==> About(x.node)(e);
    hide DiskEvents, DropEvents, StatusEvents, RoleEvents;
    forall e | e in NodeEvents(p, x, b, a) ensures About(x.node)(e) { }
  }

  lemma {:induction false} ReportedAbout(prev: seq<Observation>, cur: seq<Observation>, b: real, a: real, n: Node)
    requires OnePerNode(cur)
    ensures Filter(ReportedEvents(prev, cur, b, a), About(n))
         == if Of(prev, n).Some? && Of(cur, n).Some? then NodeEvents(Of(prev, n).value, Of(cur, n).value, b, a) else []
  {
    hide Filter, NodeEvents;
    if cur == [] {
      FilterNone([], About(n));
    } else {
      var rest, x := cur[..|cur| - 1], cur[|cur| - 1];
      ReportedAbout(prev, rest, b, a, n);
      var own := match Of(prev, x.node) case Some(p) => NodeEvents(p, x, b, a) case None => [];
      FilterConcat(ReportedEvents(prev, rest, b, a), own, About(n));
      FilterNone([], About(n));
      if Of(prev, x.node).Some? { OwnEventsOnly(Of(prev, x.node).value, x, b, a, n); }
      OfMember(rest, n);
    }
  }

  lemma {:induction false} VanishedAbout(prev: seq<Observation>, cur: seq<Observation>, failed: set<Node>, n: Node)
    requires OnePerNode(prev)
    ensures Filter(VanishedEvents(prev, cur, failed), About(n))
         == if Of(prev, n).Some? && Of(cur, n).None? && n !in failed
            then [NodeRemoved(n, Of(prev, n).value.capacity)] else []
  {
    hide Filter;
    if prev == [] {
      FilterNone([], About(n));
    } else {
      var rest, p := prev[..|prev| - 1], prev[|prev| - 1];
      VanishedAbout(rest, cur, failed, n);
      OfMember(rest, n);
      var own := if Of(cur, p.node).Some? || p.node in failed then [] else [NodeRemoved(p.node, p.capacity)];
      FilterConcat(VanishedEvents(rest, cur, failed), own, About(n));
      FilterNone([], About(n));
      FilterSnoc([], NodeRemoved(p.node, p.capacity), About(n));
      assert [] + [NodeRemoved(p.node, p.capacity)] == [NodeRemoved(p.node, p.capacity)];
    }
  }

  lemma {:induction false} DiffAbout(prev: seq<Observation>, cur: seq<Observation>, failed: set<Node>, n: Node)
    requires OnePerNode(prev) && OnePerNode(cur)
    ensures
      var p, x := Of(prev, n), Of(cur, n);
      Filter(Diff(prev, cur, failed), About(n))
      == if p.Some? && x.Some?
         then NodeEvents(p.value, x.value, Sum(cur, BytesBefore(prev)), Sum(cur, BytesAfter(prev)))
         else if p.Some? && n !in failed then [NodeRemoved(n, p.value.capacity)]
         else []
  {
    hide Filter, Sum, NodeEvents, ReportedEvents, VanishedEvents, Of, OnePerNode;
    var b, a := Sum(cur, BytesBefore(prev)), Sum(cur, BytesAfter(prev));
    var reported := ReportedEvents(prev, cur, b, a);
    FilterConcat(LayoutEvents(prev, cur) + reported, VanishedEvents(prev, cur, failed), About(n));
    FilterConcat(LayoutEvents(prev, cur), reported, About(n));
    FilterNone(LayoutEvents(prev, cur), About(n));
    ReportedAbout(prev, cur, b, a, n);
    VanishedAbout(prev, cur, failed, n);
  }

  // ---- what is reported of a node -------------------------------------------------------

  /** A node in both scrapes: which events name it, in which order and with which values, column by
      column. */
  lemma {:induction false} NodeStory(prev: seq<Observation>, cur: seq<Observation>, failed: set<Node>, p: Observation,
                                     x: Observation)
    requires OnePerNode(prev) && OnePerNode(cur) && p in prev && x in cur && p.node == x.node
    ensures
      var n, gated := x.node, p.roleOk && x.roleOk;
      Filter(Diff(prev, cur, failed), About(n))
      == (if p.isUp && !x.isUp then [NodeDown(n)] else [])
         + (if Resized(p.dataTotal, x.dataTotal) then [DiskChanged(n, Data, p.dataTotal, x.dataTotal)] else [])
         + (if Resized(p.metaTotal, x.metaTotal) then [DiskChanged(n, Meta, p.metaTotal, x.metaTotal)] else [])
         + (if Wiped(prev, cur, p, x) then [DataDropped(n, Stored(p), Stored(x))] else [])
         + (if "" !in [p.garageVersion, x.garageVersion] && p.garageVersion != x.garageVersion
            then [VersionChanged(n, p.garageVersion, x.garageVersion)] else [])
         + (if "" !in [p.zone, x.zone] && p.zone != x.zone then [ZoneChanged(n, p.zone, x.zone)] else [])
         + (if gated && p.capacity == 0 < x.capacity then [NodeAdded(n, x.capacity)] else [])
         + (if gated && x.capacity == 0 < p.capacity then [NodeRemoved(n, p.capacity)] else [])
         + (if gated && p.capacity > 0 && x.capacity > 0 && p.capacity != x.capacity
            then [CapacityChanged(n, p.capacity, x.capacity)] else [])
         + (if gated && p.tags != x.tags then [TagsChanged(n, p.tags, x.tags)] else [])
  {
    hide Filter, Sum, Diff, Of, Wiped, Resized, DiskEvents, DropEvents, NodeEvents, OnePerNode;
    OfUnique(prev, p);
    OfUnique(cur, x);
    DiffAbout(prev, cur, failed, x.node);
    ResizedIs(x.node, Data, p.dataTotal, x.dataTotal);
    ResizedIs(x.node, Meta, p.metaTotal, x.metaTotal);
    WipedIs(prev, cur, p, x);
    var b, a := Sum(cur, BytesBefore(prev)), Sum(cur, BytesAfter(prev));
    NodeIsParts(p, x, b, a);
  }

  lemma NodeIsParts(p: Observation, x: Observation, b: real, a: real)
    ensures
      var n, gated := x.node, p.roleOk && x.roleOk;
      NodeEvents(p, x, b, a)
      == (if p.isUp && !x.isUp then [NodeDown(n)] else [])
         + DiskEvents(n, Data, p.dataTotal, x.dataTotal) + DiskEvents(n, Meta, p.metaTotal, x.metaTotal)
         + DropEvents(p, x, b, a)
         + (if "" !in [p.garageVersion, x.garageVersion] && p.garageVersion != x.garageVersion
            then [VersionChanged(n, p.garageVersion, x.garageVersion)] else [])
         + (if "" !in [p.zone, x.zone] && p.zone != x.zone then [ZoneChanged(n, p.zone, x.zone)] else [])
         + (if gated && p.capacity == 0 < x.capacity then [NodeAdded(n, x.capacity)] else [])
         + (if gated && x.capacity == 0 < p.capacity then [NodeRemoved(n, p.capacity)] else [])
         + (if gated && p.capacity > 0 && x.capacity > 0 && p.capacity != x.capacity
            then [CapacityChanged(n, p.capacity, x.capacity)] else [])
         + (if gated && p.tags != x.tags then [TagsChanged(n, p.tags, x.tags)] else [])
  {
    hide DiskEvents, DropEvents;
    var n, gated := x.node, p.roleOk && x.roleOk;
    var version := if "" !in [p.garageVersion, x.garageVersion] && p.garageVersion != x.garageVersion
      then [VersionChanged(n, p.garageVersion, x.garageVersion)] else [];
    var zone := if "" !in [p.zone, x.zone] && p.zone != x.zone then [ZoneChanged(n, p.zone, x.zone)] else [];
    var added := if gated && p.capacity == 0 < x.capacity then [NodeAdded(n, x.capacity)] else [];
    var removed := if gated && x.capacity == 0 < p.capacity then [NodeRemoved(n, p.capacity)] else [];
    var changed := if gated && p.capacity > 0 && x.capacity > 0 && p.capacity != x.capacity
      then [CapacityChanged(n, p.capacity, x.capacity)] else [];
    var tags := if gated && p.tags != x.tags then [TagsChanged(n, p.tags, x.tags)] else [];
    assert StatusEvents(p, x) == version + zone;
    assert RoleEvents(p, x) == added + removed + changed + tags;
    var head := (if p.isUp && !x.isUp then [NodeDown(n)] else [])
      + DiskEvents(n, Data, p.dataTotal, x.dataTotal) + DiskEvents(n, Meta, p.metaTotal, x.metaTotal)
      + DropEvents(p, x, b, a);
    hide StatusEvents, RoleEvents;
    assert NodeEvents(p, x, b, a) == head + StatusEvents(p, x) + RoleEvents(p, x);
    InARow(head, version, zone, added, removed, changed, tags);
  }

  lemma InARow(head: seq<Event>, a: seq<Event>, b: seq<Event>, c: seq<Event>, d: seq<Event>, e: seq<Event>,
               f: seq<Event>)
    ensures head + (a + b) + (c + d + e + f) == head + a + b + c + d + e + f
  { }

  /** A node seen for the first time, or for the first time since the window, has no event. */
  lemma {:induction false} NewNodeIsSilent(prev: seq<Observation>, cur: seq<Observation>, failed: set<Node>, n: Node)
    requires OnePerNode(prev) && OnePerNode(cur) && forall p :: p in prev ==> p.node != n
    ensures forall e :: e in Diff(prev, cur, failed) ==> !About(n)(e)
  {
    hide Filter, Diff;
    OfMember(prev, n);
    DiffAbout(prev, cur, failed, n);
    FilterMembers(Diff(prev, cur, failed), About(n));
  }

  /** A node that is no longer reported is removed, with the capacity it had, unless its row failed
      to write; nothing else is said about it. */
  lemma {:induction false} VanishedStory(prev: seq<Observation>, cur: seq<Observation>, failed: set<Node>,
                                         p: Observation)
    requires OnePerNode(prev) && OnePerNode(cur) && p in prev && forall x :: x in cur ==> x.node != p.node
    ensures Filter(Diff(prev, cur, failed), About(p.node))
         == if p.node in failed then [] else [NodeRemoved(p.node, p.capacity)]
  {
    hide Filter, Diff;
    OfUnique(prev, p);
    OfMember(cur, p.node);
    DiffAbout(prev, cur, failed, p.node);
  }

  /** For each axis a diff holds exactly one event of the node, with the two totals, when both were
      read and differ by more than a hundredth of the first, whichever way; otherwise none. */
  lemma {:induction false} DiskStory(prev: seq<Observation>, cur: seq<Observation>, failed: set<Node>, p: Observation,
                                     x: Observation, axis: Axis)
    requires OnePerNode(prev) && OnePerNode(cur) && p in prev && x in cur && p.node == x.node
    ensures
      var before, after := if axis == Data then p.dataTotal else p.metaTotal,
                           if axis == Data then x.dataTotal else x.metaTotal;
      var gap := if after > before then after - before else before - after;
      Filter(Diff(prev, cur, failed), DiskOf(x.node, axis))
      == if before > 0 && after > 0 && 100 * gap > before then [DiskChanged(x.node, axis, before, after)] else []
  {
    hide Filter, Diff, Sum, NodeEvents, OnePerNode, Of;
    OfUnique(prev, p);
    OfUnique(cur, x);
    DiffAbout(prev, cur, failed, x.node);
    FilterTwice(Diff(prev, cur, failed), About(x.node), DiskOf(x.node, axis), DiskOf(x.node, axis));
    OnlyDisk(p, x, Sum(cur, BytesBefore(prev)), Sum(cur, BytesAfter(prev)), axis);
  }

  function DiskOf(n: Node, axis: Axis): Event -> bool {
    (e: Event) => e.DiskChanged? && e.node == n && e.axis == axis
  }

  lemma OnlyDisk(p: Observation, x: Observation, b: real, a: real, axis: Axis)
    ensures
      var before, after := if axis == Data then p.dataTotal else p.metaTotal,
                           if axis == Data then x.dataTotal else x.metaTotal;
      Filter(NodeEvents(p, x, b, a), DiskOf(x.node, axis))
      == if Resized(before, after) then [DiskChanged(x.node, axis, before, after)] else []
  {
    hide Filter, Resized, DropEvents, StatusEvents, RoleEvents;
    var head := if p.isUp && !x.isUp then [NodeDown(x.node)] else [];
    var d := DiskEvents(x.node, Data, p.dataTotal, x.dataTotal);
    var m := DiskEvents(x.node, Meta, p.metaTotal, x.metaTotal);
    var drop, status, role, keep := DropEvents(p, x, b, a), StatusEvents(p, x), RoleEvents(p, x), DiskOf(x.node, axis);
    ResizedIs(x.node, Data, p.dataTotal, x.dataTotal);
    ResizedIs(x.node, Meta, p.metaTotal, x.metaTotal);
    NoDiskElsewhere(p, x, b, a);
    FilterNone(head, keep);
    FilterNone(drop, keep);
    FilterNone(status, keep);
    FilterNone(role, keep);
    hide DiskEvents;
    FilterConcat(head + d + m + drop + status, role, keep);
    FilterConcat(head + d + m + drop, status, keep);
    FilterConcat(head + d + m, drop, keep);
    FilterConcat(head + d, m, keep);
    FilterConcat(head, d, keep);
    if axis == Data {
      FilterAll(d, keep);
      FilterNone(m, keep);
    } else {
      FilterAll(m, keep);
      FilterNone(d, keep);
    }
  }

  lemma NoDiskElsewhere(p: Observation, x: Observation, b: real, a: real)
    ensures forall e :: e in DropEvents(p, x, b, a) ==> !e.DiskChanged?
    ensures forall e :: e in StatusEvents(p, x) ==> !e.DiskChanged?
    ensures forall e :: e in RoleEvents(p, x) ==> !e.DiskChanged?
  {
    hide DropsData;
  }

  // ---- the layout version ---------------------------------------------------------------

  /** The first row that the layout vouches for carries the version. */
  ghost predicate AtVersion(rows: seq<Observation>, version: nat) {
    exists i :: 0 <= i < |rows| && rows[i].roleOk && rows[i].layoutVersion == version
                && forall j :: 0 <= j < i ==> !rows[j].roleOk
  }

  lemma {:induction false} VersionIs(rows: seq<Observation>, version: nat)
    ensures LayoutVersionOf(rows) == Some(version) <==> AtVersion(rows, version)
  {
    if rows != [] && !rows[0].roleOk {
      VersionIs(rows[1..], version);
      if AtVersion(rows[1..], version) {
        var i :| 0 <= i < |rows[1..]| && rows[1..][i].roleOk && rows[1..][i].layoutVersion == version
                 && forall j :: 0 <= j < i ==> !rows[1..][j].roleOk;
        assert rows[i + 1].roleOk && forall j :: 0 < j < i + 1 ==> rows[j] == rows[1..][j - 1];
      }
      if AtVersion(rows, version) {
        var i :| 0 <= i < |rows| && rows[i].roleOk && rows[i].layoutVersion == version
                 && forall j :: 0 <= j < i ==> !rows[j].roleOk;
        assert rows[1..][i - 1] == rows[i] && forall j :: 0 <= j < i - 1 ==> rows[1..][j] == rows[j + 1];
      }
    }
  }

  /** A diff holds a layout event exactly when both scrapes could read the layout and at different
      versions; it then is the one such event, and comes first. */
  lemma {:induction false} LayoutStory(prev: seq<Observation>, cur: seq<Observation>, failed: set<Node>, v: nat, w: nat)
    ensures
      LayoutMoved(v, w) in Diff(prev, cur, failed) <==> v != w && AtVersion(prev, v) && AtVersion(cur, w)
    ensures
      LayoutMoved(v, w) in Diff(prev, cur, failed) ==>
        Diff(prev, cur, failed)[0] == LayoutMoved(v, w)
        && Filter(Diff(prev, cur, failed), IsLayout()) == [LayoutMoved(v, w)]
  {
    hide Filter, Sum, ReportedEvents, VanishedEvents, LayoutVersionOf, AtVersion;
    var b, a := Sum(cur, BytesBefore(prev)), Sum(cur, BytesAfter(prev));
    var first, rest := LayoutEvents(prev, cur), ReportedEvents(prev, cur, b, a) + VanishedEvents(prev, cur, failed);
    assert Diff(prev, cur, failed) == first + rest;
    NoLayoutLater(prev, cur, failed, b, a);
    VersionIs(prev, v);
    VersionIs(cur, w);
    FilterConcat(first, rest, IsLayout());
    FilterNone(rest, IsLayout());
    FilterAll(first, IsLayout());
  }

  lemma NoLayoutLater(prev: seq<Observation>, cur: seq<Observation>, failed: set<Node>, b: real, a: real)
    ensures forall e :: e in ReportedEvents(prev, cur, b, a) + VanishedEvents(prev, cur, failed) ==> !e.LayoutMoved?
  {
    hide ReportedEvents, VanishedEvents;
    ReportedIsNoLayout(prev, cur, b, a);
    VanishedAreRemovals(prev, cur, failed);
  }

  lemma {:induction false} ReportedIsNoLayout(prev: seq<Observation>, cur: seq<Observation>, b: real, a: real)
    ensures forall e :: e in ReportedEvents(prev, cur, b, a) ==> !e.LayoutMoved?
  {
    hide NodeEvents;
    if cur != [] {
      var x := cur[|cur| - 1];
      ReportedIsNoLayout(prev, cur[..|cur| - 1], b, a);
      if Of(prev, x.node).Some? { AllAbout(Of(prev, x.node).value, x, b, a); }
    }
  }

  // ---- the order of the events ----------------------------------------------------------

  ghost predicate Listed(rows: seq<Observation>, e: Event, k: int) {
    !e.LayoutMoved? && 0 <= k < |rows| && rows[k].node == e.node
  }

  ghost predicate NoLater(rows: seq<Observation>, e: Event, f: Event) {
    exists k, l :: k <= l && Listed(rows, e, k) && Listed(rows, f, l)
  }

  /** Every event names a row, and events come in the order of the rows they name. */
  ghost predicate InRowOrder(es: seq<Event>, rows: seq<Observation>) {
    forall i, j :: 0 <= i <= j < |es| ==> NoLater(rows, es[i], es[j])
  }

  lemma OneRowMore(es: seq<Event>, rows: seq<Observation>, own: seq<Event>, x: Observation)
    requires InRowOrder(es, rows) && forall e :: e in own ==> About(x.node)(e)
    ensures InRowOrder(es + own, rows + [x])
  {
    var all, longer := es + own, rows + [x];
    forall i | |es| <= i < |all| ensures Listed(longer, all[i], |rows|) {
      assert all[i] == own[i - |es|] && own[i - |es|] in own && About(x.node)(all[i]);
    }
    forall i | 0 <= i < |es| ensures exists k :: k < |rows| && Listed(longer, all[i], k) {
      assert NoLater(rows, es[i], es[i]) && all[i] == es[i];
      var k :| Listed(rows, es[i], k);
      assert Listed(longer, all[i], k);
    }
    forall i, j | 0 <= i <= j < |all| ensures NoLater(longer, all[i], all[j]) {
      if j < |es| {
        assert NoLater(rows, es[i], es[j]);
        var k, l :| k <= l && Listed(rows, es[i], k) && Listed(rows, es[j], l);
        assert Listed(longer, all[i], k) && Listed(longer, all[j], l);
      } else if i < |es| {
        var k :| k < |rows| && Listed(longer, all[i], k);
        assert Listed(longer, all[j], |rows|);
      } else {
        assert Listed(longer, all[i], |rows|) && Listed(longer, all[j], |rows|);
      }
    }
  }

  lemma {:induction false} ReportedInOrder(prev: seq<Observation>, cur: seq<Observation>, b: real, a: real)
    ensures InRowOrder(ReportedEvents(prev, cur, b, a), cur)
  {
    hide NodeEvents, Of, InRowOrder;
    if cur == [] {
      NothingInOrder(cur);
    } else {
      var rest, x := cur[..|cur| - 1], cur[|cur| - 1];
      ReportedInOrder(prev, rest, b, a);
      if Of(prev, x.node).Some? { AllAbout(Of(prev, x.node).value, x, b, a); }
      var own := match Of(prev, x.node) case Some(p) => NodeEvents(p, x, b, a) case None => [];
      OneRowMore(ReportedEvents(prev, rest, b, a), rest, own, x);
      assert rest + [x] == cur;
    }
  }

  lemma {:induction false} VanishedInOrder(prev: seq<Observation>, cur: seq<Observation>, failed: set<Node>)
    ensures InRowOrder(VanishedEvents(prev, cur, failed), prev)
    ensures forall e :: e in VanishedEvents(prev, cur, failed) ==> e.NodeRemoved? && Of(cur, e.node).None?
  {
    hide Of, InRowOrder;
    if prev == [] {
      NothingInOrder(prev);
    } else {
      var rest, p := prev[..|prev| - 1], prev[|prev| - 1];
      VanishedInOrder(rest, cur, failed);
      var own := if Of(cur, p.node).Some? || p.node in failed then [] else [NodeRemoved(p.node, p.capacity)];
      OneRowMore(VanishedEvents(rest, cur, failed), rest, own, p);
      assert rest + [p] == prev;
    }
  }

  lemma NothingInOrder(rows: seq<Observation>)
    ensures InRowOrder([], rows)
  { }

  /** The events come in the order of the rows: first those of the nodes now reported, in the order
      they are reported in, then those of the nodes that are gone, in the order they were. */
  lemma {:induction false} DiffInOrder(prev: seq<Observation>, cur: seq<Observation>, failed: set<Node>, i: nat,
                                       j: nat, k: int, l: int)
    requires OnePerNode(prev) && OnePerNode(cur) && i < j < |Diff(prev, cur, failed)|
    ensures
      var e, f := Diff(prev, cur, failed)[i], Diff(prev, cur, failed)[j];
      && !f.LayoutMoved?
      && (Listed(cur, f, l) ==> e.LayoutMoved? || exists m :: Listed(cur, e, m))
      && (Listed(cur, e, k) && Listed(cur, f, l) ==> k <= l)
      && (Listed(prev, e, k) && Listed(prev, f, l) && (forall x :: x in cur ==> x.node !in {e.node, f.node}) ==> k <= l)
  {
    hide Sum, ReportedEvents, VanishedEvents, Of, LayoutVersionOf, InRowOrder, OnePerNode, Listed;
    var b, a := Sum(cur, BytesBefore(prev)), Sum(cur, BytesAfter(prev));
    var es, gone := ReportedEvents(prev, cur, b, a), VanishedEvents(prev, cur, failed);
    NoLayoutLater(prev, cur, failed, b, a);
    ReportedInOrder(prev, cur, b, a);
    VanishedInOrder(prev, cur, failed);
    forall e, x | e in gone && x in cur ensures x.node != e.node {
      if x.node == e.node { OfMember(cur, e.node); OfUnique(cur, x); }
    }
    JoinedInOrder(LayoutEvents(prev, cur), es, gone, prev, cur, i, j, k, l);
  }

  lemma {:induction false} JoinedInOrder(first: seq<Event>, es: seq<Event>, gone: seq<Event>, prev: seq<Observation>,
                                         cur: seq<Observation>, i: nat, j: nat, k: int, l: int)
    requires OnePerNode(prev) && OnePerNode(cur) && |first| <= 1 && forall e :: e in first ==> e.LayoutMoved?
    requires InRowOrder(es, cur) && InRowOrder(gone, prev) && i < j < |first + es + gone|
    requires forall e, x :: e in gone && x in cur ==> !e.LayoutMoved? && x.node != e.node
    ensures
      var e, f := (first + es + gone)[i], (first + es + gone)[j];
      && !f.LayoutMoved?
      && (Listed(cur, f, l) ==> e.LayoutMoved? || exists m :: Listed(cur, e, m))
      && (Listed(cur, e, k) && Listed(cur, f, l) ==> k <= l)
      && (Listed(prev, e, k) && Listed(prev, f, l) && (forall x :: x in cur ==> x.node !in {e.node, f.node}) ==> k <= l)
  {
    var e, f := (first + es + gone)[i], (first + es + gone)[j];
    if j < |first| + |es| {
      assert f == es[j - |first|] && NoLater(cur, f, f);
      if |first| <= i { assert e == es[i - |first|] && NoLater(cur, e, f); }
    } else {
      assert f == gone[j - |first| - |es|] && NoLater(prev, f, f);
      if |first| + |es| <= i {
        assert e == gone[i - |first| - |es|] && NoLater(prev, e, f);
      } else if |first| <= i {
        assert e == es[i - |first|] && NoLater(cur, e, e);
      }
    }
  }
}
