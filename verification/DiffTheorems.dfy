/** What the events of one scrape say about the cluster: they replay to the current state, a
    scrape like the last one is silent, layout versions chain, and a data drop is judged against
    peers only (`diffObservations` in pocketbase/pb_hooks/lib/cluster-events.js). */
module DiffTheorems {
  import opened Options
  import opened Sums
  import opened Observations

  // ---- replaying the events -------------------------------------------------------------

  datatype Held = Held(capacity: nat, tags: string, zone: string, garageVersion: string)

  function HeldBy(o: Observation): Held {
    Held(o.capacity, o.tags, o.zone, o.garageVersion)
  }

  function ReplayOne(h: Held, e: Event, n: Node): Held {
    match e
    case NodeAdded(m, after) => if m == n then h.(capacity := after) else h
    case NodeRemoved(m, _) => if m == n then h.(capacity := 0) else h
    case CapacityChanged(m, _, after) => if m == n then h.(capacity := after) else h
    case TagsChanged(m, _, after) => if m == n then h.(tags := after) else h
    case ZoneChanged(m, _, after) => if m == n then h.(zone := after) else h
    case VersionChanged(m, _, after) => if m == n then h.(garageVersion := after) else h
    case _ => h
  }

  function Replay(h: Held, events: seq<Event>, n: Node): Held {
    if events == [] then h else ReplayOne(Replay(h, events[..|events| - 1], n), events[|events| - 1], n)
  }

  /** What `h` becomes when the reading of a node moves from `p` to `x`: gated layout fields that
      differ, and status fields that were reported both times and differ. */
  function Learned(h: Held, p: Observation, x: Observation): Held {
    var gated := p.roleOk && x.roleOk;
    Held(if gated && p.capacity != x.capacity then x.capacity else h.capacity,
         if gated && p.tags != x.tags then x.tags else h.tags,
         if p.zone != "" && x.zone != "" && p.zone != x.zone then x.zone else h.zone,
         if p.garageVersion != "" && x.garageVersion != "" && p.garageVersion != x.garageVersion
         then x.garageVersion else h.garageVersion)
  }

  lemma {:induction false} ReplayConcat(h: Held, s: seq<Event>, t: seq<Event>, n: Node)
    ensures Replay(h, s + t, n) == Replay(Replay(h, s, n), t, n)
  {
    if t == [] {
      assert s + t == s;
    } else {
      var t' := t[..|t| - 1];
      assert (s + t)[..|s + t| - 1] == s + t';
      ReplayConcat(h, s, t', n);
    }
  }

  /** The event changes what node `n` is known to hold. */
  predicate Concerns(e: Event, n: Node) {
    (e.NodeAdded? || e.NodeRemoved? || e.CapacityChanged? || e.TagsChanged? || e.ZoneChanged? || e.VersionChanged?)
        && e.node == n
  }

  lemma {:induction false} ReplayNothing(h: Held, events: seq<Event>, n: Node)
    requires forall e :: e in events ==> !Concerns(e, n)
    ensures Replay(h, events, n) == h
  {
    if events != [] {
      assert events[|events| - 1] in events;
      ReplayNothing(h, events[..|events| - 1], n);
    }
  }

  function QuietEvents(p: Observation, x: Observation, b: real, a: real): seq<Event> {
    (if p.isUp && !x.isUp then [NodeDown(x.node)] else [])
    + DiskEvents(x.node, Data, p.dataTotal, x.dataTotal)
    + DiskEvents(x.node, Meta, p.metaTotal, x.metaTotal)
    + DropEvents(p, x, b, a)
  }

  lemma QuietEventsLeave(p: Observation, x: Observation, b: real, a: real, n: Node)
    ensures forall e :: e in QuietEvents(p, x, b, a) ==> !Concerns(e, n)
    ensures NodeEvents(p, x, b, a) == QuietEvents(p, x, b, a) + StatusEvents(p, x) + RoleEvents(p, x)
  {
    hide DropsData;
  }

  lemma ReplayNode(h: Held, p: Observation, x: Observation, b: real, a: real)
    ensures Replay(h, NodeEvents(p, x, b, a), x.node) == Learned(h, p, x)
  {
    hide QuietEvents, NodeEvents, StatusEvents, RoleEvents, Replay;
    var n, quiet := x.node, QuietEvents(p, x, b, a);
    QuietEventsLeave(p, x, b, a, n);
    ReplayConcat(h, quiet + StatusEvents(p, x), RoleEvents(p, x), n);
    ReplayConcat(h, quiet, StatusEvents(p, x), n);
    ReplayNothing(h, quiet, n);
    ReplayStatus(h, p, x);
    ReplayRole(Replay(h, StatusEvents(p, x), n), p, x);
  }

  lemma ReplayStatus(h: Held, p: Observation, x: Observation)
    ensures Replay(h, StatusEvents(p, x), x.node) == Learned(h, p, x).(capacity := h.capacity, tags := h.tags)
  {
    var version := if p.garageVersion != "" && x.garageVersion != "" && p.garageVersion != x.garageVersion
      then [VersionChanged(x.node, p.garageVersion, x.garageVersion)] else [];
    var zone := if p.zone != "" && x.zone != "" && p.zone != x.zone then [ZoneChanged(x.node, p.zone, x.zone)] else [];
    ReplayConcat(h, version, zone, x.node);
  }

  lemma ReplayRole(h: Held, p: Observation, x: Observation)
    ensures Replay(h, RoleEvents(p, x), x.node)
        == h.(capacity := Learned(h, p, x).capacity, tags := Learned(h, p, x).tags)
  {
    if p.roleOk && x.roleOk {
      var tags := if p.tags != x.tags then [TagsChanged(x.node, p.tags, x.tags)] else [];
      ReplayConcat(h, CapacityEvents(x.node, p.capacity, x.capacity), tags, x.node);
    }
  }

  lemma OthersLeave(p: Observation, x: Observation, b: real, a: real, n: Node, h: Held)
    requires x.node != n
    ensures Replay(h, NodeEvents(p, x, b, a), n) == h
  {
    hide DiskEvents, DropEvents, StatusEvents, RoleEvents;
    QuietOfOthers(p, x, b, a, n);
    LoudOfOthers(p, x, n);
    forall e | e in NodeEvents(p, x, b, a) ensures !Concerns(e, n) { }
    ReplayNothing(h, NodeEvents(p, x, b, a), n);
  }

  lemma QuietOfOthers(p: Observation, x: Observation, b: real, a: real, n: Node)
    ensures forall e :: e in DiskEvents(x.node, Data, p.dataTotal, x.dataTotal) ==> !Concerns(e, n)
    ensures forall e :: e in DiskEvents(x.node, Meta, p.metaTotal, x.metaTotal) ==> !Concerns(e, n)
    ensures forall e :: e in DropEvents(p, x, b, a) ==> !Concerns(e, n)
  {
    hide DropsData;
  }

  lemma LoudOfOthers(p: Observation, x: Observation, n: Node)
    requires x.node != n
    ensures forall e :: e in StatusEvents(p, x) ==> !Concerns(e, n)
    ensures forall e :: e in RoleEvents(p, x) ==> !Concerns(e, n)
  { }

  lemma {:induction false} ReplayReported(h: Held, prev: seq<Observation>, cur: seq<Observation>, b: real, a: real,
                                          n: Node)
    requires OnePerNode(cur) && Of(prev, n).Some?
    ensures Replay(h, ReportedEvents(prev, cur, b, a), n)
         == if Of(cur, n).Some? then Learned(h, Of(prev, n).value, Of(cur, n).value) else h
  {
    hide NodeEvents, Learned;
    if cur != [] {
      var rest, x := cur[..|cur| - 1], cur[|cur| - 1];
      ReplayReported(h, prev, rest, b, a, n);
      var own := match Of(prev, x.node) case Some(p) => NodeEvents(p, x, b, a) case None => [];
      ReplayConcat(h, ReportedEvents(prev, rest, b, a), own, n);
      OfMember(rest, n);
      if x.node == n {
        ReplayNode(h, Of(prev, n).value, x, b, a);
      } else if Of(prev, x.node).Some? {
        OthersLeave(Of(prev, x.node).value, x, b, a, n, Replay(h, ReportedEvents(prev, rest, b, a), n));
      }
    }
  }

  lemma {:induction false} VanishedAreAbsent(prev: seq<Observation>, cur: seq<Observation>, failed: set<Node>, n: Node)
    requires Of(cur, n).Some?
    ensures forall e :: e in VanishedEvents(prev, cur, failed) ==> !Concerns(e, n)
  {
    if prev != [] { VanishedAreAbsent(prev[..|prev| - 1], cur, failed, n); }
  }

  /** A node seen in both scrapes: what replaying this scrape's events does to anything one may
      have held about it before. */
  lemma DiffTeaches(h: Held, prev: seq<Observation>, cur: seq<Observation>, failed: set<Node>, p: Observation,
                    x: Observation)
    requires OnePerNode(cur) && Of(prev, x.node) == Some(p) && x in cur
    ensures Replay(h, Diff(prev, cur, failed), x.node) == Learned(h, p, x)
  {
    hide NodeEvents, Replay, Learned;
    var n := x.node;
    OfUnique(cur, x);
    var reported := ReportedEvents(prev, cur, Sum(cur, BytesBefore(prev)), Sum(cur, BytesAfter(prev)));
    ReplayConcat(h, LayoutEvents(prev, cur) + reported, VanishedEvents(prev, cur, failed), n);
    ReplayConcat(h, LayoutEvents(prev, cur), reported, n);
    ReplayNothing(h, LayoutEvents(prev, cur), n);
    ReplayReported(h, prev, cur, Sum(cur, BytesBefore(prev)), Sum(cur, BytesAfter(prev)), n);
    VanishedAreAbsent(prev, cur, failed, n);
    ReplayNothing(Learned(h, p, x), VanishedEvents(prev, cur, failed), n);
  }

  /** Replaying a scrape's events onto what the node held before gives what it holds now, capacity
      and tags whenever both readings are gated in. */
  lemma DiffReplays(prev: seq<Observation>, cur: seq<Observation>, failed: set<Node>, p: Observation, x: Observation)
    requires OnePerNode(prev) && OnePerNode(cur) && p in prev && x in cur && p.node == x.node
    ensures
      var now := Replay(HeldBy(p), Diff(prev, cur, failed), x.node);
      && (p.roleOk && x.roleOk ==> now.capacity == x.capacity && now.tags == x.tags)
      && (p.zone != "" && x.zone != "" ==> now.zone == x.zone)
      && (p.garageVersion != "" && x.garageVersion != "" ==> now.garageVersion == x.garageVersion)
  {
    hide Diff, Replay;
    OfUnique(prev, p);
    DiffTeaches(HeldBy(p), prev, cur, failed, p, x);
  }

  // ---- replaying a run ------------------------------------------------------------------

  /** One scrape's comparison. */
  datatype Pass = Pass(prev: seq<Observation>, cur: seq<Observation>, failed: set<Node>)

  function AllEvents(passes: seq<Pass>): seq<Event> {
    if passes == [] then []
    else
      var last := passes[|passes| - 1];
      AllEvents(passes[..|passes| - 1]) + Diff(last.prev, last.cur, last.failed)
  }

  /** `seen` are the observations of the node through the passes: each pass compares the one
      before with the one after. */
  ghost predicate Seen(passes: seq<Pass>, seen: seq<Observation>, n: Node) {
    && |seen| == |passes| + 1
    && (forall k :: 0 <= k < |seen| ==> seen[k].node == n)
    && (forall k :: 0 <= k < |passes| ==>
          OnePerNode(passes[k].cur) && Of(passes[k].prev, n) == Some(seen[k]) && seen[k + 1] in passes[k].cur)
  }

  function LearnedAll(h: Held, seen: seq<Observation>): Held {
    if |seen| < 2 then h
    else Learned(LearnedAll(h, seen[..|seen| - 1]), seen[|seen| - 2], seen[|seen| - 1])
  }

  lemma {:induction false} RunTeaches(h: Held, passes: seq<Pass>, seen: seq<Observation>, n: Node)
    requires Seen(passes, seen, n)
    ensures Replay(h, AllEvents(passes), n) == LearnedAll(h, seen)
  {
    hide Diff, Learned;
    if passes != [] {
      var k := |passes| - 1;
      RunTeaches(h, passes[..k], seen[..k + 1], n);
      ReplayConcat(h, AllEvents(passes[..k]), Diff(passes[k].prev, passes[k].cur, passes[k].failed), n);
      DiffTeaches(LearnedAll(h, seen[..k + 1]), passes[k].prev, passes[k].cur, passes[k].failed, seen[k], seen[k + 1]);
    }
  }

  /** Where a list of readings, some of them missing, last moved from one to the next; 0 if it never
      did between two that are there. */
  function LastMoved<T(==)>(readings: seq<Option<T>>): (k: nat)
    ensures readings != [] ==> k < |readings|
    ensures k > 0 ==> k < |readings| && readings[k].Some?
  {
    if |readings| < 2 then 0
    else
      var k := |readings| - 1;
      if readings[k - 1].Some? && readings[k].Some? && readings[k - 1] != readings[k] then k
      else LastMoved(readings[..k])
  }

  /** The readings that the layout vouches for. */
  function Capacities(seen: seq<Observation>): seq<Option<nat>> {
    seq(|seen|, k requires 0 <= k < |seen| => if seen[k].roleOk then Some(seen[k].capacity) else None)
  }

  function Tags(seen: seq<Observation>): seq<Option<string>> {
    seq(|seen|, k requires 0 <= k < |seen| => if seen[k].roleOk then Some(seen[k].tags) else None)
  }

  lemma {:induction false} LearnedLastMove(seen: seq<Observation>)
    requires seen != []
    ensures LearnedAll(HeldBy(seen[0]), seen).capacity == seen[LastMoved(Capacities(seen))].capacity
    ensures LearnedAll(HeldBy(seen[0]), seen).tags == seen[LastMoved(Tags(seen))].tags
  {
    hide Learned;
    if |seen| > 1 {
      var rest, k := seen[..|seen| - 1], |seen| - 1;
      LearnedLastMove(rest);
      assert Capacities(seen)[..|rest|] == Capacities(rest);
      assert Tags(seen)[..|rest|] == Tags(rest);
      LearnedGated(LearnedAll(HeldBy(seen[0]), rest), seen[k - 1], seen[k]);
    }
  }

  lemma LearnedGated(h: Held, p: Observation, x: Observation)
    ensures Learned(h, p, x).capacity
         == if p.roleOk && x.roleOk && p.capacity != x.capacity then x.capacity else h.capacity
    ensures Learned(h, p, x).tags == if p.roleOk && x.roleOk && p.tags != x.tags then x.tags else h.tags
  { }

  /** Over every run the recorded events replay a node's first capacity and tags to those after the
      last change between two gated readings: they are its last ones if and only if nothing changed
      since then. */
  lemma {:induction false} RunReplaysLastMove(passes: seq<Pass>, seen: seq<Observation>, n: Node)
    requires Seen(passes, seen, n)
    ensures
      var held := Replay(HeldBy(seen[0]), AllEvents(passes), n);
      held.capacity == seen[LastMoved(Capacities(seen))].capacity && held.tags == seen[LastMoved(Tags(seen))].tags
  {
    RunTeaches(HeldBy(seen[0]), passes, seen, n);
    LearnedLastMove(seen);
  }

  lemma {:induction false} NothingMissing<T(!new)>(readings: seq<Option<T>>)
    requires readings != [] && forall k :: 0 <= k < |readings| ==> readings[k].Some?
    ensures readings[LastMoved(readings)] == readings[|readings| - 1]
  {
    if |readings| > 1 { NothingMissing(readings[..|readings| - 1]); }
  }

  lemma {:induction false} NeverMoved<T(!new)>(readings: seq<Option<T>>)
    requires forall k :: 0 < k < |readings| ==> readings[k - 1].None? || readings[k].None?
    ensures LastMoved(readings) == 0
  {
    if |readings| > 1 { NeverMoved(readings[..|readings| - 1]); }
  }

  /** In particular a run of gated readings replays the first reading to the last. */
  lemma {:induction false} GatedRunReplays(passes: seq<Pass>, seen: seq<Observation>, n: Node)
    requires Seen(passes, seen, n) && forall k :: 0 <= k < |seen| ==> seen[k].roleOk
    ensures
      var held, last := Replay(HeldBy(seen[0]), AllEvents(passes), n), seen[|seen| - 1];
      held.capacity == last.capacity && held.tags == last.tags
  {
    hide LastMoved, Replay, AllEvents;
    RunReplaysLastMove(passes, seen, n);
    NothingMissing(Capacities(seen));
    NothingMissing(Tags(seen));
  }

  /** And a change of capacity or tags that spans scrapes with an unreadable layout is never
      recorded: between two gated readings with only ungated ones in between, the replay is right
      if and only if nothing changed. */
  lemma {:induction false} SpannedChangeIsLost(passes: seq<Pass>, seen: seq<Observation>, n: Node)
    requires Seen(passes, seen, n) && |seen| >= 3
    requires forall k :: 0 < k < |seen| - 1 ==> !seen[k].roleOk
    ensures
      var held, first, last := Replay(HeldBy(seen[0]), AllEvents(passes), n), seen[0], seen[|seen| - 1];
      && (held.capacity == last.capacity <==> first.capacity == last.capacity)
      && (held.tags == last.tags <==> first.tags == last.tags)
  {
    RunReplaysLastMove(passes, seen, n);
    NeverMoved(Capacities(seen));
    NeverMoved(Tags(seen));
  }

  // ---- a scrape like the last one -------------------------------------------------------

  lemma UnchangedNode(p: Observation, b: real, a: real)
    ensures NodeEvents(p, p, b, a) == []
  {
    if Used(p).Some? && Used(p).value >= DATA_DROP_MIN_BYTES {
      assert Lost(Used(p).value as real, Used(p).value as real) == 0.0;
    }
  }

  lemma {:induction false} UnchangedReported(prev: seq<Observation>, cur: seq<Observation>, b: real, a: real)
    requires forall x :: x in cur ==> Of(prev, x.node) == Some(x)
    ensures ReportedEvents(prev, cur, b, a) == []
  {
    hide NodeEvents;
    if cur != [] {
      assert cur[|cur| - 1] in cur;
      UnchangedReported(prev, cur[..|cur| - 1], b, a);
      UnchangedNode(cur[|cur| - 1], b, a);
    }
  }

  lemma {:induction false} NothingVanished(prev: seq<Observation>, cur: seq<Observation>, failed: set<Node>)
    requires forall p :: p in prev ==> Of(cur, p.node).Some?
    ensures VanishedEvents(prev, cur, failed) == []
  {
    if prev != [] {
      assert prev[|prev| - 1] in prev;
      NothingVanished(prev[..|prev| - 1], cur, failed);
    }
  }

  lemma UnchangedIsSilent(rows: seq<Observation>, failed: set<Node>)
    requires OnePerNode(rows)
    ensures Diff(rows, rows, failed) == []
  {
    forall x | x in rows { OfUnique(rows, x); }
    UnchangedReported(rows, rows, Sum(rows, BytesBefore(rows)), Sum(rows, BytesAfter(rows)));
    NothingVanished(rows, rows, failed);
  }

  // ---- one observation per node ---------------------------------------------------------

  /** Why a scrape must report a node once: listed twice, a node that went down is reported down
      twice, and the plan would create two rows for it. */
  lemma DuplicateOpensTwice(p: Observation, x: Observation, failed: set<Node>)
    requires p.node == x.node != "" && p.isUp && !x.isUp
    ensures Count(Diff([p], [x, x], failed), Opens(Outage(x.node))) == 2
  {
    hide Filter, NodeEvents;
    var prev, cur, c := [p], [x, x], Outage(x.node);
    var b, a := Sum(cur, BytesBefore(prev)), Sum(cur, BytesAfter(prev));
    assert cur[..1] == [x] && [x][..0] == [] && prev[..0] == [];
    var own := NodeEvents(p, x, b, a);
    assert ReportedEvents(prev, [x], b, a) == [] + own;
    assert ReportedEvents(prev, cur, b, a) == ([] + own) + own;
    assert VanishedEvents(prev, cur, failed) == [];
    NodeEventsOpen(p, x, b, a, c);
    CountConcat([], own, Opens(c));
    CountConcat([] + own, own, Opens(c));
    CountConcat(LayoutEvents(prev, cur) + (([] + own) + own), [], Opens(c));
    CountConcat(LayoutEvents(prev, cur), ([] + own) + own, Opens(c));
    FilterNone(LayoutEvents(prev, cur), Opens(c));
    FilterNone([], Opens(c));
  }

  // ---- layout versions ------------------------------------------------------------------

  /** Consecutive scrapes that could read the layout: each compares against the version the one
      before it recorded. */
  ghost predicate Gated(first: nat, passes: seq<Pass>) {
    forall k :: 0 <= k < |passes| ==>
      && LayoutVersionOf(passes[k].cur).Some?
      && LayoutVersionOf(passes[k].prev) == Some(VersionBefore(first, passes, k))
  }

  function VersionBefore(first: nat, passes: seq<Pass>, k: nat): nat
    requires k <= |passes|
  {
    if k == 0 || LayoutVersionOf(passes[k - 1].cur).None? then first else LayoutVersionOf(passes[k - 1].cur).value
  }

  function LayoutTrail(passes: seq<Pass>): seq<Event> {
    if passes == [] then []
    else LayoutTrail(passes[..|passes| - 1]) + LayoutEvents(passes[|passes| - 1].prev, passes[|passes| - 1].cur)
  }

  /** The events lead from one version to the next without a gap. */
  ghost predicate Leads(events: seq<Event>, from: nat, to: nat) {
    && (forall i :: 0 <= i < |events| ==> events[i].LayoutMoved? && events[i].versionBefore != events[i].versionAfter)
    && (forall i :: 0 <= i < |events| - 1 ==> events[i].versionAfter == events[i + 1].versionBefore)
    && (if events == [] then from == to else events[0].versionBefore == from && events[|events| - 1].versionAfter == to)
  }

  lemma LeadsOn(events: seq<Event>, from: nat, via: nat, to: nat)
    requires Leads(events, from, via)
    ensures Leads(events + (if via != to then [LayoutMoved(via, to)] else []), from, to)
  {
    if via == to { assert events + [] == events; }
  }

  lemma {:induction false} LayoutVersionsChain(first: nat, passes: seq<Pass>)
    requires Gated(first, passes)
    ensures Leads(LayoutTrail(passes), first, VersionBefore(first, passes, |passes|))
  {
    hide Leads, LayoutVersionOf;
    if passes == [] {
      LeadsNowhere(first);
    } else {
      var before, last := passes[..|passes| - 1], passes[|passes| - 1];
      assert forall k :: 0 <= k <= |before| ==> VersionBefore(first, before, k) == VersionBefore(first, passes, k);
      LayoutVersionsChain(first, before);
      var via, to := VersionBefore(first, passes, |before|), VersionBefore(first, passes, |passes|);
      LeadsOn(LayoutTrail(before), first, via, to);
    }
  }

  lemma LeadsNowhere(first: nat)
    ensures Leads([], first, first)
  {
  }

  /** Any run: `versions` are what its scrapes could read of the layout version. */
  ghost predicate Versioned(passes: seq<Pass>, versions: seq<Option<nat>>) {
    && |versions| == |passes| + 1
    && forall k :: 0 <= k < |passes| ==>
         LayoutVersionOf(passes[k].prev) == versions[k] && LayoutVersionOf(passes[k].cur) == versions[k + 1]
  }

  function ReplayVersion(version: nat, events: seq<Event>): nat {
    if events == [] then version
    else if events[|events| - 1].LayoutMoved? then events[|events| - 1].versionAfter
    else ReplayVersion(version, events[..|events| - 1])
  }

  /** The version events replay the first version to the one after the last move between two
      scrapes in a row that could both read the layout. */
  lemma {:induction false} VersionsReplayLastMove(passes: seq<Pass>, versions: seq<Option<nat>>, first: nat)
    requires Versioned(passes, versions) && versions[0] in {None, Some(first)}
    ensures
      ReplayVersion(first, LayoutTrail(passes))
      == if LastMoved(versions) == 0 then first else versions[LastMoved(versions)].value
  {
    hide LayoutVersionOf;
    if passes != [] {
      var k := |passes| - 1;
      VersionsReplayLastMove(passes[..k], versions[..k + 1], first);
      var trail, own := LayoutTrail(passes[..k]), LayoutEvents(passes[k].prev, passes[k].cur);
      if own == [] {
        assert trail + own == trail;
      } else {
        assert LayoutTrail(passes)[|LayoutTrail(passes)| - 1] == own[0];
      }
    }
  }

  /** A move of the layout that spans a scrape which could not read it is never recorded. */
  lemma {:induction false} SpannedMoveIsLost(passes: seq<Pass>, versions: seq<Option<nat>>)
    requires Versioned(passes, versions) && |versions| >= 3
    requires forall k :: 0 < k < |versions| - 1 ==> versions[k].None?
    ensures LayoutTrail(passes) == []
  {
    hide LayoutVersionOf;
    NothingTrailed(passes, versions);
  }

  lemma {:induction false} NothingTrailed(passes: seq<Pass>, versions: seq<Option<nat>>)
    requires Versioned(passes, versions)
    requires forall k :: 0 < k < |versions| ==> versions[k - 1].None? || versions[k].None?
    ensures LayoutTrail(passes) == []
  {
    hide LayoutVersionOf;
    if passes != [] {
      var k := |passes| - 1;
      NothingTrailed(passes[..k], versions[..k + 1]);
      assert versions[k].None? || versions[k + 1].None?;
    }
  }

  // ---- data drops -----------------------------------------------------------------------

  function Drops(n: Node): Event -> bool {
    (e: Event) => e.DataDropped? && e.node == n
  }

  function PeerOf(n: Node): Observation -> bool {
    (o: Observation) => o.node != n
  }

  function IsNode(n: Node): Observation -> bool {
    (o: Observation) => o.node == n
  }

  lemma {:induction false} OnlyOne(cur: seq<Observation>, x: Observation)
    requires OnePerNode(cur) && x in cur
    ensures Filter(cur, IsNode(x.node)) == [x]
  {
    var rest, last := cur[..|cur| - 1], cur[|cur| - 1];
    assert cur == rest + [last];
    if last == x {
      FilterNone(rest, IsNode(x.node));
    } else {
      assert x in rest;
      OnlyOne(rest, x);
    }
  }

  /** Taking the node under test out of the cluster totals leaves the sum over its peers. */
  lemma PeerSum(cur: seq<Observation>, x: Observation, weight: Observation -> real)
    requires OnePerNode(cur) && x in cur
    ensures Sum(cur, weight) - weight(x) == Sum(Filter(cur, PeerOf(x.node)), weight)
  {
    SumPartition(cur, IsNode(x.node), PeerOf(x.node), weight);
    OnlyOne(cur, x);
    SumSnoc([], x, weight);
    assert [] + [x] == [x];
  }

  lemma OtherEventsAreNoDrops(p: Observation, x: Observation)
    ensures forall e :: e in StatusEvents(p, x) + RoleEvents(p, x) ==> !e.DataDropped?
    ensures forall e :: e in DiskEvents(x.node, Data, p.dataTotal, x.dataTotal) ==> !e.DataDropped?
    ensures forall e :: e in DiskEvents(x.node, Meta, p.metaTotal, x.metaTotal) ==> !e.DataDropped?
  {
  }

  lemma NodeEventsDrop(p: Observation, x: Observation, b: real, a: real, n: Node)
    ensures Count(NodeEvents(p, x, b, a), Drops(n)) == if x.node == n && DropEvents(p, x, b, a) != [] then 1 else 0
  {
    hide DropsData, DiskEvents, StatusEvents, RoleEvents;
    var before := (if p.isUp && !x.isUp then [NodeDown(x.node)] else [])
      + DiskEvents(x.node, Data, p.dataTotal, x.dataTotal) + DiskEvents(x.node, Meta, p.metaTotal, x.metaTotal);
    var after := StatusEvents(p, x) + RoleEvents(p, x);
    assert NodeEvents(p, x, b, a) == before + DropEvents(p, x, b, a) + after;
    CountConcat(before + DropEvents(p, x, b, a), after, Drops(n));
    CountConcat(before, DropEvents(p, x, b, a), Drops(n));
    OtherEventsAreNoDrops(p, x);
    FilterNone(before, Drops(n));
    FilterNone(after, Drops(n));
  }

  /** A node read in both scrapes is flagged exactly when its own loss passes the threshold and
      its peers, taken together, lost less than half that fraction. */
  lemma {:induction false} DropFlaggedIff(prev: seq<Observation>, cur: seq<Observation>, failed: set<Node>,
                                          x: Observation)
    requires OnePerNode(cur) && x in cur && ReadTwice(prev, x)
    ensures
      var peers := Filter(cur, PeerOf(x.node));
      var before := Sum(peers, BytesBefore(prev)) + BytesBefore(prev)(x);
      var after := Sum(peers, BytesAfter(prev)) + BytesAfter(prev)(x);
      Count(Diff(prev, cur, failed), Drops(x.node))
      == if DropsData(Used(Of(prev, x.node).value).value, Used(x).value, before, after) then 1 else 0
  {
    hide NodeEvents, DropsData, Filter, Sum, Diff, ReportedEvents, BytesBefore, BytesAfter;
    OwnBytes(prev, x);
    var b, a, n := Sum(cur, BytesBefore(prev)), Sum(cur, BytesAfter(prev)), x.node;
    PeerSum(cur, x, BytesBefore(prev));
    PeerSum(cur, x, BytesAfter(prev));
    OfUnique(cur, x);
    OnlyReportedDrop(prev, cur, failed, n);
    forall p, y { NodeEventsDrop(p, y, b, a, n); }
    ReportedCount(prev, cur, b, a, n, Drops(n));
    OfMember(prev, n);
  }

  lemma OnlyReportedDrop(prev: seq<Observation>, cur: seq<Observation>, failed: set<Node>, n: Node)
    ensures Count(Diff(prev, cur, failed), Drops(n))
        == Count(ReportedEvents(prev, cur, Sum(cur, BytesBefore(prev)), Sum(cur, BytesAfter(prev))), Drops(n))
  {
    hide Filter, Sum, ReportedEvents, VanishedEvents;
    var reported := ReportedEvents(prev, cur, Sum(cur, BytesBefore(prev)), Sum(cur, BytesAfter(prev)));
    CountConcat(LayoutEvents(prev, cur) + reported, VanishedEvents(prev, cur, failed), Drops(n));
    CountConcat(LayoutEvents(prev, cur), reported, Drops(n));
    FilterNone(LayoutEvents(prev, cur), Drops(n));
    VanishedAreRemovals(prev, cur, failed);
    FilterNone(VanishedEvents(prev, cur, failed), Drops(n));
  }

  lemma {:induction false} VanishedAreRemovals(prev: seq<Observation>, cur: seq<Observation>, failed: set<Node>)
    ensures forall e :: e in VanishedEvents(prev, cur, failed) ==> e.NodeRemoved?
  {
    if prev != [] { VanishedAreRemovals(prev[..|prev| - 1], cur, failed); }
  }

  lemma SharedLoss(before: nat, after: nat, peersBefore: real, peersAfter: real, d: real)
    requires before >= DATA_DROP_MIN_BYTES && d == Lost(before as real, after as real) >= DATA_DROP_PCT
    requires peersBefore > 0.0 && peersAfter <= (1.0 - d * 0.5) * peersBefore
    ensures !DropsData(before, after, peersBefore + before as real, peersAfter + after as real)
  {
    assert peersBefore - peersAfter >= d * 0.5 * peersBefore;
    FractionOf(peersBefore, peersBefore - peersAfter, d * 0.5);
  }

  lemma FractionOf(whole: real, part: real, k: real)
    requires whole > 0.0 && part >= k * whole
    ensures part / whole >= k
  {
  }

  /** A loss the peers shared is not flagged: they hold data and each of them lost at least half
      the node's own fraction. Nodes that joined or left carry no reading and change nothing. */
  lemma {:induction false} SharedDropIsNotFlagged(prev: seq<Observation>, cur: seq<Observation>, failed: set<Node>,
                                                  x: Observation, d: real)
    requires OnePerNode(cur) && x in cur && ReadTwice(prev, x)
    requires Used(Of(prev, x.node).value).value >= DATA_DROP_MIN_BYTES
    requires d == Lost(Used(Of(prev, x.node).value).value as real, Used(x).value as real) && d >= DATA_DROP_PCT
    requires exists y :: y in cur && y.node != x.node && BytesBefore(prev)(y) > 0.0
    requires forall y :: y in cur && y.node != x.node ==> BytesAfter(prev)(y) <= (1.0 - d * 0.5) * BytesBefore(prev)(y)
    ensures Count(Diff(prev, cur, failed), Drops(x.node)) == 0
  {
    hide Diff, NodeEvents, Filter, Sum, DropsData, Lost, BytesBefore, BytesAfter;
    var k := 1.0 - d * 0.5;
    PeersShrank(prev, cur, x.node, k);
    DropFlaggedIff(prev, cur, failed, x);
    OwnBytes(prev, x);
    var peers := Filter(cur, PeerOf(x.node));
    SharedLoss(Used(Of(prev, x.node).value).value, Used(x).value,
               Sum(peers, BytesBefore(prev)), Sum(peers, BytesAfter(prev)), d);
  }

  lemma OwnBytes(prev: seq<Observation>, x: Observation)
    requires ReadTwice(prev, x)
    ensures BytesBefore(prev)(x) == Used(Of(prev, x.node).value).value as real
    ensures BytesAfter(prev)(x) == Used(x).value as real
  {
  }

  lemma PeersShrank(prev: seq<Observation>, cur: seq<Observation>, n: Node, k: real)
    requires exists y :: y in cur && y.node != n && BytesBefore(prev)(y) > 0.0
    requires forall y :: y in cur && y.node != n ==> BytesAfter(prev)(y) <= k * BytesBefore(prev)(y)
    ensures var peers := Filter(cur, PeerOf(n));
      Sum(peers, BytesBefore(prev)) > 0.0 && Sum(peers, BytesAfter(prev)) <= k * Sum(peers, BytesBefore(prev))
  {
    hide Sum, Filter;
    var peers := Filter(cur, PeerOf(n));
    FilterMembers(cur, PeerOf(n));
    SumScaled(peers, BytesBefore(prev), BytesAfter(prev), k);
    SumPositive(peers, BytesBefore(prev));
  }

  /** A loss nobody shared is always flagged: no peer's stored bytes fell. */
  lemma LoneDropIsFlagged(prev: seq<Observation>, cur: seq<Observation>, failed: set<Node>, x: Observation)
    requires OnePerNode(cur) && x in cur && ReadTwice(prev, x)
    requires Used(Of(prev, x.node).value).value >= DATA_DROP_MIN_BYTES
    requires Lost(Used(Of(prev, x.node).value).value as real, Used(x).value as real) >= DATA_DROP_PCT
    requires forall y :: y in cur && y.node != x.node ==> BytesAfter(prev)(y) >= BytesBefore(prev)(y)
    ensures Count(Diff(prev, cur, failed), Drops(x.node)) == 1
  {
    hide Diff, NodeEvents, Filter, Sum, DropsData, Lost, BytesBefore, BytesAfter;
    var peers := Filter(cur, PeerOf(x.node));
    FilterMembers(cur, PeerOf(x.node));
    DropFlaggedIff(prev, cur, failed, x);
    OwnBytes(prev, x);
    SumScaled(peers, BytesAfter(prev), BytesBefore(prev), 1.0);
    LoneLoss(Used(Of(prev, x.node).value).value, Used(x).value,
             Sum(peers, BytesBefore(prev)), Sum(peers, BytesAfter(prev)));
  }

  lemma LoneLoss(before: nat, after: nat, peersBefore: real, peersAfter: real)
    requires before >= DATA_DROP_MIN_BYTES && Lost(before as real, after as real) >= DATA_DROP_PCT
    requires peersBefore <= peersAfter
    ensures DropsData(before, after, peersBefore + before as real, peersAfter + after as real)
  {
    if peersBefore > 0.0 { NoLoss(peersBefore, peersAfter); }
  }

  lemma NoLoss(before: real, after: real)
    requires before > 0.0 && after >= before
    ensures Lost(before, after) <= 0.0
  {
  }
}
