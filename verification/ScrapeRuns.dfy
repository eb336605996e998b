/** Runs of the collector (`scrapeOnce` in pocketbase/pb_hooks/lib/node-metrics.js): each scrape
    compares against samples that the ones before it stored, as far as the window and the
    retention left them. */
module ScrapeRuns {
  import opened Options
  import opened Sums
  import opened Observations
  import opened DiffTheorems
  import opened Timeline
  import opened Collector

  /** One call of the collector, as far as the stored samples and the comparison go. */
  datatype Shot = Shot(nodes: seq<Reported>, start: int, t: int, prune: bool, days: Option<int>)

  function SamplesOf(shots: seq<Shot>): seq<Sample> {
    if shots == [] then []
    else
      var last := shots[|shots| - 1];
      SamplesAfter(SamplesOf(shots[..|shots| - 1]), last.nodes, last.start, last.t, last.prune, last.days)
  }

  /** The comparison that shot `k` makes. */
  function PassOf(shots: seq<Shot>, k: nat): Pass
    requires k < |shots|
  {
    var s := ScrapeOf(SamplesOf(shots[..k]), shots[k].nodes, shots[k].start, shots[k].start, shots[k].t);
    Pass(s.prev, s.cur, s.failed)
  }

  /** The comparisons of all shots but the first. */
  function Passes(shots: seq<Shot>): seq<Pass> {
    if |shots| < 2 then [] else Passes(shots[..|shots| - 1]) + [PassOf(shots, |shots| - 1)]
  }

  /** A shot that recorded something and took less than a day. */
  ghost predicate Recorded(shot: Shot) {
    DistinctReports(shot.nodes) && Saved(shot.nodes) != [] && shot.start <= shot.t < shot.start + 86400
  }

  /** Shots that follow one another within the window. */
  ghost predicate Steady(shots: seq<Shot>) {
    && (forall k :: 0 <= k < |shots| ==> Recorded(shots[k]))
    && (forall k :: 0 < k < |shots| ==> shots[k - 1].start < shots[k].start <= shots[k - 1].start + PREV_WINDOW_SEC)
  }

  lemma {:induction false} PassesAre(shots: seq<Shot>)
    ensures |Passes(shots)| == if |shots| < 2 then 0 else |shots| - 1
    ensures forall k :: 0 <= k < |Passes(shots)| ==> Passes(shots)[k] == PassOf(shots, k + 1)
  {
    hide ScrapeOf, SamplesOf;
    if |shots| >= 2 {
      var rest := shots[..|shots| - 1];
      PassesAre(rest);
      forall k | 0 <= k < |Passes(rest)| ensures Passes(rest)[k] == PassOf(shots, k + 1) {
        assert rest[..k + 1] == shots[..k + 1];
      }
    }
  }

  /** What the last shot left of the samples before it. */
  function Older(shots: seq<Shot>): seq<Sample>
    requires shots != []
  {
    var last, before := shots[|shots| - 1], SamplesOf(shots[..|shots| - 1]);
    var days := RetentionDays(last.days);
    if last.prune && days != 0 then Filter(before, NotOlder(last.t - days * 86400)) else before
  }

  lemma PruneKeepsNew(before: seq<Sample>, cur: seq<Observation>, created: int, cutoff: int)
    requires created >= cutoff
    ensures Filter(before + Stamped(cur, created), NotOlder(cutoff))
         == Filter(before, NotOlder(cutoff)) + Stamped(cur, created)
  {
    hide Filter;
    FilterConcat(before, Stamped(cur, created), NotOlder(cutoff));
    FilterAll(Stamped(cur, created), NotOlder(cutoff));
  }

  /** The samples of the last shot come last and are all there, whatever the retention takes. */
  lemma NewestKept(shots: seq<Shot>)
    requires shots != [] && Recorded(shots[|shots| - 1])
    ensures
      var last := shots[|shots| - 1];
      SamplesOf(shots) == Older(shots) + Stamped(Saved(last.nodes), last.start)
  {
    hide Filter, Stamped, Saved, NotOlder, DistinctReports;
    var last, before := shots[|shots| - 1], SamplesOf(shots[..|shots| - 1]);
    var days := RetentionDays(last.days);
    if last.prune && days != 0 {
      PruneKeepsNew(before, Saved(last.nodes), last.start, last.t - days * 86400);
    }
  }

  // ---- layout versions ------------------------------------------------------------------

  /** The shot could read the layout, at version `v`. */
  ghost predicate ReadAt(shot: Shot, v: nat) {
    forall o :: o in Saved(shot.nodes) ==> o.roleOk && o.layoutVersion == v
  }

  lemma PassCompares(shots: seq<Shot>, versions: seq<nat>, k: nat)
    requires Steady(shots) && |versions| == |shots| && 0 < k < |shots|
    requires ReadAt(shots[k - 1], versions[k - 1]) && ReadAt(shots[k], versions[k])
    ensures LayoutVersionOf(PassOf(shots, k).prev) == Some(versions[k - 1])
    ensures LayoutVersionOf(PassOf(shots, k).cur) == Some(versions[k])
  {
    hide Previous, LayoutVersionOf, Stamped, SamplesOf;
    var before := shots[..k];
    assert before[|before| - 1] == shots[k - 1];
    NewestKept(before);
    var older := Older(before);
    var cutoff := shots[k].start - PREV_WINDOW_SEC;
    SavedOnce(shots[k - 1].nodes);
    SavedOnce(shots[k].nodes);
    VersionCarried(older, Saved(shots[k - 1].nodes), shots[k - 1].start, cutoff, versions[k - 1]);
    VersionCarried([], Saved(shots[k].nodes), shots[k].start, shots[k].start, versions[k]);
  }

  /** Over every run of scrapes that could read the layout and follow one another within the
      window, the version events lead from the first version to the last without a gap. */
  lemma {:induction false} VersionsChain(shots: seq<Shot>, versions: seq<nat>)
    requires Steady(shots) && |versions| == |shots| > 0
    requires forall k :: 0 <= k < |shots| ==> ReadAt(shots[k], versions[k])
    ensures Leads(LayoutTrail(Passes(shots)), versions[0], versions[|versions| - 1])
  {
    hide PassOf, Leads, Steady, ReadAt, LayoutVersionOf, Passes;
    PassesAre(shots);
    forall k | 0 < k < |shots|
      ensures LayoutVersionOf(PassOf(shots, k).prev) == Some(versions[k - 1])
      ensures LayoutVersionOf(PassOf(shots, k).cur) == Some(versions[k])
    {
      PassCompares(shots, versions, k);
    }
    var passes := Passes(shots);
    forall k | 0 <= k < |passes|
      ensures LayoutVersionOf(passes[k].cur).Some?
      ensures LayoutVersionOf(passes[k].prev) == Some(VersionBefore(versions[0], passes, k))
    {
      assert passes[k] == PassOf(shots, k + 1);
      if k > 0 { assert passes[k - 1] == PassOf(shots, k); }
    }
    LayoutVersionsChain(versions[0], passes);
  }

  // ---- one node -------------------------------------------------------------------------

  lemma {:induction false} NewestStamped(older: seq<Sample>, cur: seq<Observation>, created: int, cutoff: int, n: Node)
    requires created >= cutoff && n != ""
    ensures Newest(older + Stamped(cur, created), cutoff, n)
         == if Of(cur, n).Some? then Of(cur, n) else Newest(older, cutoff, n)
  {
    if cur == [] {
      assert older + Stamped(cur, created) == older;
    } else {
      var rest := cur[..|cur| - 1];
      var all := older + Stamped(cur, created);
      assert all[..|all| - 1] == older + Stamped(rest, created);
      NewestStamped(older, rest, created, cutoff, n);
    }
  }

  lemma NodeCarried(shots: seq<Shot>, k: nat, n: Node, x: Observation)
    requires Steady(shots) && 0 < k < |shots| && n != "" && x.node == n
    requires x in Saved(shots[k - 1].nodes)
    ensures Of(PassOf(shots, k).prev, n) == Some(x)
  {
    hide Previous, Stamped, SamplesOf, Newest, Of, Saved, FailedIds;
    var before := shots[..k];
    assert before[|before| - 1] == shots[k - 1];
    NewestKept(before);
    var older := Older(before);
    var cutoff := shots[k].start - PREV_WINDOW_SEC;
    SavedOnce(shots[k - 1].nodes);
    OfUnique(Saved(shots[k - 1].nodes), x);
    NewestStamped(older, Saved(shots[k - 1].nodes), shots[k - 1].start, cutoff, n);
    PreviousIsNewest(SamplesOf(before), cutoff, {}, n);
  }

  /** A node recorded by every shot of a steady run: the comparisons see its observations one
      after the other, so what is proved of passes holds of the collector. */
  lemma NodeIsSeen(shots: seq<Shot>, seen: seq<Observation>, n: Node)
    requires Steady(shots) && |seen| == |shots| > 0 && n != ""
    requires forall k :: 0 <= k < |shots| ==> seen[k] in Saved(shots[k].nodes) && seen[k].node == n
    ensures Seen(Passes(shots), seen, n)
  {
    hide Of, Saved, Steady, OnePerNode, SamplesOf, Previous, PassOf, Passes;
    PassesAre(shots);
    var passes := Passes(shots);
    forall k | 0 <= k < |passes|
      ensures OnePerNode(passes[k].cur) && Of(passes[k].prev, n) == Some(seen[k]) && seen[k + 1] in passes[k].cur
    {
      NodeCarried(shots, k + 1, n, seen[k]);
      RecordedOnce(shots, k + 1);
    }
  }

  lemma RecordedOnce(shots: seq<Shot>, k: nat)
    requires Steady(shots) && k < |shots|
    ensures OnePerNode(PassOf(shots, k).cur) && PassOf(shots, k).cur == Saved(shots[k].nodes)
  {
    hide Saved, FailedIds, Previous, SamplesOf;
    SavedOnce(shots[k].nodes);
  }

  /** The events the collector records of a node in a steady run replay its first capacity and tags
      to those after the last change between two gated readings: to its last ones when every reading
      is gated. */
  lemma {:induction false} CollectorReplays(shots: seq<Shot>, seen: seq<Observation>, n: Node)
    requires Steady(shots) && |seen| == |shots| > 0 && n != ""
    requires forall k :: 0 <= k < |shots| ==> seen[k] in Saved(shots[k].nodes) && seen[k].node == n
    ensures
      var held, last := Replay(HeldBy(seen[0]), AllEvents(Passes(shots)), n), seen[|seen| - 1];
      && held.capacity == seen[LastMoved(Capacities(seen))].capacity
      && held.tags == seen[LastMoved(Tags(seen))].tags
      && ((forall k :: 0 <= k < |seen| ==> seen[k].roleOk) ==>
            held.capacity == last.capacity && held.tags == last.tags)
  {
    hide Seen, Steady, Saved, Passes, AllEvents, LastMoved, Replay;
    NodeIsSeen(shots, seen, n);
    RunReplaysLastMove(Passes(shots), seen, n);
    if forall k :: 0 <= k < |seen| ==> seen[k].roleOk { GatedRunReplays(Passes(shots), seen, n); }
  }
}
