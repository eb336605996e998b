/** Bucketing samples into points per (node, bucket): `bucketHistory` in
    pocketbase/pb_hooks/lib/node-metrics.js. Times are milliseconds, readings exact reals. */
module History {
  import opened Options
  import opened Sums
  import opened Sorting

  /** `created` is absent when the date string does not parse. */
  datatype Sample = Sample(created: Option<int>, node: string, zone: string, isUp: bool, statsOk: bool, layoutOk: bool,
                           resyncQueue: real, resyncErrored: real, rcEntries: real, storedPartitions: real,
                           partitionSize: real, dataTotal: real, dataAvailable: real,
                           metaTotal: real, metaAvailable: real)

  datatype Field = ResyncQueue | ResyncErrored | RcEntries | StoredPartitions | PartitionSize
                 | DataTotal | DataAvailable | MetaTotal | MetaAvailable

  const FIELDS: set<Field> := {ResyncQueue, ResyncErrored, RcEntries, StoredPartitions, PartitionSize,
                               DataTotal, DataAvailable, MetaTotal, MetaAvailable}

  /** A field's reading, when the sample passes the gate of that field. */
  function Reading(x: Sample, f: Field): Option<real> {
    match f
    case ResyncQueue => if x.statsOk then Some(x.resyncQueue) else None
    case ResyncErrored => if x.statsOk then Some(x.resyncErrored) else None
    case RcEntries => if x.statsOk then Some(x.rcEntries) else None
    case StoredPartitions => if x.layoutOk then Some(x.storedPartitions) else None
    case PartitionSize => if x.layoutOk then Some(x.partitionSize) else None
    case DataTotal => if x.dataTotal > 0.0 then Some(x.dataTotal) else None
    case DataAvailable => if x.dataTotal > 0.0 then Some(x.dataAvailable) else None
    case MetaTotal => if x.metaTotal > 0.0 then Some(x.metaTotal) else None
    case MetaAvailable => if x.metaTotal > 0.0 then Some(x.metaAvailable) else None
  }

  datatype Agg = Agg(samples: nat, up: nat, values: map<Field, seq<real>>)

  datatype Point = Point(t: int, node: string, samples: nat, uptimePct: real, means: map<Field, Option<real>>)

  // ---- which samples a point stands for -------------------------------------------------

  function BucketStart(ms: int, width: int): int
    requires width > 0
  {
    (ms / width) * width
  }

  predicate Usable(x: Sample) {
    x.created.Some? && x.node != ""
  }

  function IsUsable(): Sample -> bool {
    (x: Sample) => Usable(x)
  }

  function Within(n: string, t: int, width: int): Sample -> bool
    requires width > 0
  {
    (x: Sample) => Usable(x) && x.node == n && BucketStart(x.created.value, width) == t
  }

  function UpWithin(n: string, t: int, width: int): Sample -> bool
    requires width > 0
  {
    (x: Sample) => Within(n, t, width)(x) && x.isUp
  }

  /** The gated readings of the kept samples, in the order of the samples. */
  function Readings(rows: seq<Sample>, keep: Sample -> bool, f: Field): seq<real> {
    if rows == [] then []
    else
      var rest, x := Readings(rows[..|rows| - 1], keep, f), rows[|rows| - 1];
      if keep(x) && Reading(x, f).Some? then rest + [Reading(x, f).value] else rest
  }

  function AggOf(rows: seq<Sample>, n: string, t: int, width: int): Agg
    requires width > 0
  {
    Agg(Count(rows, Within(n, t, width)), Count(rows, UpWithin(n, t, width)),
        map f | f in FIELDS :: Readings(rows, Within(n, t, width), f))
  }

  function Identity(): real -> real {
    (v: real) => v
  }

  function Mean(values: seq<real>): Option<real> {
    if values == [] then None else Some(Sum(values, Identity()) / |values| as real)
  }

  predicate Tallied(agg: Agg) {
    agg.samples > 0 && agg.values.Keys == FIELDS
  }

  function PointOf(n: string, t: int, agg: Agg): Point
    requires Tallied(agg)
  {
    Point(t, n, agg.samples, 100.0 * agg.up as real / agg.samples as real, map f | f in FIELDS :: Mean(agg.values[f]))
  }

  function Earlier(): (Point, Point) -> bool {
    (p: Point, q: Point) => p.t < q.t || (p.t == q.t && LexLess(p.node, q.node))
  }

  /** The points of a history: strictly sorted, each standing for exactly the usable samples of
      its node and bucket, and none missing. */
  ghost predicate HistoryOf(rows: seq<Sample>, width: int, points: seq<Point>)
    requires width > 0
  {
    && Ordered(points, Earlier())
    && (forall p :: p in points ==>
          Count(rows, Within(p.node, p.t, width)) > 0 && p == PointOf(p.node, p.t, AggOf(rows, p.node, p.t, width)))
    && (forall n, t :: Count(rows, Within(n, t, width)) > 0 ==> PointOf(n, t, AggOf(rows, n, t, width)) in points)
  }

  // ---- the loop -------------------------------------------------------------------------

  datatype NodeHistory = NodeHistory(zone: string, labelMs: int, buckets: map<int, Agg>)

  function Extended(agg: Agg, x: Sample): Agg
    requires agg.values.Keys == FIELDS
  {
    Agg(agg.samples + 1, agg.up + if x.isUp then 1 else 0,
        map f | f in FIELDS :: agg.values[f] + if Reading(x, f).Some? then [Reading(x, f).value] else [])
  }

  const NO_SAMPLES := Agg(0, 0, map f | f in FIELDS :: [])

  /** What one more sample adds to the gated readings. */
  function Kept(x: Sample, keep: Sample -> bool, f: Field): seq<real> {
    if keep(x) && Reading(x, f).Some? then [Reading(x, f).value] else []
  }

  lemma ReadingsSnoc(rows: seq<Sample>, x: Sample, keep: Sample -> bool, f: Field)
    ensures Readings(rows + [x], keep, f) == Readings(rows, keep, f) + Kept(x, keep, f)
  {
    hide Reading;
    assert (rows + [x])[..|rows|] == rows;
  }

  lemma AggSnoc(rows: seq<Sample>, x: Sample, n: string, t: int, width: int)
    requires width > 0
    ensures AggOf(rows + [x], n, t, width)
        == if Within(n, t, width)(x) then Extended(AggOf(rows, n, t, width), x) else AggOf(rows, n, t, width)
  {
    hide Reading, Readings, Filter, Within, UpWithin;
    var keep, after, before := Within(n, t, width), AggOf(rows + [x], n, t, width), AggOf(rows, n, t, width);
    FilterSnoc(rows, x, keep);
    FilterSnoc(rows, x, UpWithin(n, t, width));
    UpIsWithin(x, n, t, width);
    forall f ensures Readings(rows + [x], keep, f) == Readings(rows, keep, f) + Kept(x, keep, f) {
      ReadingsSnoc(rows, x, keep, f);
    }
    if keep(x) {
      assert after.values == Extended(before, x).values;
    } else {
      forall f | f in FIELDS ensures after.values[f] == before.values[f] {
        assert Readings(rows, keep, f) + [] == Readings(rows, keep, f);
      }
      assert after.values == before.values;
    }
  }

  lemma UpIsWithin(x: Sample, n: string, t: int, width: int)
    requires width > 0
    ensures UpWithin(n, t, width)(x) == (Within(n, t, width)(x) && x.isUp)
  { }

  lemma {:induction false} NoAgg(rows: seq<Sample>, n: string, t: int, width: int)
    requires width > 0 && Count(rows, Within(n, t, width)) == 0
    ensures AggOf(rows, n, t, width) == NO_SAMPLES
  {
    if rows != [] {
      var rest := rows[..|rows| - 1];
      assert rows == rest + [rows[|rows| - 1]];
      FilterSnoc(rest, rows[|rows| - 1], Within(n, t, width));
      NoAgg(rest, n, t, width);
      AggSnoc(rest, rows[|rows| - 1], n, t, width);
    }
  }

  /** What the nested maps hold after a prefix of the samples. */
  ghost predicate Bucketed(byNode: map<string, NodeHistory>, rows: seq<Sample>, width: int)
    requires width > 0
  {
    && (forall n :: n in byNode <==> Count(rows, OfNode(n)) > 0)
    && (forall n :: n in byNode ==> Labelled(byNode[n], rows, n))
    && (forall n, t :: Count(rows, Within(n, t, width)) > 0 <==> n in byNode && t in byNode[n].buckets)
    && (forall n, t :: n in byNode && t in byNode[n].buckets ==> byNode[n].buckets[t] == AggOf(rows, n, t, width))
  }

  function OfNode(n: string): Sample -> bool {
    (x: Sample) => Usable(x) && x.node == n
  }

  /** The label is that of the node's newest sample, the first one when several are newest. */
  ghost predicate Labelled(h: NodeHistory, rows: seq<Sample>, n: string) {
    exists i ::
      && 0 <= i < |rows| && OfNode(n)(rows[i]) && h.labelMs == rows[i].created.value && h.zone == rows[i].zone
      && (forall j :: 0 <= j < |rows| && OfNode(n)(rows[j]) ==> rows[j].created.value <= h.labelMs)
      && (forall j :: 0 <= j < i && OfNode(n)(rows[j]) ==> rows[j].created.value < h.labelMs)
  }

  datatype Label = Label(node: string, zone: string)

  function ById(): (Label, Label) -> bool {
    (a: Label, b: Label) => LexLess(a.node, b.node)
  }

  /** One label per node with a usable sample, sorted by node. */
  ghost predicate NodesOf(rows: seq<Sample>, nodes: seq<Label>) {
    && Ordered(nodes, ById())
    && (forall l :: l in nodes ==> exists ms :: LabelledBy(l.zone, ms, rows, l.node))
    && (forall n :: Count(rows, OfNode(n)) > 0 ==> exists z :: Label(n, z) in nodes)
  }

  ghost predicate LabelledBy(zone: string, ms: int, rows: seq<Sample>, n: string) {
    Labelled(NodeHistory(zone, ms, map[]), rows, n)
  }

  method MeanOf(values: seq<real>) returns (mean: Option<real>)
    ensures mean == Mean(values)
  {
    if |values| == 0 { return None; }
    var sum := 0.0;
    for i := 0 to |values|
      invariant sum == Sum(values[..i], Identity())
    {
      SumSnoc(values[..i], values[i], Identity());
      assert values[..i + 1] == values[..i] + [values[i]];
      sum := sum + values[i];
    }
    assert values[..|values|] == values;
    mean := Some(sum / |values| as real);
  }

  /** The pass over the samples. */
  method FillBuckets(rows: seq<Sample>, width: int) returns (byNode: map<string, NodeHistory>)
    requires width > 0
    ensures Bucketed(byNode, rows, width)
  {
    hide Bucketed, Extended;
    byNode := map[];
    NothingBucketed(width);
    for i := 0 to |rows|
      invariant Bucketed(byNode, rows[..i], width)
    {
      var row := rows[i];
      ghost var before := byNode;
      assert rows[..i + 1] == rows[..i] + [row];
      if row.created.None? || row.node == "" {
        SkippedSample(before, rows[..i], row, width);
      } else {
        var ms, t := row.created.value, BucketStart(row.created.value, width);
        var node := if row.node in byNode then byNode[row.node] else NodeHistory(row.zone, ms, map[]);
        if ms > node.labelMs {
          node := node.(labelMs := ms, zone := row.zone);
        }
        var agg := if t in node.buckets then node.buckets[t] else NO_SAMPLES;
        FieldsComplete(before, rows[..i], width);
        node := node.(buckets := node.buckets[t := Extended(agg, row)]);
        byNode := byNode[row.node := node];
        assert node == Filed(before, row, width);
        AddedSample(before, rows[..i], row, width);
      }
    }
    assert rows[..|rows|] == rows;
  }

  lemma NothingBucketed(width: int)
    requires width > 0
    ensures Bucketed(map[], [], width)
  { }

  lemma FieldsComplete(byNode: map<string, NodeHistory>, rows: seq<Sample>, width: int)
    requires width > 0 && Bucketed(byNode, rows, width)
    ensures AllFields(byNode)
  {
    hide Filter, Readings, Within, UpWithin, Labelled;
  }

  lemma {:induction false} SkippedSample(byNode: map<string, NodeHistory>, rows: seq<Sample>, x: Sample, width: int)
    requires width > 0 && Bucketed(byNode, rows, width) && !Usable(x)
    ensures Bucketed(byNode, rows + [x], width)
  {
    hide Filter, Readings;
    forall n, t ensures AggOf(rows + [x], n, t, width) == AggOf(rows, n, t, width)
                    && Count(rows + [x], Within(n, t, width)) == Count(rows, Within(n, t, width)) {
      AggSnoc(rows, x, n, t, width);
    }
    forall n ensures Count(rows + [x], OfNode(n)) == Count(rows, OfNode(n)) { FilterSnoc(rows, x, OfNode(n)); }
    forall n | n in byNode ensures Labelled(byNode[n], rows + [x], n) { StillLabelled(byNode[n], rows, x, n); }
  }

  lemma StillLabelled(h: NodeHistory, rows: seq<Sample>, x: Sample, n: string)
    requires Labelled(h, rows, n) && (OfNode(n)(x) ==> x.created.value <= h.labelMs)
    ensures Labelled(h, rows + [x], n)
  {
    var i :| 0 <= i < |rows| && OfNode(n)(rows[i]) && h.labelMs == rows[i].created.value && h.zone == rows[i].zone
      && (forall j :: 0 <= j < |rows| && OfNode(n)(rows[j]) ==> rows[j].created.value <= h.labelMs)
      && (forall j :: 0 <= j < i && OfNode(n)(rows[j]) ==> rows[j].created.value < h.labelMs);
    assert (rows + [x])[i] == rows[i];
    assert forall j :: 0 <= j < |rows| ==> (rows + [x])[j] == rows[j];
  }

  lemma NewlyLabelled(h: NodeHistory, rows: seq<Sample>, x: Sample, n: string)
    requires OfNode(n)(x) && h.labelMs == x.created.value && h.zone == x.zone
    requires forall j :: 0 <= j < |rows| && OfNode(n)(rows[j]) ==> rows[j].created.value < h.labelMs
    ensures Labelled(h, rows + [x], n)
  {
    assert (rows + [x])[|rows|] == x;
    assert forall j :: 0 <= j < |rows| ==> (rows + [x])[j] == rows[j];
  }

  ghost predicate AllFields(byNode: map<string, NodeHistory>) {
    forall n, t :: n in byNode && t in byNode[n].buckets ==> byNode[n].buckets[t].values.Keys == FIELDS
  }

  /** The node's entry after one more usable sample of it. */
  ghost function Filed(byNode: map<string, NodeHistory>, x: Sample, width: int): NodeHistory
    requires width > 0 && Usable(x) && AllFields(byNode)
  {
    var ms, t := x.created.value, BucketStart(x.created.value, width);
    var node := if x.node in byNode then byNode[x.node] else NodeHistory(x.zone, ms, map[]);
    var agg := if t in node.buckets then node.buckets[t] else NO_SAMPLES;
    NodeHistory(if ms > node.labelMs then x.zone else node.zone, if ms > node.labelMs then ms else node.labelMs,
                node.buckets[t := Extended(agg, x)])
  }

  lemma AddedAt(byNode: map<string, NodeHistory>, rows: seq<Sample>, x: Sample, width: int, n: string, t: int)
    requires width > 0 && Usable(x) && AllFields(byNode) && Bucketed(byNode, rows, width)
    ensures var after := byNode[x.node := Filed(byNode, x, width)];
      && (Count(rows + [x], Within(n, t, width)) > 0 <==> n in after && t in after[n].buckets)
      && (n in after && t in after[n].buckets ==> after[n].buckets[t] == AggOf(rows + [x], n, t, width))
  {
    hide Filter, Readings, Reading, Extended, Labelled;
    AggSnoc(rows, x, n, t, width);
    FilterSnoc(rows, x, Within(n, t, width));
    if Count(rows, Within(n, t, width)) == 0 { NoAgg(rows, n, t, width); }
  }

  lemma AddedLabel(byNode: map<string, NodeHistory>, rows: seq<Sample>, x: Sample, width: int, n: string)
    requires width > 0 && Usable(x) && AllFields(byNode) && Bucketed(byNode, rows, width)
    ensures var after := byNode[x.node := Filed(byNode, x, width)];
      && (n in after <==> Count(rows + [x], OfNode(n)) > 0)
      && (n in after ==> Labelled(after[n], rows + [x], n))
  {
    hide Filter, Readings, Reading, Extended, AggOf, Within;
    FilterSnoc(rows, x, OfNode(n));
    var node := Filed(byNode, x, width);
    if n != x.node {
      if n in byNode { StillLabelled(byNode[n], rows, x, n); }
    } else if n !in byNode {
      NoneKept(rows, OfNode(n));
      NewlyLabelled(node, rows, x, n);
    } else if x.created.value > byNode[n].labelMs {
      NewlyLabelled(node, rows, x, n);
    } else {
      StillLabelled(byNode[n], rows, x, n);
      assert Labelled(node, rows + [x], n);
    }
  }

  lemma NoneKept(rows: seq<Sample>, keep: Sample -> bool)
    requires Count(rows, keep) == 0
    ensures forall j :: 0 <= j < |rows| ==> !keep(rows[j])
  {
    FilterMembers(rows, keep);
    assert Filter(rows, keep) == [];
    forall j | 0 <= j < |rows| ensures !keep(rows[j]) {
      assert rows[j] in rows && rows[j] !in Filter(rows, keep);
    }
  }

  lemma AddedSample(byNode: map<string, NodeHistory>, rows: seq<Sample>, x: Sample, width: int)
    requires width > 0 && Usable(x) && AllFields(byNode) && Bucketed(byNode, rows, width)
    ensures Bucketed(byNode[x.node := Filed(byNode, x, width)], rows + [x], width)
  {
    hide Filter, Readings, Filed, Within, OfNode, Labelled, AggOf;
    var after := byNode[x.node := Filed(byNode, x, width)];
    forall n, t
      ensures Count(rows + [x], Within(n, t, width)) > 0 <==> n in after && t in after[n].buckets
      ensures n in after && t in after[n].buckets ==> after[n].buckets[t] == AggOf(rows + [x], n, t, width)
    {
      AddedAt(byNode, rows, x, width, n, t);
    }
    forall n ensures n in after <==> Count(rows + [x], OfNode(n)) > 0
      ensures n in after ==> Labelled(after[n], rows + [x], n) {
      AddedLabel(byNode, rows, x, width, n);
    }
  }

  // ---- listing the points ---------------------------------------------------------------

  method MeansOf(values: map<Field, seq<real>>) returns (means: map<Field, Option<real>>)
    ensures means == map f | f in values :: Mean(values[f])
  {
    var fields := KeysOf(values.Keys);
    means := map[];
    for i := 0 to |fields|
      invariant means.Keys == (set j | 0 <= j < i :: fields[j])
      invariant forall f :: f in means ==> f in values && means[f] == Mean(values[f])
    {
      var mean := MeanOf(values[fields[i]]);
      means := means[fields[i] := mean];
    }
    assert forall f :: f in values ==> f in fields;
  }

  ghost predicate OnePointEach(points: seq<Point>) {
    forall i, j :: 0 <= i < j < |points| ==> points[i].t != points[j].t || points[i].node != points[j].node
  }

  method ListPoints(n: string, buckets: map<int, Agg>) returns (points: seq<Point>)
    requires forall t :: t in buckets ==> Tallied(buckets[t])
    ensures OnePointEach(points)
    ensures forall p :: p in points ==> p.node == n && p.t in buckets && p == PointOf(n, p.t, buckets[p.t])
    ensures forall t :: t in buckets ==> PointOf(n, t, buckets[t]) in points
  {
    hide FIELDS;
    points := [];
    var starts := KeysOf(buckets.Keys);
    for i := 0 to |starts|
      invariant |points| == i
      invariant forall j :: 0 <= j < i ==> points[j] == PointOf(n, starts[j], buckets[starts[j]])
    {
      var t, agg := starts[i], buckets[starts[i]];
      var means := MeansOf(agg.values);
      points := points + [Point(t, n, agg.samples, 100.0 * agg.up as real / agg.samples as real, means)];
    }
  }

  /** Which point of the nested maps the samples of node `n` in the bucket at `t` end up in. */
  ghost predicate Listed(byNode: map<string, NodeHistory>, done: seq<string>, points: seq<Point>)
    requires forall n, t :: n in byNode && t in byNode[n].buckets ==> Tallied(byNode[n].buckets[t])
  {
    && OnePointEach(points)
    && (forall p :: p in points ==> p.node in done && p.node in byNode && p.t in byNode[p.node].buckets
                                    && p == PointOf(p.node, p.t, byNode[p.node].buckets[p.t]))
    && (forall n, t :: n in done && n in byNode && t in byNode[n].buckets ==>
          PointOf(n, t, byNode[n].buckets[t]) in points)
  }

  method ListNodes(byNode: map<string, NodeHistory>, nodeIds: seq<string>)
    returns (nodes: seq<Label>, points: seq<Point>)
    requires forall n, t :: n in byNode && t in byNode[n].buckets ==> Tallied(byNode[n].buckets[t])
    requires Distinct(nodeIds) && (forall n :: n in nodeIds ==> n in byNode)
    ensures |nodes| == |nodeIds|
    ensures forall j :: 0 <= j < |nodes| ==> nodes[j] == Label(nodeIds[j], byNode[nodeIds[j]].zone)
    ensures Listed(byNode, nodeIds, points)
  {
    hide Listed, OnePointEach, PointOf, Tallied;
    nodes, points := [], [];
    NothingListed(byNode);
    for i := 0 to |nodeIds|
      invariant |nodes| == i
      invariant forall j :: 0 <= j < i ==> nodes[j] == Label(nodeIds[j], byNode[nodeIds[j]].zone)
      invariant Listed(byNode, nodeIds[..i], points)
    {
      var n := nodeIds[i];
      nodes := nodes + [Label(n, byNode[n].zone)];
      var more := ListPoints(n, byNode[n].buckets);
      NodeListed(byNode, nodeIds[..i], n, points, more);
      assert nodeIds[..i + 1] == nodeIds[..i] + [n];
      points := points + more;
    }
    assert nodeIds[..|nodeIds|] == nodeIds;
  }

  method BucketHistory(rows: seq<Sample>, bucketSec: int) returns (nodes: seq<Label>, points: seq<Point>)
    requires bucketSec > 0
    ensures HistoryOf(rows, bucketSec * 1000, points)
    ensures NodesOf(rows, nodes)
    ensures
      forall i, j :: 0 <= i < j < |points| ==>
        points[i].t < points[j].t || (points[i].t == points[j].t && LexLess(points[i].node, points[j].node))
    ensures forall i, j :: 0 <= i < j < |nodes| ==> LexLess(nodes[i].node, nodes[j].node)
  {
    hide HistoryOf, NodesOf, Listed, Bucketed, Tallied, Sort, Ordered, Distinct, LexLess;
    var width := bucketSec * 1000;
    var byNode := FillBuckets(rows, width);
    AllTallied(byNode, rows, width);
    var keys := KeysOf(byNode.Keys);
    var nodeIds := Sort(keys, Alphabetical());
    SortedIds(keys);
    nodes, points := ListNodes(byNode, nodeIds);
    LabelsComplete(byNode, rows, width, nodeIds, nodes);
    ListComplete(byNode, rows, width, nodeIds, points);
    points := Sort(points, Earlier());
    InOrder(rows, width, nodes, points);
  }

  lemma InOrder(rows: seq<Sample>, width: int, nodes: seq<Label>, points: seq<Point>)
    requires width > 0 && HistoryOf(rows, width, points) && NodesOf(rows, nodes)
    ensures
      forall i, j :: 0 <= i < j < |points| ==>
        points[i].t < points[j].t || (points[i].t == points[j].t && LexLess(points[i].node, points[j].node))
    ensures forall i, j :: 0 <= i < j < |nodes| ==> LexLess(nodes[i].node, nodes[j].node)
  {
    hide LexLess, Filter;
    forall i, j | 0 <= i < j < |points|
      ensures points[i].t < points[j].t || (points[i].t == points[j].t && LexLess(points[i].node, points[j].node))
    {
      assert Earlier()(points[i], points[j]);
    }
    forall i, j | 0 <= i < j < |nodes| ensures LexLess(nodes[i].node, nodes[j].node) {
      assert ById()(nodes[i], nodes[j]);
    }
  }

  function Alphabetical(): (string, string) -> bool {
    (a: string, b: string) => LexLess(a, b)
  }

  lemma AlphabeticalIsTransitive()
    ensures Transitive(Alphabetical())
  {
    forall a, b, c | LexLess(a, b) && LexLess(b, c) ensures LexLess(a, c) { LexTransitive(a, b, c); }
  }

  lemma EarlierIsTransitive()
    ensures Transitive(Earlier())
  {
    hide LexLess;
    forall p: Point, q: Point, r: Point | Earlier()(p, q) && Earlier()(q, r) ensures Earlier()(p, r) {
      if p.t == q.t == r.t { LexTransitive(p.node, q.node, r.node); }
    }
  }

  lemma SortedIds(keys: seq<string>)
    requires Distinct(keys)
    ensures Ordered(Sort(keys, Alphabetical()), Alphabetical())
    ensures forall n :: n in Sort(keys, Alphabetical()) <==> n in keys
    ensures Distinct(Sort(keys, Alphabetical()))
  {
    AlphabeticalIsTransitive();
    forall i, j | 0 <= i < j < |keys| ensures Alphabetical()(keys[i], keys[j]) || Alphabetical()(keys[j], keys[i]) {
      LexTotal(keys[i], keys[j]);
    }
    SortFacts(keys, Alphabetical());
    var ids := Sort(keys, Alphabetical());
    forall i, j | 0 <= i < j < |ids| ensures ids[i] != ids[j] {
      assert Alphabetical()(ids[i], ids[j]);
      LexTotal(ids[i], ids[j]);
    }
  }

  lemma SortedPoints(points: seq<Point>)
    requires OnePointEach(points)
    ensures Ordered(Sort(points, Earlier()), Earlier())
    ensures forall p :: p in Sort(points, Earlier()) <==> p in points
  {
    hide LexLess;
    EarlierIsTransitive();
    forall i, j | 0 <= i < j < |points| ensures Earlier()(points[i], points[j]) || Earlier()(points[j], points[i]) {
      LexTotal(points[i].node, points[j].node);
    }
    SortFacts(points, Earlier());
  }

  lemma AllTallied(byNode: map<string, NodeHistory>, rows: seq<Sample>, width: int)
    requires width > 0 && Bucketed(byNode, rows, width)
    ensures forall n, t :: n in byNode && t in byNode[n].buckets ==> Tallied(byNode[n].buckets[t])
  {
    hide Filter, Within, UpWithin, Readings, Labelled;
  }

  lemma NothingListed(byNode: map<string, NodeHistory>)
    requires forall n, t :: n in byNode && t in byNode[n].buckets ==> Tallied(byNode[n].buckets[t])
    ensures Listed(byNode, [], [])
  {
  }

  lemma NodeListed(byNode: map<string, NodeHistory>, done: seq<string>, n: string, points: seq<Point>, more: seq<Point>)
    requires forall n, t :: n in byNode && t in byNode[n].buckets ==> Tallied(byNode[n].buckets[t])
    requires Listed(byNode, done, points) && n in byNode && n !in done
    requires OnePointEach(more)
    requires
      forall p :: p in more ==>
        p.node == n && p.t in byNode[n].buckets && p == PointOf(n, p.t, byNode[n].buckets[p.t])
    requires forall t :: t in byNode[n].buckets ==> PointOf(n, t, byNode[n].buckets[t]) in more
    ensures Listed(byNode, done + [n], points + more)
  {
    hide PointOf, FIELDS;
    var all := points + more;
    forall i, j | 0 <= i < j < |all| ensures all[i].t != all[j].t || all[i].node != all[j].node {
      if i < |points| { assert all[i] in points; }
      if j >= |points| { assert all[j] in more; }
    }
  }

  lemma LabelsComplete(byNode: map<string, NodeHistory>, rows: seq<Sample>, width: int, nodeIds: seq<string>,
                       nodes: seq<Label>)
    requires width > 0 && Bucketed(byNode, rows, width)
    requires Ordered(nodeIds, Alphabetical()) && (forall n :: n in nodeIds <==> n in byNode)
    requires |nodes| == |nodeIds|
    requires
      forall j :: 0 <= j < |nodes| ==>
        nodeIds[j] in byNode && nodes[j] == Label(nodeIds[j], byNode[nodeIds[j]].zone)
    ensures NodesOf(rows, nodes)
  {
    hide Filter, Within, AggOf;
    assert forall i, j :: 0 <= i < j < |nodeIds| ==> Alphabetical()(nodeIds[i], nodeIds[j]);
    forall l | l in nodes ensures exists ms :: LabelledBy(l.zone, ms, rows, l.node) {
      assert LabelledBy(l.zone, byNode[l.node].labelMs, rows, l.node);
    }
    forall n | Count(rows, OfNode(n)) > 0 ensures exists z :: Label(n, z) in nodes {
      var j :| 0 <= j < |nodeIds| && nodeIds[j] == n;
      assert nodes[j] == Label(n, byNode[n].zone);
    }
  }

  lemma {:induction false} ListComplete(byNode: map<string, NodeHistory>, rows: seq<Sample>, width: int,
                                        nodeIds: seq<string>, points: seq<Point>)
    requires width > 0 && Bucketed(byNode, rows, width)
    requires forall n, t :: n in byNode && t in byNode[n].buckets ==> Tallied(byNode[n].buckets[t])
    requires forall n :: n in nodeIds <==> n in byNode
    requires Listed(byNode, nodeIds, points)
    ensures HistoryOf(rows, width, Sort(points, Earlier()))
  {
    hide Filter, Within, AggOf, Labelled, Sort, Earlier, PointOf;
    SortedPoints(points);
  }
}
