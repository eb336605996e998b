/** What a history of points says about the samples it was made from. Every statement is about
    any sequence of points that is a history of the samples, so about the one the loop returns. */
module HistoryTheorems {
  import opened Options
  import opened Sums
  import opened Sorting
  import opened History

  // ---- exactly one point per sample -----------------------------------------------------

  /** The point's interval of time holds the sample, which is of the point's node. */
  predicate Covers(p: Point, x: Sample, width: int) {
    x.created.Some? && x.node == p.node != "" && p.t <= x.created.value < p.t + width
  }

  lemma Times(a: int, b: int, width: int)
    requires width > 0 && a <= b
    ensures a * width <= b * width
  {
    assert (b - a) * width >= 0;
  }

  lemma Floor(ms: int, width: int)
    requires width > 0
    ensures ms / width * width <= ms < (ms / width + 1) * width
  {
    assert ms == ms / width * width + ms % width;
  }

  lemma {:induction false} BucketOf(ms: int, width: int, k: int)
    requires width > 0
    ensures k * width <= ms < (k + 1) * width <==> k == ms / width
  {
    var q := ms / width;
    Floor(ms, width);
    if k < q { Times(k + 1, q, width); }
    if k > q { Times(q + 1, k, width); }
  }

  /** A point of a history starts at a multiple of the width. */
  lemma StartsOnTheGrid(rows: seq<Sample>, width: int, points: seq<Point>, p: Point)
    requires width > 0 && HistoryOf(rows, width, points) && p in points
    ensures exists k :: p.t == k * width
  {
    var keep := Within(p.node, p.t, width);
    FilterMembers(rows, keep);
    var x := Filter(rows, keep)[0];
    assert x in Filter(rows, keep);
    assert p.t == (x.created.value / width) * width;
  }

  lemma CoversIsWithin(rows: seq<Sample>, width: int, points: seq<Point>, p: Point, x: Sample)
    requires width > 0 && HistoryOf(rows, width, points) && p in points
    ensures Covers(p, x, width) <==> Within(p.node, p.t, width)(x)
  {
    hide HistoryOf;
    StartsOnTheGrid(rows, width, points, p);
    var k :| p.t == k * width;
    if Usable(x) {
      var q := x.created.value / width;
      assert (k + 1) * width == k * width + width;
      BucketOf(x.created.value, width, k);
      if k < q { Times(k + 1, q, width); }
      if k > q { Times(q + 1, k, width); }
    }
  }

  /** Every usable sample is covered by exactly one position of the history, and every position
      covers some sample. */
  lemma {:induction false} OnePointPerSample(rows: seq<Sample>, width: int, points: seq<Point>, x: Sample)
    requires width > 0 && HistoryOf(rows, width, points) && x in rows && x.created.Some? && x.node != ""
    ensures exists i :: 0 <= i < |points| && Covers(points[i], x, width)
    ensures
      forall i, j :: 0 <= i < |points| && 0 <= j < |points| ==>
        Covers(points[i], x, width) && Covers(points[j], x, width) ==> i == j
  {
    var n, t := x.node, BucketStart(x.created.value, width);
    FilterMembers(rows, Within(n, t, width));
    assert x in Filter(rows, Within(n, t, width));
    var own := PointOf(n, t, AggOf(rows, n, t, width));
    assert own in points;
    var i :| 0 <= i < |points| && points[i] == own;
    CoversIsWithin(rows, width, points, points[i], x);
    forall k | 0 <= k < |points| && Covers(points[k], x, width) ensures k == i {
      CoversIsWithin(rows, width, points, points[k], x);
      NoTwoAlike(points, i, k);
    }
  }

  lemma NoTwoAlike(points: seq<Point>, i: nat, j: nat)
    requires Ordered(points, Earlier()) && i < |points| && j < |points|
    requires points[i].t == points[j].t && points[i].node == points[j].node
    ensures i == j
  {
    if i < j {
      assert Earlier()(points[i], points[j]);
      LexTotal(points[i].node, points[j].node);
    }
    if j < i {
      assert Earlier()(points[j], points[i]);
      LexTotal(points[j].node, points[i].node);
    }
  }

  // ---- the samples are conserved --------------------------------------------------------

  function SamplesOf(): Point -> real {
    (p: Point) => p.samples as real
  }

  function One(): Sample -> real {
    (x: Sample) => 1.0
  }

  function Member(width: int): (Point, Sample) -> bool
    requires width > 0
  {
    (p: Point, x: Sample) => Within(p.node, p.t, width)(x)
  }

  lemma {:induction false} PointCountsItsSamples(rows: seq<Sample>, width: int, points: seq<Point>, p: Point)
    requires width > 0 && HistoryOf(rows, width, points) && p in points
    ensures p.samples as real == PerKey(Filter(rows, IsUsable()), Member(width), One())(p)
  {
    var keep, member := Within(p.node, p.t, width), Share(Member(width), One(), p);
    CountIsSum(rows, keep);
    SumFiltered(rows, IsUsable(), member, Indicator(keep));
  }

  /** The points together count every usable sample, and nothing else. */
  lemma SamplesConserved(rows: seq<Sample>, width: int, points: seq<Point>)
    requires width > 0 && HistoryOf(rows, width, points)
    ensures Sum(points, SamplesOf()) == Count(rows, IsUsable()) as real
  {
    hide Sum, Filter;
    var usable := Filter(rows, IsUsable());
    FilterMembers(rows, IsUsable());
    forall i, j | 0 <= i < j < |points| ensures points[i] != points[j] {
      if points[i] == points[j] { NoTwoAlike(points, i, j); }
    }
    forall x | x in usable ensures Owned(points, x, Member(width)) {
      OnePointPerSample(rows, width, points, x);
      var i :| 0 <= i < |points| && Covers(points[i], x, width);
      CoversIsWithin(rows, width, points, points[i], x);
      assert points[i] in points && Member(width)(points[i], x);
    }
    forall x, p, q | x in usable && p in points && q in points && Member(width)(p, x) && Member(width)(q, x)
      ensures p == q
    {
      var i :| 0 <= i < |points| && points[i] == p;
      var j :| 0 <= j < |points| && points[j] == q;
      NoTwoAlike(points, i, j);
    }
    DoubleCount(points, usable, Member(width), One());
    forall p | p in points ensures SamplesOf()(p) == PerKey(usable, Member(width), One())(p) {
      PointCountsItsSamples(rows, width, points, p);
    }
    SumCongruent(points, SamplesOf(), PerKey(usable, Member(width), One()));
    CountEach(usable);
  }

  lemma {:induction false} CountEach(rows: seq<Sample>)
    ensures Sum(rows, One()) == |rows| as real
  {
    if rows != [] { CountEach(rows[..|rows| - 1]); }
  }

  // ---- the figures of one point ---------------------------------------------------------

  function Gated(keep: Sample -> bool, f: Field): Sample -> bool {
    (x: Sample) => keep(x) && Reading(x, f).Some?
  }

  function ValueOf(f: Field): Sample -> real {
    (x: Sample) => if Reading(x, f).Some? then Reading(x, f).value else 0.0
  }

  lemma {:induction false} ReadingsFacts(rows: seq<Sample>, keep: Sample -> bool, f: Field)
    ensures |Readings(rows, keep, f)| == Count(rows, Gated(keep, f))
    ensures Sum(Readings(rows, keep, f), Identity()) == Sum(Filter(rows, Gated(keep, f)), ValueOf(f))
    ensures
      forall v :: v in Readings(rows, keep, f) ==>
        exists x :: x in rows && Gated(keep, f)(x) && ValueOf(f)(x) == v
  {
    hide Reading;
    if rows != [] {
      var rest, x := rows[..|rows| - 1], rows[|rows| - 1];
      ReadingsFacts(rest, keep, f);
      if Gated(keep, f)(x) {
        SumSnoc(Readings(rest, keep, f), Reading(x, f).value, Identity());
        SumSnoc(Filter(rest, Gated(keep, f)), x, ValueOf(f));
      }
    }
  }

  lemma {:induction false} AllAbove(values: seq<real>, m: real)
    requires values != [] && forall i :: 0 <= i < |values| ==> values[i] > m
    ensures Sum(values, Identity()) > m * |values| as real
  {
    var n := |values| as real;
    assert m * n == m * (n - 1.0) + m;
    if |values| > 1 { AllAbove(values[..|values| - 1], m); } else { assert Sum(values[..0], Identity()) == 0.0; }
  }

  lemma {:induction false} AllBelow(values: seq<real>, m: real)
    requires values != [] && forall i :: 0 <= i < |values| ==> values[i] < m
    ensures Sum(values, Identity()) < m * |values| as real
  {
    var n := |values| as real;
    assert m * n == m * (n - 1.0) + m;
    if |values| > 1 { AllBelow(values[..|values| - 1], m); } else { assert Sum(values[..0], Identity()) == 0.0; }
  }

  lemma Quotient(m: real, sum: real, n: real)
    requires n > 0.0 && m == sum / n
    ensures m * n == sum
  { }

  lemma DivideBoth(a: real, b: real, n: real)
    requires n > 0.0 && a * n <= b * n
    ensures a <= b
  {
    assert a > b ==> (a - b) * n > 0.0;
  }

  /** A mean is missing exactly when no sample of the point passed the field's gate. Otherwise it
      is the gated total over the number of gated samples, and lies between two gated readings. */
  lemma MeanOfGatedReadings(rows: seq<Sample>, width: int, points: seq<Point>, p: Point, f: Field)
    requires width > 0 && HistoryOf(rows, width, points) && p in points
    ensures f in p.means
    ensures p.means[f].None? <==> forall x :: x in rows && Covers(p, x, width) ==> Reading(x, f).None?
    ensures p.means[f].Some? ==>
        var gated := Gated(Within(p.node, p.t, width), f);
        && p.means[f].value * Count(rows, gated) as real == Sum(Filter(rows, gated), ValueOf(f))
        && (exists x ::
              x in rows && Covers(p, x, width) && Reading(x, f).Some?
              && Reading(x, f).value <= p.means[f].value)
        && (exists x ::
              x in rows && Covers(p, x, width) && Reading(x, f).Some?
              && p.means[f].value <= Reading(x, f).value)
  {
    hide Sum, Filter, Reading, Readings, Covers, Within, Mean, ValueOf, Gated, HistoryOf;
    var keep := Within(p.node, p.t, width);
    var gated := Gated(keep, f);
    PointsMean(rows, width, points, p, f);
    ReadingsFacts(rows, keep, f);
    MeanFacts(Readings(rows, keep, f));
    GatedMembers(rows, keep, f);
    forall x | x in rows ensures Covers(p, x, width) <==> keep(x) { CoversIsWithin(rows, width, points, p, x); }
    if p.means[f].Some? {
      var m := p.means[f].value;
      var v :| v in Readings(rows, keep, f) && v <= m;
      var w :| w in Readings(rows, keep, f) && m <= w;
      var x :| x in rows && gated(x) && ValueOf(f)(x) == v;
      var y :| y in rows && gated(y) && ValueOf(f)(y) == w;
      GatedValue(x, keep, f);
      GatedValue(y, keep, f);
    }
  }

  // ---- the labels -----------------------------------------------------------------------

  /** Each label names a node that has a sample with a time, and carries the zone of the newest such
      sample; every such node is labelled. */
  lemma LabelsAreNewest(rows: seq<Sample>, nodes: seq<Label>, n: string)
    requires NodesOf(rows, nodes) && n != ""
    ensures
      forall l :: l in nodes && l.node == n ==>
        exists i :: 0 <= i < |rows| && rows[i].created.Some? && rows[i].node == n && rows[i].zone == l.zone
                    && forall j :: 0 <= j < |rows| && rows[j].created.Some? && rows[j].node == n ==>
                         rows[j].created.value <= rows[i].created.value &&
                         (j < i ==> rows[j].created != rows[i].created)
    ensures (exists i :: 0 <= i < |rows| && rows[i].created.Some? && rows[i].node == n) <==>
            exists l :: l in nodes && l.node == n
  {
    hide Filter;
    FilterMembers(rows, OfNode(n));
    forall l | l in nodes && l.node == n
      ensures
        exists i :: 0 <= i < |rows| && rows[i].created.Some? && rows[i].node == n && rows[i].zone == l.zone
                    && forall j :: 0 <= j < |rows| && rows[j].created.Some? && rows[j].node == n ==>
                         rows[j].created.value <= rows[i].created.value &&
                         (j < i ==> rows[j].created != rows[i].created)
    {
      var ms :| LabelledBy(l.zone, ms, rows, l.node);
      NewestOf(l.zone, ms, rows, n);
    }
    if i :| 0 <= i < |rows| && rows[i].created.Some? && rows[i].node == n {
      assert OfNode(n)(rows[i]) && rows[i] in Filter(rows, OfNode(n));
      var z :| Label(n, z) in nodes;
    }
  }

  lemma NewestOf(zone: string, ms: int, rows: seq<Sample>, n: string)
    requires LabelledBy(zone, ms, rows, n)
    ensures
      exists i :: 0 <= i < |rows| && rows[i].created.Some? && rows[i].node == n && rows[i].zone == zone
                  && forall j :: 0 <= j < |rows| && rows[j].created.Some? && rows[j].node == n ==>
                       rows[j].created.value <= rows[i].created.value &&
                       (j < i ==> rows[j].created != rows[i].created)
  {
    var h := NodeHistory(zone, ms, map[]);
    var i :| && 0 <= i < |rows| && OfNode(n)(rows[i]) && h.labelMs == rows[i].created.value && h.zone == rows[i].zone
             && (forall j :: 0 <= j < |rows| && OfNode(n)(rows[j]) ==> rows[j].created.value <= h.labelMs)
             && (forall j :: 0 <= j < i && OfNode(n)(rows[j]) ==> rows[j].created.value < h.labelMs);
    forall j | 0 <= j < |rows| && rows[j].created.Some? && rows[j].node == n ensures OfNode(n)(rows[j]) { }
    assert rows[i].created.Some?;
  }

  // ---- the columns ----------------------------------------------------------------------

  function CoveredBy(p: Point, width: int, gate: Sample -> bool): Sample -> bool {
    (x: Sample) => Covers(p, x, width) && gate(x)
  }

  /** `mean` is that of the column over the samples the point covers and the gate lets through:
      missing when there is none, otherwise their total over their number. */
  ghost predicate Averages(mean: Option<real>, rows: seq<Sample>, p: Point, width: int, gate: Sample -> bool,
                           column: Sample -> real)
  {
    var through := Filter(rows, CoveredBy(p, width, gate));
    if through == [] then mean.None? else mean.Some? && mean.value * |through| as real == Sum(through, column)
  }

  lemma MeanOfColumn(rows: seq<Sample>, width: int, points: seq<Point>, p: Point, f: Field, gate: Sample -> bool,
                     column: Sample -> real)
    requires width > 0 && HistoryOf(rows, width, points) && p in points
    requires forall x :: gate(x) <==> Reading(x, f).Some?
    requires forall x :: gate(x) ==> Reading(x, f) == Some(column(x))
    ensures f in p.means && Averages(p.means[f], rows, p, width, gate, column)
  {
    hide Sum, Filter, Reading, Readings, Covers, Within, HistoryOf;
    var gated, through := Gated(Within(p.node, p.t, width), f), CoveredBy(p, width, gate);
    MeanOfGatedReadings(rows, width, points, p, f);
    forall x | x in rows ensures gated(x) == through(x) { CoversIsWithin(rows, width, points, p, x); }
    FilterCongruent(rows, gated, through);
    FilterMembers(rows, through);
    SumCongruent(Filter(rows, through), ValueOf(f), column);
    if Filter(rows, through) != [] {
      var x := Filter(rows, through)[0];
      assert x in Filter(rows, through);
    } else {
      forall x | x in rows && Covers(p, x, width) ensures Reading(x, f).None? {
        assert through(x) ==> x in Filter(rows, through);
      }
    }
  }

  /** Which column each mean of a point is taken of, and which gate its samples pass: the statistics
      gate for the three counters of the node, the layout gate for its two layout figures, and a
      total that was read for each partition. */
  lemma MeansAreOfTheirColumns(rows: seq<Sample>, width: int, points: seq<Point>, p: Point)
    requires width > 0 && HistoryOf(rows, width, points) && p in points
    ensures p.means.Keys == {ResyncQueue, ResyncErrored, RcEntries, StoredPartitions, PartitionSize,
                             DataTotal, DataAvailable, MetaTotal, MetaAvailable}
    ensures Averages(p.means[ResyncQueue], rows, p, width, (x: Sample) => x.statsOk, (x: Sample) => x.resyncQueue)
    ensures Averages(p.means[ResyncErrored], rows, p, width, (x: Sample) => x.statsOk, (x: Sample) => x.resyncErrored)
    ensures Averages(p.means[RcEntries], rows, p, width, (x: Sample) => x.statsOk, (x: Sample) => x.rcEntries)
    ensures Averages(p.means[StoredPartitions], rows, p, width, (x: Sample) => x.layoutOk,
                     (x: Sample) => x.storedPartitions)
    ensures Averages(p.means[PartitionSize], rows, p, width, (x: Sample) => x.layoutOk, (x: Sample) => x.partitionSize)
    ensures Averages(p.means[DataTotal], rows, p, width, (x: Sample) => x.dataTotal > 0.0, (x: Sample) => x.dataTotal)
    ensures Averages(p.means[DataAvailable], rows, p, width, (x: Sample) => x.dataTotal > 0.0,
                     (x: Sample) => x.dataAvailable)
    ensures Averages(p.means[MetaTotal], rows, p, width, (x: Sample) => x.metaTotal > 0.0, (x: Sample) => x.metaTotal)
    ensures Averages(p.means[MetaAvailable], rows, p, width, (x: Sample) => x.metaTotal > 0.0,
                     (x: Sample) => x.metaAvailable)
  {
    hide HistoryOf, Averages;
    assert p.means.Keys == FIELDS by { FieldsOf(rows, width, points, p); }
    MeanOfColumn(rows, width, points, p, ResyncQueue, (x: Sample) => x.statsOk, (x: Sample) => x.resyncQueue);
    MeanOfColumn(rows, width, points, p, ResyncErrored, (x: Sample) => x.statsOk, (x: Sample) => x.resyncErrored);
    MeanOfColumn(rows, width, points, p, RcEntries, (x: Sample) => x.statsOk, (x: Sample) => x.rcEntries);
    MeanOfColumn(rows, width, points, p, StoredPartitions, (x: Sample) => x.layoutOk,
                 (x: Sample) => x.storedPartitions);
    MeanOfColumn(rows, width, points, p, PartitionSize, (x: Sample) => x.layoutOk, (x: Sample) => x.partitionSize);
    MeanOfColumn(rows, width, points, p, DataTotal, (x: Sample) => x.dataTotal > 0.0, (x: Sample) => x.dataTotal);
    MeanOfColumn(rows, width, points, p, DataAvailable, (x: Sample) => x.dataTotal > 0.0,
                 (x: Sample) => x.dataAvailable);
    MeanOfColumn(rows, width, points, p, MetaTotal, (x: Sample) => x.metaTotal > 0.0, (x: Sample) => x.metaTotal);
    MeanOfColumn(rows, width, points, p, MetaAvailable, (x: Sample) => x.metaTotal > 0.0,
                 (x: Sample) => x.metaAvailable);
  }

  lemma FieldsOf(rows: seq<Sample>, width: int, points: seq<Point>, p: Point)
    requires width > 0 && HistoryOf(rows, width, points) && p in points
    ensures p.means.Keys == FIELDS
  { }

  /** A point counts the samples it covers and gives the share of them that were up; it starts at a
      multiple of the width. */
  lemma CountsAreOfTheirSamples(rows: seq<Sample>, width: int, points: seq<Point>, p: Point)
    requires width > 0 && HistoryOf(rows, width, points) && p in points
    ensures p.samples == Count(rows, (x: Sample) => Covers(p, x, width)) > 0
    ensures p.uptimePct * p.samples as real == 100.0 * Count(rows, (x: Sample) => Covers(p, x, width) && x.isUp) as real
    ensures p.t % width == 0
  {
    hide Filter, Covers, Within, UpWithin;
    var keep, up := Within(p.node, p.t, width), UpWithin(p.node, p.t, width);
    forall x | x in rows ensures Covers(p, x, width) == keep(x) && up(x) == (keep(x) && x.isUp) {
      CoversIsWithin(rows, width, points, p, x);
      UpIsWithin(x, p.node, p.t, width);
    }
    FilterCongruent(rows, keep, (x: Sample) => Covers(p, x, width));
    FilterCongruent(rows, up, (x: Sample) => Covers(p, x, width) && x.isUp);
    Quotient(p.uptimePct, 100.0 * Count(rows, up) as real, p.samples as real);
    StartsOnTheGrid(rows, width, points, p);
    var k :| p.t == k * width;
    Multiple(k, width);
  }

  lemma Multiple(k: int, width: int)
    requires width > 0
    ensures k * width % width == 0
  {
    BucketOf(k * width, width, k);
  }

  lemma PointsMean(rows: seq<Sample>, width: int, points: seq<Point>, p: Point, f: Field)
    requires width > 0 && HistoryOf(rows, width, points) && p in points
    ensures f in p.means && p.means[f] == Mean(Readings(rows, Within(p.node, p.t, width), f))
  {
    assert f in FIELDS;
  }

  lemma MeanFacts(values: seq<real>)
    ensures Mean(values).None? <==> values == []
    ensures Mean(values).Some? ==>
        && Mean(values).value * |values| as real == Sum(values, Identity())
        && (exists v :: v in values && v <= Mean(values).value)
        && (exists v :: v in values && Mean(values).value <= v)
  {
    hide Sum;
    if values != [] {
      var m := Mean(values).value;
      Quotient(m, Sum(values, Identity()), |values| as real);
      if i :| 0 <= i < |values| && values[i] <= m {
        assert values[i] in values;
      } else {
        AllAbove(values, m);
      }
      if i :| 0 <= i < |values| && m <= values[i] {
        assert values[i] in values;
      } else {
        AllBelow(values, m);
      }
    }
  }

  lemma GatedValue(x: Sample, keep: Sample -> bool, f: Field)
    requires Gated(keep, f)(x)
    ensures keep(x) && Reading(x, f).Some? && ValueOf(f)(x) == Reading(x, f).value
  {
    hide Reading;
  }

  lemma GatedMembers(rows: seq<Sample>, keep: Sample -> bool, f: Field)
    ensures Count(rows, Gated(keep, f)) == 0 <==> forall x :: x in rows && keep(x) ==> Reading(x, f).None?
  {
    hide Reading, Filter;
    var gated := Gated(keep, f);
    FilterMembers(rows, gated);
    if Count(rows, gated) > 0 { assert Filter(rows, gated)[0] in Filter(rows, gated); }
    forall x | x in rows && gated(x) ensures Count(rows, gated) > 0 { assert x in Filter(rows, gated); }
    assert forall x :: x in rows && keep(x) && Reading(x, f).Some? ==> gated(x);
  }

  /** Uptime is the share of the covered samples that were up, in percent. */
  lemma UptimeIsAShare(rows: seq<Sample>, width: int, points: seq<Point>, p: Point)
    requires width > 0 && HistoryOf(rows, width, points) && p in points
    ensures 0.0 <= p.uptimePct <= 100.0
    ensures p.uptimePct == 100.0 <==> forall x :: x in rows && Covers(p, x, width) ==> x.isUp
    ensures p.uptimePct == 0.0 <==> forall x :: x in rows && Covers(p, x, width) ==> !x.isUp
  {
    hide Filter, Covers;
    var keep, up := Within(p.node, p.t, width), UpWithin(p.node, p.t, width);
    var n, k := Count(rows, keep), Count(rows, up);
    Quotient(p.uptimePct, 100.0 * k as real, n as real);
    CountNested(rows, up, keep);
    FilterMembers(rows, up);
    forall x | x in rows ensures Covers(p, x, width) <==> keep(x) { CoversIsWithin(rows, width, points, p, x); }
    DivideBoth(0.0, p.uptimePct, n as real);
    DivideBoth(p.uptimePct, 100.0, n as real);
    if k == 0 {
      forall x | x in rows && Covers(p, x, width) ensures !x.isUp { assert x.isUp ==> x in Filter(rows, up); }
    } else {
      assert Filter(rows, up)[0] in Filter(rows, up);
    }
  }

  /** A smaller class of the samples has no more of them, and as many only when the two agree. */
  lemma {:induction false} CountNested(rows: seq<Sample>, small: Sample -> bool, large: Sample -> bool)
    requires forall x :: x in rows && small(x) ==> large(x)
    ensures Count(rows, small) <= Count(rows, large)
    ensures Count(rows, small) == Count(rows, large) <==> forall x :: x in rows && large(x) ==> small(x)
  {
    if rows != [] {
      var rest, last := rows[..|rows| - 1], rows[|rows| - 1];
      CountNested(rest, small, large);
      assert rows == rest + [last];
      assert forall x :: x in rest ==> x in rows;
    }
  }

  // ---- coarser histories refine finer ones ----------------------------------------------

  /** The finer point lies wholly inside the coarser one. */
  function Inside(p: Point, coarse: int, width: int): Point -> bool {
    (q: Point) => q.node == p.node && p.t <= q.t && q.t + width <= p.t + coarse
  }

  lemma {:induction false} NestedBuckets(ms: int, width: int, k: int, start: int)
    requires width > 0 && k > 0 && k * width > 0
    requires start == BucketStart(ms, k * width)
    ensures start <= BucketStart(ms, width) && BucketStart(ms, width) + width <= start + k * width
  {
    var q, z := ms / width, ms / (k * width);
    Floor(ms, width);
    Floor(ms, k * width);
    Regrouped(z, k, width);
    Regrouped(z + 1, k, width);
    if q < z * k { Times(q + 1, z * k, width); }
    if (z + 1) * k < q + 1 { Times((z + 1) * k, q, width); }
    Times(q + 1, (z + 1) * k, width);
    Times(z * k, q, width);
    assert (q + 1) * width == q * width + width;
    assert (z + 1) * (k * width) == z * (k * width) + k * width;
  }

  lemma Regrouped(z: int, k: int, width: int)
    ensures z * (k * width) == (z * k) * width
  { }

  lemma {:induction false} FilterSubsequence<T(!new)>(s: seq<T>, keep: T -> bool)
    requires Distinct(s)
    ensures Distinct(Filter(s, keep))
  {
    if s != [] {
      var rest := s[..|s| - 1];
      FilterSubsequence(rest, keep);
      FilterMembers(rest, keep);
      assert s[|s| - 1] !in rest;
    }
  }

  lemma PointsAreDistinct(points: seq<Point>)
    requires Ordered(points, Earlier())
    ensures Distinct(points)
  {
    forall i, j | 0 <= i < j < |points| ensures points[i] != points[j] {
      if points[i] == points[j] { NoTwoAlike(points, i, j); }
    }
  }

  /** A sample of the coarse point belongs to exactly one fine point, and that one lies inside;
      a sample of a fine point inside belongs to the coarse point. */
  lemma SampleNests(rows: seq<Sample>, width: int, k: int, fine: seq<Point>, p: Point, x: Sample)
    requires width > 0 && k > 0 && k * width > 0 && HistoryOf(rows, width, fine)
    requires x in rows && Within(p.node, p.t, k * width)(x)
    ensures Owned(Filter(fine, Inside(p, k * width, width)), x, Member(width))
  {
    hide HistoryOf, BucketStart, Filter;
    NestedBuckets(x.created.value, width, k, p.t);
    OnePointPerSample(rows, width, fine, x);
    var i :| 0 <= i < |fine| && Covers(fine[i], x, width);
    CoversIsWithin(rows, width, fine, fine[i], x);
    FilterMembers(fine, Inside(p, k * width, width));
    assert fine[i] in fine && Inside(p, k * width, width)(fine[i]);
    assert fine[i] in Filter(fine, Inside(p, k * width, width)) && Member(width)(fine[i], x);
  }

  lemma {:induction false} FineBelongsToCoarse(rows: seq<Sample>, width: int, k: int, fine: seq<Point>,
                                               coarse: seq<Point>, p: Point, q: Point, x: Sample)
    requires width > 0 && k > 0 && k * width > 0 && HistoryOf(rows, width, fine) && HistoryOf(rows, k * width, coarse)
    requires p in coarse && q in fine && Inside(p, k * width, width)(q) && Within(q.node, q.t, width)(x)
    ensures Within(p.node, p.t, k * width)(x)
  {
    hide HistoryOf;
    CoversIsWithin(rows, width, fine, q, x);
    CoversIsWithin(rows, k * width, coarse, p, x);
  }

  /** Whatever is added up over the samples of a coarse point is the sum over the fine points
      inside it of what is added up over theirs. */
  lemma {:induction false} Regroup(rows: seq<Sample>, width: int, k: int, fine: seq<Point>, coarse: seq<Point>,
                                   p: Point, weight: Sample -> real)
    requires width > 0 && k > 0 && k * width > 0 && HistoryOf(rows, width, fine) && HistoryOf(rows, k * width, coarse)
    requires p in coarse
    ensures Sum(Filter(fine, Inside(p, k * width, width)), PerKey(rows, Member(width), weight))
        == Sum(rows, Share(Member(k * width), weight, p))
  {
    hide Sum, Filter, Within, Inside, HistoryOf;
    var inside, own := Filter(fine, Inside(p, k * width, width)), Filter(rows, Within(p.node, p.t, k * width));
    FilterMembers(fine, Inside(p, k * width, width));
    FilterMembers(rows, Within(p.node, p.t, k * width));
    FineIsDistinct(rows, width, fine, Inside(p, k * width, width));
    forall x | x in own ensures Owned(inside, x, Member(width)) { SampleNests(rows, width, k, fine, p, x); }
    forall x, q, r | x in own && q in inside && r in inside && Member(width)(q, x) && Member(width)(r, x)
      ensures q == r
    {
      SameOwner(rows, width, fine, q, r, x);
    }
    DoubleCount(inside, own, Member(width), weight);
    forall q | q in inside ensures PerKey(own, Member(width), weight)(q) == PerKey(rows, Member(width), weight)(q) {
      forall x | x in rows && Member(width)(q, x) ensures Within(p.node, p.t, k * width)(x) {
        FineBelongsToCoarse(rows, width, k, fine, coarse, p, q, x);
      }
      SumFiltered(rows, Within(p.node, p.t, k * width), Share(Member(width), weight, q),
          Share(Member(width), weight, q));
    }
    SumCongruent(inside, PerKey(own, Member(width), weight), PerKey(rows, Member(width), weight));
    SumFiltered(rows, Within(p.node, p.t, k * width), weight, Share(Member(k * width), weight, p));
  }

  lemma {:induction false} FineIsDistinct(rows: seq<Sample>, width: int, fine: seq<Point>, keep: Point -> bool)
    requires width > 0 && HistoryOf(rows, width, fine)
    ensures Distinct(Filter(fine, keep))
  {
    PointsAreDistinct(fine);
    FilterSubsequence(fine, keep);
  }

  lemma SameOwner(rows: seq<Sample>, width: int, fine: seq<Point>, q: Point, r: Point, x: Sample)
    requires width > 0 && HistoryOf(rows, width, fine) && q in fine && r in fine
    requires Within(q.node, q.t, width)(x) && Within(r.node, r.t, width)(x)
    ensures q == r
  {
    var i :| 0 <= i < |fine| && fine[i] == q;
    var j :| 0 <= j < |fine| && fine[j] == r;
    NoTwoAlike(fine, i, j);
  }

  function UpWeight(): Sample -> real {
    (x: Sample) => if x.isUp then 100.0 else 0.0
  }

  function WeightedUptime(): Point -> real {
    (p: Point) => p.uptimePct * p.samples as real
  }

  /** What the point's mean stands for: the mean times the number of readings that passed the
      gate, nothing when none did. */
  function GatedTotal(rows: seq<Sample>, width: int, f: Field): Point -> real
    requires width > 0
  {
    (p: Point) => if f in p.means && p.means[f].Some?
      then p.means[f].value * Count(rows, Gated(Within(p.node, p.t, width), f)) as real else 0.0
  }

  lemma PointFigures(rows: seq<Sample>, width: int, points: seq<Point>, p: Point, f: Field)
    requires width > 0 && HistoryOf(rows, width, points) && p in points
    ensures p.samples as real == PerKey(rows, Member(width), One())(p)
    ensures p.uptimePct * p.samples as real == PerKey(rows, Member(width), UpWeight())(p)
    ensures GatedTotal(rows, width, f)(p) == PerKey(rows, Member(width), ValueOf(f))(p)
  {
    CountsAdd(rows, width, points, p);
    TotalsAdd(rows, width, points, p, f);
  }

  lemma CountsAdd(rows: seq<Sample>, width: int, points: seq<Point>, p: Point)
    requires width > 0 && HistoryOf(rows, width, points) && p in points
    ensures p.samples as real == PerKey(rows, Member(width), One())(p)
    ensures p.uptimePct * p.samples as real == PerKey(rows, Member(width), UpWeight())(p)
  {
    hide Filter, Sum;
    var keep, up := Within(p.node, p.t, width), UpWithin(p.node, p.t, width);
    CountIsSum(rows, keep);
    SumCongruent(rows, Indicator(keep), Share(Member(width), One(), p));
    CountIsSum(rows, up);
    Hundredfold(rows, Indicator(up), Share(Member(width), UpWeight(), p));
    Quotient(p.uptimePct, 100.0 * Count(rows, up) as real, p.samples as real);
  }

  lemma {:induction false} Hundredfold(rows: seq<Sample>, v: Sample -> real, w: Sample -> real)
    requires forall x :: x in rows ==> w(x) == 100.0 * v(x)
    ensures Sum(rows, w) == 100.0 * Sum(rows, v)
  {
    if rows != [] { Hundredfold(rows[..|rows| - 1], v, w); }
  }

  lemma TotalsAdd(rows: seq<Sample>, width: int, points: seq<Point>, p: Point, f: Field)
    requires width > 0 && HistoryOf(rows, width, points) && p in points
    ensures GatedTotal(rows, width, f)(p) == PerKey(rows, Member(width), ValueOf(f))(p)
  {
    hide Filter, Sum, HistoryOf, Reading;
    var gated := Gated(Within(p.node, p.t, width), f);
    MeanOfGatedReadings(rows, width, points, p, f);
    SumFiltered(rows, gated, ValueOf(f), Share(Member(width), ValueOf(f), p));
    if p.means[f].None? {
      forall x | x in rows ensures Share(Member(width), ValueOf(f), p)(x) == 0.0 {
        CoversIsWithin(rows, width, points, p, x);
      }
      SumZero(rows, Share(Member(width), ValueOf(f), p));
    }
  }

  /** When the fine width divides the coarse one, every coarse point adds up the fine points
      inside it: its sample count is theirs, its uptime their sample-weighted mean, and each of
      its means the mean of theirs weighted by the readings behind them. */
  lemma CoarseRefinesFine(rows: seq<Sample>, width: int, k: int, fine: seq<Point>, coarse: seq<Point>, p: Point,
                          f: Field)
    requires width > 0 && k > 0 && k * width > 0 && HistoryOf(rows, width, fine) && HistoryOf(rows, k * width, coarse)
    requires p in coarse
    ensures p.samples as real == Sum(Filter(fine, Inside(p, k * width, width)), SamplesOf())
    ensures p.uptimePct * p.samples as real == Sum(Filter(fine, Inside(p, k * width, width)), WeightedUptime())
    ensures GatedTotal(rows, k * width, f)(p)
        == Sum(Filter(fine, Inside(p, k * width, width)), GatedTotal(rows, width, f))
  {
    hide Filter, Sum, HistoryOf, PerKey, Inside, ValueOf;
    var inside := Filter(fine, Inside(p, k * width, width));
    FilterMembers(fine, Inside(p, k * width, width));
    PointFigures(rows, k * width, coarse, p, f);
    forall q | q in inside
      ensures SamplesOf()(q) == PerKey(rows, Member(width), One())(q)
      ensures WeightedUptime()(q) == PerKey(rows, Member(width), UpWeight())(q)
      ensures GatedTotal(rows, width, f)(q) == PerKey(rows, Member(width), ValueOf(f))(q)
    {
      PointFigures(rows, width, fine, q, f);
    }
    SumCongruent(inside, SamplesOf(), PerKey(rows, Member(width), One()));
    SumCongruent(inside, WeightedUptime(), PerKey(rows, Member(width), UpWeight()));
    SumCongruent(inside, GatedTotal(rows, width, f), PerKey(rows, Member(width), ValueOf(f)));
    Regroup(rows, width, k, fine, coarse, p, One());
    Regroup(rows, width, k, fine, coarse, p, UpWeight());
    Regroup(rows, width, k, fine, coarse, p, ValueOf(f));
    PerKeyIs(rows, Member(k * width), One(), p);
    PerKeyIs(rows, Member(k * width), UpWeight(), p);
    PerKeyIs(rows, Member(k * width), ValueOf(f), p);
  }

  lemma PerKeyIs(rows: seq<Sample>, belongs: (Point, Sample) -> bool, weight: Sample -> real, p: Point)
    ensures PerKey(rows, belongs, weight)(p) == Sum(rows, Share(belongs, weight, p))
  { }

  // ---- the history is determined --------------------------------------------------------

  /** Two strictly sorted lists with the same members are the same list. */
  lemma {:induction false} SortedListsAgree<T(!new)>(s: seq<T>, t: seq<T>, before: (T, T) -> bool)
    requires Ordered(s, before) && Ordered(t, before)
    requires forall x, y :: before(x, y) ==> !before(y, x)
    requires forall x :: x in s <==> x in t
    ensures s == t
  {
    assert s != [] ==> s[0] in s;
    assert t != [] ==> t[0] in t;
    if s != [] {
      HeadIsFirst(s, before, t[0]);
      HeadIsFirst(t, before, s[0]);
      forall x ensures x in s[1..] <==> x in t[1..] { TailMembers(s, before, x); TailMembers(t, before, x); }
      SortedListsAgree(s[1..], t[1..], before);
      assert s == [s[0]] + s[1..] && t == [t[0]] + t[1..];
    }
  }

  lemma HeadIsFirst<T>(s: seq<T>, before: (T, T) -> bool, x: T)
    requires Ordered(s, before) && x in s
    ensures x == s[0] || before(s[0], x)
  {
    var i :| 0 <= i < |s| && s[i] == x;
  }

  lemma TailMembers<T(!new)>(s: seq<T>, before: (T, T) -> bool, x: T)
    requires s != [] && Ordered(s, before) && (forall y, z :: before(y, z) ==> !before(z, y))
    ensures x in s[1..] <==> x in s && x != s[0]
  {
    if x in s[1..] {
      var i :| 1 <= i < |s| && s[i] == x;
      assert before(s[0], s[i]);
    }
  }

  /** The samples and the width determine the history, whatever order the maps were walked in. */
  lemma HistoryIsUnique(rows: seq<Sample>, width: int, points: seq<Point>, others: seq<Point>)
    requires width > 0 && HistoryOf(rows, width, points) && HistoryOf(rows, width, others)
    ensures points == others
  {
    hide LexLess;
    forall p: Point, q: Point | Earlier()(p, q) ensures !Earlier()(q, p) { LexTotal(p.node, q.node); }
    SortedListsAgree(points, others, Earlier());
  }
}
