/** Folding timeline events into calendar weeks: `startOfWeek` and `groupEventsByWeek` in
    webapp/src/lib/cluster-timeline.ts. Times are milliseconds on a calendar whose days are all
    equally long; day 0 is a Thursday. */
module Weeks {
  import opened Options
  import opened Sums
  import opened Sorting

  /** `at` is absent when the date string does not parse. */
  datatype Event = Event(at: Option<int>, title: string)

  datatype WeekLabel = ThisWeek | LastWeek | WeekOf(start: int)

  datatype Bucket = Bucket(weekStart: int, title: WeekLabel, items: seq<Event>)

  const DAY: int := 86_400_000
  const WEEK: int := 604_800_000

  function DayOf(ms: int): int {
    ms / DAY
  }

  /** 0 is Sunday, 6 is Saturday. */
  function DayOfWeek(day: int): int {
    (day + 4) % 7
  }

  function StartOfWeek(ms: int): int {
    (DayOf(ms) - (DayOfWeek(DayOf(ms)) + 6) % 7) * DAY
  }

  function LabelOf(weekStart: int, currentWeek: int): WeekLabel {
    var weeksBack := (currentWeek - weekStart) / WEEK;
    if weeksBack == 0 then ThisWeek else if weeksBack == 1 then LastWeek else WeekOf(weekStart)
  }

  function InWindow(now: int, days: int): Event -> bool {
    (e: Event) => e.at.Some? && now - days * DAY <= e.at.value <= now + days * DAY
  }

  function InWeek(now: int, days: int, weekStart: int): Event -> bool {
    (e: Event) => InWindow(now, days)(e) && StartOfWeek(e.at.value) == weekStart
  }

  function Newer(): (Bucket, Bucket) -> bool {
    (b: Bucket, c: Bucket) => b.weekStart > c.weekStart
  }

  function BucketFor(events: seq<Event>, now: int, days: int, weekStart: int): Bucket {
    Bucket(weekStart, LabelOf(weekStart, StartOfWeek(now)), Filter(events, InWeek(now, days, weekStart)))
  }

  /** One bucket for every week with an event in the window and no other, strictly newest first,
      each holding the events of its week in the order of the input. */
  ghost predicate Grouped(events: seq<Event>, now: int, days: int, buckets: seq<Bucket>) {
    && Ordered(buckets, Newer())
    && (forall b :: b in buckets ==> b.items != [] && b == BucketFor(events, now, days, b.weekStart))
    && (forall w :: Filter(events, InWeek(now, days, w)) != [] ==> BucketFor(events, now, days, w) in buckets)
  }

  // ---- the loop -------------------------------------------------------------------------

  ghost predicate Folded(byWeek: map<int, Bucket>, events: seq<Event>, now: int, days: int) {
    forall w ::
      && (w in byWeek <==> Filter(events, InWeek(now, days, w)) != [])
      && (w in byWeek ==> byWeek[w] == BucketFor(events, now, days, w))
  }

  method GroupEventsByWeek(events: seq<Event>, now: int, days: int) returns (buckets: seq<Bucket>)
    ensures Grouped(events, now, days, buckets)
  {
    hide Folded, Grouped, Filter, StartOfWeek, LabelOf, Sort, Ordered;
    var windowStart, windowEnd := now - days * DAY, now + days * DAY;
    var currentWeek := StartOfWeek(now);
    var byWeek := map[];
    NothingFolded(now, days);
    for i := 0 to |events|
      invariant Folded(byWeek, events[..i], now, days)
    {
      var item := events[i];
      ghost var before := byWeek;
      assert events[..i + 1] == events[..i] + [item];
      if item.at.Some? && windowStart <= item.at.value <= windowEnd {
        var weekStart := StartOfWeek(item.at.value);
        var empty := Bucket(weekStart, LabelOf(weekStart, currentWeek), []);
        var bucket := if weekStart in byWeek then byWeek[weekStart] else empty;
        byWeek := byWeek[weekStart := bucket.(items := bucket.items + [item])];
        ItemFolded(before, events[..i], item, now, days);
      } else {
        ItemSkipped(before, events[..i], item, now, days);
      }
    }
    assert events[..|events|] == events;
    var keys := KeysOf(byWeek.Keys);
    var values: seq<Bucket> := [];
    for i := 0 to |keys|
      invariant |values| == i
      invariant forall j :: 0 <= j < i ==> values[j] == byWeek[keys[j]]
    {
      values := values + [byWeek[keys[i]]];
    }
    SortedBuckets(byWeek, events, now, days, keys, values);
    buckets := Sort(values, Newer());
  }

  lemma NothingFolded(now: int, days: int)
    ensures Folded(map[], [], now, days)
  { }

  lemma ItemFolded(byWeek: map<int, Bucket>, events: seq<Event>, item: Event, now: int, days: int)
    requires Folded(byWeek, events, now, days) && InWindow(now, days)(item)
    ensures
      var w := StartOfWeek(item.at.value);
      var bucket := if w in byWeek then byWeek[w] else Bucket(w, LabelOf(w, StartOfWeek(now)), []);
      Folded(byWeek[w := bucket.(items := bucket.items + [item])], events + [item], now, days)
  {
    hide Filter, StartOfWeek, LabelOf;
    forall w ensures Filter(events + [item], InWeek(now, days, w))
        == Filter(events, InWeek(now, days, w)) + (if InWeek(now, days, w)(item) then [item] else []) {
      FilterSnoc(events, item, InWeek(now, days, w));
    }
  }

  lemma ItemSkipped(byWeek: map<int, Bucket>, events: seq<Event>, item: Event, now: int, days: int)
    requires Folded(byWeek, events, now, days) && !InWindow(now, days)(item)
    ensures Folded(byWeek, events + [item], now, days)
  {
    hide Filter, StartOfWeek, LabelOf;
    forall w ensures Filter(events + [item], InWeek(now, days, w)) == Filter(events, InWeek(now, days, w)) {
      FilterSnoc(events, item, InWeek(now, days, w));
    }
  }

  /** `values` is the map's values, one for each of its keys. */
  ghost predicate ValuesOf(byWeek: map<int, Bucket>, keys: seq<int>, values: seq<Bucket>) {
    && Distinct(keys) && |values| == |keys| && (forall k :: k in byWeek ==> k in keys)
    && (forall i :: 0 <= i < |keys| ==> keys[i] in byWeek && values[i] == byWeek[keys[i]])
  }

  lemma SortedBuckets(byWeek: map<int, Bucket>, events: seq<Event>, now: int, days: int, keys: seq<int>,
                      values: seq<Bucket>)
    requires Folded(byWeek, events, now, days) && ValuesOf(byWeek, keys, values)
    ensures Grouped(events, now, days, Sort(values, Newer()))
  {
    hide Filter, BucketFor, Folded, InWeek, Sort, Comparable, Transitive, Ordered, ValuesOf;
    ListedBuckets(byWeek, events, now, days, keys, values);
    SortFacts(values, Newer());
    forall w | Filter(events, InWeek(now, days, w)) != [] ensures BucketFor(events, now, days, w) in values {
      WeekListed(byWeek, events, now, days, keys, values, w);
    }
  }

  lemma ListedBuckets(byWeek: map<int, Bucket>, events: seq<Event>, now: int, days: int, keys: seq<int>,
                      values: seq<Bucket>)
    requires Folded(byWeek, events, now, days) && ValuesOf(byWeek, keys, values)
    ensures forall b :: b in values ==> b.items != [] && b == BucketFor(events, now, days, b.weekStart)
    ensures Comparable(values, Newer()) && Transitive(Newer())
  {
    hide Filter, BucketFor, Folded, InWeek;
    forall i | 0 <= i < |values|
      ensures values[i].items != [] && values[i].weekStart == keys[i]
      ensures values[i] == BucketFor(events, now, days, keys[i])
    {
      FoldedAt(byWeek, events, now, days, keys[i]);
    }
  }

  lemma WeekListed(byWeek: map<int, Bucket>, events: seq<Event>, now: int, days: int, keys: seq<int>,
                   values: seq<Bucket>, w: int)
    requires Folded(byWeek, events, now, days) && ValuesOf(byWeek, keys, values)
    requires Filter(events, InWeek(now, days, w)) != []
    ensures BucketFor(events, now, days, w) in values
  {
    hide Folded, Filter, BucketFor, InWeek;
    FoldedAt(byWeek, events, now, days, w);
    assert w in keys;
    var i :| 0 <= i < |keys| && keys[i] == w;
    assert values[i] in values;
  }

  lemma FoldedAt(byWeek: map<int, Bucket>, events: seq<Event>, now: int, days: int, w: int)
    requires Folded(byWeek, events, now, days)
    ensures w in byWeek <==> Filter(events, InWeek(now, days, w)) != []
    ensures w in byWeek
        ==> byWeek[w] == BucketFor(events, now, days, w) && byWeek[w].items != [] && byWeek[w].weekStart == w
  {
    hide Filter;
  }

  // ---- the Monday -----------------------------------------------------------------------

  predicate MondayMidnight(ms: int) {
    ms % DAY == 0 && DayOfWeek(DayOf(ms)) == 1
  }

  /** The start of a week is the one Monday midnight that is no later than the instant and less
      than seven days before it; its day is at most six days before the instant's. The first Monday
      midnight after the epoch is 345600 seconds into it. */
  lemma StartOfWeekIsTheMonday(ms: int, monday: int)
    ensures MondayMidnight(monday) && monday <= ms < monday + WEEK <==> monday == StartOfWeek(ms)
    ensures 0 <= DayOf(ms) - DayOf(StartOfWeek(ms)) <= 6
    ensures StartOfWeek(ms) % 604_800_000 == 345_600_000 && StartOfWeek(ms) <= ms < StartOfWeek(ms) + 604_800_000
  {
    var d, m := DayOf(ms), StartOfWeek(ms);
    assert m == (d - (d + 3) % 7) * DAY;
    assert DayOf(m) == d - (d + 3) % 7;
  }

  /** The label counts calendar weeks back from the current one, and names every other week, ahead or
      further back, by its start. */
  lemma {:induction false} LabelCountsWeeks(at: int, now: int)
    ensures LabelOf(StartOfWeek(at), StartOfWeek(now)) == ThisWeek <==> StartOfWeek(at) == StartOfWeek(now)
    ensures LabelOf(StartOfWeek(at), StartOfWeek(now)) == LastWeek <==> StartOfWeek(at) == StartOfWeek(now - WEEK)
    ensures StartOfWeek(at) != StartOfWeek(now) && StartOfWeek(at) != StartOfWeek(now - WEEK) ==>
      LabelOf(StartOfWeek(at), StartOfWeek(now)) == WeekOf(StartOfWeek(at))
  {
    WeeksApart(at, now);
    WeeksApart(now - WEEK, now);
  }

  lemma WeeksApart(at: int, now: int)
    ensures (StartOfWeek(now) - StartOfWeek(at)) % WEEK == 0
  {
  }

  lemma WeeksAreMonotone(a: int, b: int)
    requires a <= b
    ensures StartOfWeek(a) <= StartOfWeek(b)
  {
    StartOfWeekIsTheMonday(a, StartOfWeek(a));
    StartOfWeekIsTheMonday(b, StartOfWeek(b));
    WeeksApart(a, b);
  }

  // ---- nothing lost, nothing invented ---------------------------------------------------

  /** An event of the input is in some bucket exactly when it lies in the window, and the bucket
      is that of its Monday, no other. */
  lemma EachEventInItsWeek(events: seq<Event>, now: int, days: int, buckets: seq<Bucket>, e: Event, i: nat)
    requires Grouped(events, now, days, buckets) && i < |buckets|
    ensures e in buckets[i].items
        <==> e in events && InWindow(now, days)(e) && StartOfWeek(e.at.value) == buckets[i].weekStart
    ensures e in events && InWindow(now, days)(e)
        ==> exists j :: 0 <= j < |buckets| && buckets[j].weekStart == StartOfWeek(e.at.value)
  {
    hide Filter, StartOfWeek, LabelOf;
    assert buckets[i] in buckets;
    FilterMembers(events, InWeek(now, days, buckets[i].weekStart));
    if e in events && InWindow(now, days)(e) {
      var w := StartOfWeek(e.at.value);
      FilterMembers(events, InWeek(now, days, w));
      assert e in Filter(events, InWeek(now, days, w));
      assert BucketFor(events, now, days, w) in buckets;
    }
  }

  /** What the buckets are, in plain time: Monday midnights, the newest first; in each bucket the
      events of its seven days that lie in the window; and a title that says how long ago. */
  lemma {:induction false} BucketsReadOff(events: seq<Event>, now: int, days: int, buckets: seq<Bucket>, e: Event,
                                          i: nat)
    requires Grouped(events, now, days, buckets) && i < |buckets|
    ensures
      var start := buckets[i].weekStart;
      && start % 604_800_000 == 345_600_000
      && (e in buckets[i].items <==>
            && e in events && e.at.Some?
            && now - days * 86_400_000 <= e.at.value <= now + days * 86_400_000
            && start <= e.at.value < start + 604_800_000)
      && buckets[i].title
         == (if start <= now < start + 604_800_000 then ThisWeek
             else if start + 604_800_000 <= now < start + 1_209_600_000 then LastWeek
             else WeekOf(start))
      && (forall j :: i < j < |buckets| ==> start > buckets[j].weekStart)
  {
    hide Filter, StartOfWeek, LabelOf, Grouped, MondayMidnight;
    var start := buckets[i].weekStart;
    EachEventInItsWeek(events, now, days, buckets, e, i);
    SomeEvent(events, now, days, buckets, i);
    var x :| x in events && x.at.Some? && StartOfWeek(x.at.value) == start;
    StartOfWeekIsTheMonday(x.at.value, start);
    assert start % 604_800_000 == 345_600_000;
    if e.at.Some? { WeekHolds(start, e.at.value); }
    LabelCountsWeeks(x.at.value, now);
    WeekHolds(start, now);
    WeekHolds(start, now - WEEK);
  }

  /** On the grid of Monday midnights a week holds exactly the instants that start it. */
  lemma WeekHolds(start: int, ms: int)
    requires start % 604_800_000 == 345_600_000
    ensures StartOfWeek(ms) == start <==> start <= ms < start + 604_800_000
  {
    StartOfWeekIsTheMonday(ms, start);
    OnTheGrid(start, StartOfWeek(ms));
  }

  lemma OnTheGrid(a: int, b: int)
    requires a % 604_800_000 == 345_600_000 && b % 604_800_000 == 345_600_000
    ensures a < b ==> a + 604_800_000 <= b
    ensures b < a ==> b + 604_800_000 <= a
  { }

  lemma SomeEvent(events: seq<Event>, now: int, days: int, buckets: seq<Bucket>, i: nat)
    requires Grouped(events, now, days, buckets) && i < |buckets|
    ensures exists x :: x in events && x.at.Some? && StartOfWeek(x.at.value) == buckets[i].weekStart
    ensures buckets[i].title == LabelOf(buckets[i].weekStart, StartOfWeek(now))
    ensures forall j :: i < j < |buckets| ==> buckets[i].weekStart > buckets[j].weekStart
  {
    hide Filter, StartOfWeek, LabelOf;
    assert buckets[i] in buckets;
    FilterMembers(events, InWeek(now, days, buckets[i].weekStart));
    var x := buckets[i].items[0];
    assert x in buckets[i].items && InWeek(now, days, buckets[i].weekStart)(x) && InWindow(now, days)(x);
    assert x in events && x.at.Some? && StartOfWeek(x.at.value) == buckets[i].weekStart;
    forall j | i < j < |buckets| ensures buckets[i].weekStart > buckets[j].weekStart {
      assert Newer()(buckets[i], buckets[j]);
    }
  }

  function Joined(buckets: seq<Bucket>): seq<Event> {
    if buckets == [] then [] else buckets[0].items + Joined(buckets[1..])
  }

  function FromWeek(w: int): Event -> bool {
    (e: Event) => e.at.Some? && StartOfWeek(e.at.value) == w
  }

  function NotFromWeek(w: int): Event -> bool {
    (e: Event) => !FromWeek(w)(e)
  }

  /** The buckets split the events `s` by week, newest week first. */
  ghost predicate Split(s: seq<Event>, buckets: seq<Bucket>) {
    && Ordered(buckets, Newer())
    && (forall b :: b in buckets ==> b.items == Filter(s, FromWeek(b.weekStart)))
    && (forall e :: e in s ==> e.at.Some? && exists b :: b in buckets && b.weekStart == StartOfWeek(e.at.value))
  }

  ghost predicate NewestFirst(s: seq<Event>) {
    forall i, j :: 0 <= i < j < |s| && s[i].at.Some? && s[j].at.Some? ==> s[i].at.value >= s[j].at.value
  }

  lemma GroupedIsSplit(events: seq<Event>, now: int, days: int, buckets: seq<Bucket>)
    requires Grouped(events, now, days, buckets)
    ensures Split(Filter(events, InWindow(now, days)), buckets)
  {
    hide Filter, StartOfWeek, LabelOf;
    var s := Filter(events, InWindow(now, days));
    FilterMembers(events, InWindow(now, days));
    forall b | b in buckets ensures b.items == Filter(s, FromWeek(b.weekStart)) {
      FilterTwice(events, InWindow(now, days), FromWeek(b.weekStart), InWeek(now, days, b.weekStart));
    }
    forall e | e in s ensures exists b :: b in buckets && b.weekStart == StartOfWeek(e.at.value) {
      var w := StartOfWeek(e.at.value);
      FilterMembers(events, InWeek(now, days, w));
      assert e in Filter(events, InWeek(now, days, w));
      assert BucketFor(events, now, days, w) in buckets;
    }
  }

  lemma SplitTail(s: seq<Event>, buckets: seq<Bucket>)
    requires Split(s, buckets) && buckets != []
    ensures Split(Filter(s, NotFromWeek(buckets[0].weekStart)), buckets[1..])
  {
    hide Filter, StartOfWeek;
    var w, rest := buckets[0].weekStart, Filter(s, NotFromWeek(buckets[0].weekStart));
    FilterMembers(s, NotFromWeek(w));
    forall b | b in buckets[1..] ensures b.items == Filter(rest, FromWeek(b.weekStart)) {
      assert b in buckets && b.weekStart < w;
      FilterTwice(s, NotFromWeek(w), FromWeek(b.weekStart), FromWeek(b.weekStart));
    }
    forall e | e in rest ensures exists b :: b in buckets[1..] && b.weekStart == StartOfWeek(e.at.value) {
      var b :| b in buckets && b.weekStart == StartOfWeek(e.at.value);
      assert b in buckets[1..];
    }
  }

  lemma {:induction false} FilterPartition(s: seq<Event>, w: int)
    ensures multiset(s) == multiset(Filter(s, FromWeek(w))) + multiset(Filter(s, NotFromWeek(w)))
  {
    hide StartOfWeek;
    if s != [] {
      var rest, x := s[..|s| - 1], s[|s| - 1];
      FilterPartition(rest, w);
      assert s == rest + [x];
      FilterSnoc(rest, x, FromWeek(w));
      FilterSnoc(rest, x, NotFromWeek(w));
      hide Filter;
      assert multiset(s) == multiset(rest) + multiset{x};
    }
  }

  lemma {:induction false} JoinedIsPermutation(s: seq<Event>, buckets: seq<Bucket>)
    requires Split(s, buckets)
    ensures multiset(Joined(buckets)) == multiset(s)
    decreases |buckets|
  {
    assert s != [] ==> s[0] in s;
    if buckets == [] {
      assert s == [];
    } else {
      SplitTail(s, buckets);
      JoinedIsPermutation(Filter(s, NotFromWeek(buckets[0].weekStart)), buckets[1..]);
      FilterPartition(s, buckets[0].weekStart);
      assert buckets[0] in buckets;
    }
  }

  /** The newest week comes first when the events are newest first. */
  lemma {:induction false} NewestWeekIsAPrefix(s: seq<Event>, w: int)
    requires NewestFirst(s) && (forall e :: e in s ==> e.at.Some? && StartOfWeek(e.at.value) <= w)
    ensures s == Filter(s, FromWeek(w)) + Filter(s, NotFromWeek(w))
  {
    hide StartOfWeek, Filter;
    if s == [] {
      FilterNone(s, FromWeek(w));
      FilterNone(s, NotFromWeek(w));
    } else {
      var rest, x := s[..|s| - 1], s[|s| - 1];
      assert s == rest + [x];
      NewestWeekIsAPrefix(rest, w);
      FilterSnoc(rest, x, FromWeek(w));
      FilterSnoc(rest, x, NotFromWeek(w));
      if FromWeek(w)(x) {
        NoneOlder(rest, x, w);
        FilterNone(rest, NotFromWeek(w));
      }
    }
  }

  lemma NoneOlder(rest: seq<Event>, x: Event, w: int)
    requires NewestFirst(rest + [x]) && FromWeek(w)(x)
    requires forall e :: e in rest + [x] ==> e.at.Some? && StartOfWeek(e.at.value) <= w
    ensures forall e :: e in rest ==> !NotFromWeek(w)(e)
  {
    hide StartOfWeek;
    var s := rest + [x];
    forall e | e in rest ensures !NotFromWeek(w)(e) {
      var i :| 0 <= i < |rest| && rest[i] == e;
      assert s[i] == e && s[i].at.value >= s[|s| - 1].at.value;
      WeeksAreMonotone(x.at.value, e.at.value);
    }
  }

  lemma {:induction false} FilterKeepsOrder(s: seq<Event>, keep: Event -> bool)
    requires NewestFirst(s)
    ensures NewestFirst(Filter(s, keep))
  {
    if s != [] {
      var rest, x := s[..|s| - 1], s[|s| - 1];
      FilterKeepsOrder(rest, keep);
      FilterMembers(rest, keep);
      forall e | e in Filter(rest, keep) && e.at.Some? && x.at.Some? ensures e.at.value >= x.at.value {
        var i :| 0 <= i < |rest| && rest[i] == e;
        assert s[i].at.value >= s[|s| - 1].at.value;
      }
    }
  }

  lemma {:induction false} JoinedIsInput(s: seq<Event>, buckets: seq<Bucket>)
    requires Split(s, buckets) && NewestFirst(s)
    ensures Joined(buckets) == s
    decreases |buckets|
  {
    hide StartOfWeek, Filter;
    assert s != [] ==> s[0] in s;
    if buckets == [] {
      assert s == [];
    } else {
      var w := buckets[0].weekStart;
      assert buckets[0] in buckets;
      forall e | e in s ensures StartOfWeek(e.at.value) <= w { }
      NewestWeekIsAPrefix(s, w);
      SplitTail(s, buckets);
      FilterKeepsOrder(s, NotFromWeek(w));
      JoinedIsInput(Filter(s, NotFromWeek(w)), buckets[1..]);
    }
  }

  /** Joining the buckets gives back the events in the window, as a multiset whatever the order
      of the input, and as the very same list when the input is newest first. */
  lemma {:induction false} NothingLostOrInvented(events: seq<Event>, now: int, days: int, buckets: seq<Bucket>)
    requires Grouped(events, now, days, buckets)
    ensures multiset(Joined(buckets)) == multiset(Filter(events, InWindow(now, days)))
    ensures NewestFirst(events) ==> Joined(buckets) == Filter(events, InWindow(now, days))
  {
    hide Filter, StartOfWeek, Grouped;
    var s := Filter(events, InWindow(now, days));
    GroupedIsSplit(events, now, days, buckets);
    JoinedIsPermutation(s, buckets);
    if NewestFirst(events) {
      FilterKeepsOrder(events, InWindow(now, days));
      JoinedIsInput(s, buckets);
    }
  }
}
