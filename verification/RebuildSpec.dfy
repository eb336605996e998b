/** What a full recomputation of the balances promises, from any stored balances, and what that
    means after a run of the incremental hooks (pocketbase/pb_hooks/lib/storage-balance.js). */
module RebuildSpec {
  import opened Sums
  import opened Tables
  import opened Ledger
  import opened LedgerInvariant

  const EPSILON := 0.000000001

  type Pair = (UserId, NodeId)

  datatype Report = Report(users: nat, nodes: nat, corrected: nat, driftGb: real)

  // ---- the differences between ledger and cache -----------------------------------------

  /** Every pair with a figure to compare: ledger pairs and rows left without ledger entries. */
  function AllPairs(s: State): set<Pair> {
    Pairs(s.claims) + s.balances.nodes.Keys
  }

  function NodeDiff(s: State, p: Pair): real {
    Sum(s.claims, PairGb(p.0, p.1)) - NodeAt(s.balances, p.0, p.1).claimed
  }

  datatype Figure = Claims | Sent | Received | Reserved

  function FigureOf(row: UserRow, f: Figure): real {
    match f
    case Claims => row.claims
    case Sent => row.sent
    case Received => row.received
    case Reserved => row.reserved
  }

  function UserDiff(s: State, u: UserId, f: Figure): real {
    FigureOf(UserFigures(s, u), f) - FigureOf(UserAt(s.balances, u), f)
  }

  /** The larger of two drifts regardless of sign; the first one when they are equally large. */
  function Worse(a: real, b: real): real {
    if Abs(b) > Abs(a) then b else a
  }

  predicate NodeCounted(s: State, p: Pair) {
    Abs(NodeDiff(s, p)) > EPSILON || p !in s.balances.nodes
  }

  predicate UserCounted(s: State, u: UserId) {
    || (Abs(UserDiff(s, u, Claims)) > EPSILON || Abs(UserDiff(s, u, Sent)) > EPSILON)
    || (Abs(UserDiff(s, u, Received)) > EPSILON || Abs(UserDiff(s, u, Reserved)) > EPSILON)
    || u !in s.balances.users
  }

  /** `drift` bounds, up to the tolerance, every difference on the given pairs and users, and is
      itself zero or one of those differences: the worst single one, never a net. */
  ghost predicate WorstOf(s: State, drift: real, pairs: set<Pair>, users: set<UserId>) {
    && (forall p :: p in pairs ==> Abs(NodeDiff(s, p)) <= Max(Abs(drift), EPSILON))
    && (forall u, f :: u in users ==> Abs(UserDiff(s, u, f)) <= Max(Abs(drift), EPSILON))
    && (drift == 0.0 || (exists p :: p in pairs && drift == NodeDiff(s, p))
        || (exists u, f :: u in users && drift == UserDiff(s, u, f)))
  }

  /** More than a billionth of a GB, either way. */
  predicate Beyond(gap: real) {
    gap > 0.000000001 || gap < -0.000000001
  }

  /** A figure of the user that is off by more than those before it and by no less than those after
      it and the user's pairs: the one to note. */
  ghost predicate Leads(s: State, u: UserId, f: Figure) {
    var gap := Abs(UserDiff(s, u, f));
    && Beyond(gap)
    && (f == Claims || Abs(UserDiff(s, u, Claims)) < gap)
    && (f == Claims || f == Sent || Abs(UserDiff(s, u, Sent)) < gap)
    && (f == Reserved ==> Abs(UserDiff(s, u, Received)) < gap)
    && (forall g :: Abs(UserDiff(s, u, g)) <= gap)
    && (forall p :: p in AllPairs(s) && p.0 == u ==> Abs(NodeDiff(s, p)) <= gap)
  }

  ghost predicate KeepsFirst(s: State, u: UserId, drift: real) {
    forall f :: Leads(s, u, f) ==> drift == UserDiff(s, u, f)
  }

  function PairsOf(s: State, u: UserId): set<Pair> {
    set p | p in AllPairs(s) && p.0 == u
  }

  function CountedPairs(s: State): set<Pair> {
    set p | p in AllPairs(s) && NodeCounted(s, p)
  }

  function CountedUsers(s: State): set<UserId> {
    set u | u in Slots(s) && UserCounted(s, u)
  }

  ghost predicate Rebuilt(s: State, b: Balances, report: Report) {
    && b.nodes == Recomputed(s).nodes
    && b.users.Keys == Slots(s)
    && (forall u :: u in Slots(s) ==> b.users[u].(lastDrift := 0.0) == UserFigures(s, u))
    && (forall u :: u in Slots(s) ==> WorstOf(s, b.users[u].lastDrift, PairsOf(s, u), {u}))
    && (forall u :: u in Slots(s) ==> b.users[u].lastDrift == 0.0 || Beyond(b.users[u].lastDrift))
    && (forall u :: u in Slots(s) ==> KeepsFirst(s, u, b.users[u].lastDrift))
    && WorstOf(s, report.driftGb, AllPairs(s), Slots(s))
    && report.corrected == |CountedPairs(s)| + |CountedUsers(s)|
    && report.users == |Slots(s)| && report.nodes == |Pairs(s.claims)|
  }

  // ---- what that means, amount by amount ------------------------------------------------

  /** What the ledgers say about one pair and one user. */
  ghost function LedgerPair(s: State, u: UserId, n: NodeId): real {
    Sum(s.claims, (c: Rec<Claim>) => if c.row.user == u && c.row.node == n then c.row.gb else 0.0)
  }

  lemma LedgerPairIs(s: State, u: UserId, n: NodeId)
    ensures LedgerPair(s, u, n) == Sum(s.claims, PairGb(u, n))
  {
    SumCongruent(s.claims, (c: Rec<Claim>) => if c.row.user == u && c.row.node == n then c.row.gb else 0.0,
                 PairGb(u, n));
  }

  /** Which rows there are afterwards, and what they say. */
  lemma {:induction false} RebuiltRows(s: State, b: Balances, report: Report, u: UserId, n: NodeId)
    requires WellFormed(s) && Rebuilt(s, b, report)
    ensures (u, n) in b.nodes <==> exists c :: c in s.claims && c.row.user == u && c.row.node == n
    ensures (u, n) in b.nodes ==>
      b.nodes[(u, n)] == NodeRow(LedgerPair(s, u, n),
                                 Count(s.claims, (c: Rec<Claim>) => c.row.user == u && c.row.node == n))
    ensures u in b.users <==>
      || (exists c :: c in s.claims && c.row.user == u)
      || (exists t :: t in s.transfers && Touches(t.row, u))
      || (exists k :: k in s.buckets && k.row.user == u)
    ensures u in b.users ==>
      && b.users[u].claims == Sum(s.claims, (c: Rec<Claim>) => if c.row.user == u then c.row.gb else 0.0)
      && b.users[u].sent == Sum(s.transfers, (t: Rec<Transfer>) => if t.row.from == u then t.row.gb else 0.0)
      && b.users[u].received == Sum(s.transfers, (t: Rec<Transfer>) => if t.row.to == u then t.row.gb else 0.0)
      && b.users[u].reserved == Sum(s.buckets, (k: Rec<Bucket>) => if k.row.user == u then k.row.gb else 0.0)
    ensures report.users == |b.users| && report.nodes == |b.nodes|
  {
    hide Sum, Filter, WorstOf, CountedPairs, CountedUsers, Slots, Pairs, AllPairs, WellFormed;
    assert b.nodes.Keys == Pairs(s.claims) && b.users.Keys == Slots(s);
    PairsAre(s, u, n);
    SlotsAre(s, u);
    SumCongruent(s.claims, (c: Rec<Claim>) => if c.row.user == u then c.row.gb else 0.0, UserGb(u));
    SumCongruent(s.transfers, (t: Rec<Transfer>) => if t.row.from == u then t.row.gb else 0.0, SentGb(u));
    SumCongruent(s.transfers, (t: Rec<Transfer>) => if t.row.to == u then t.row.gb else 0.0, ReceivedGb(u));
    SumCongruent(s.buckets, (k: Rec<Bucket>) => if k.row.user == u then k.row.gb else 0.0, BucketGb(u));
    FilterCongruent(s.claims, (c: Rec<Claim>) => c.row.user == u && c.row.node == n, OfPair(u, n));
    LedgerPairIs(s, u, n);
    if u in b.users { assert b.users[u].(lastDrift := 0.0) == UserFigures(s, u); }
  }

  lemma PairsAre(s: State, u: UserId, n: NodeId)
    requires WellFormed(s)
    ensures (u, n) in Pairs(s.claims) <==> exists c :: c in s.claims && c.row.user == u && c.row.node == n
  {
    forall c | c in s.claims && c.row.user == u && c.row.node == n ensures (u, n) in Pairs(s.claims) {
      assert c.row.user in s.users;
      PairIn(s.claims, c);
    }
  }

  lemma SlotsAre(s: State, u: UserId)
    requires WellFormed(s)
    ensures u in Slots(s) <==>
      || (exists c :: c in s.claims && c.row.user == u)
      || (exists t :: t in s.transfers && Touches(t.row, u))
      || (exists k :: k in s.buckets && k.row.user == u)
  {
    assert "" !in s.users;
    forall c | c in s.claims && c.row.user == u ensures u in Slots(s) { ClaimHasSlots(s, c); }
    forall t | t in s.transfers && Touches(t.row, u) ensures u in Slots(s) {
      var i :| 0 <= i < |s.transfers| && s.transfers[i] == t;
      assert s.transfers[i].row.from in s.users && s.transfers[i].row.to in s.users;
    }
    forall k | k in s.buckets && k.row.user == u ensures u in Slots(s) {
      var i :| 0 <= i < |s.buckets| && s.buckets[i] == k;
      assert s.buckets[i].row.user in s.users;
    }
  }

  predicate Touches(t: Transfer, u: UserId) {
    t.from == u || t.to == u
  }

  /** The cached figure of a pair is off, or its row is missing. */
  ghost predicate PairOff(s: State, p: Pair) {
    p !in s.balances.nodes || Beyond(LedgerPair(s, p.0, p.1) - s.balances.nodes[p].claimed)
  }

  /** Some figure of a user is off, or the row is missing. */
  ghost predicate UserOff(s: State, u: UserId) {
    || u !in s.balances.users
    || Beyond(Sum(s.claims, UserGb(u)) - s.balances.users[u].claims)
    || Beyond(Sum(s.transfers, SentGb(u)) - s.balances.users[u].sent)
    || Beyond(Sum(s.transfers, ReceivedGb(u)) - s.balances.users[u].received)
    || Beyond(Sum(s.buckets, BucketGb(u)) - s.balances.users[u].reserved)
  }

  /** The corrected count is that of the pairs with a row or a claim that were off, and of the users
      with a ledger entry who were. */
  lemma {:induction false} CorrectedAreOff(s: State, b: Balances, report: Report, pairs: set<Pair>, users: set<UserId>)
    requires Rebuilt(s, b, report)
    requires forall p :: p in pairs <==> (p in b.nodes || p in s.balances.nodes) && PairOff(s, p)
    requires forall u :: u in users <==> u in b.users && UserOff(s, u)
    ensures report.corrected == |pairs| + |users|
  {
    hide Rebuilt, Slots, Pairs, PairOff, UserOff, NodeCounted, UserCounted;
    ReportCounted(s, b, report);
    forall p ensures PairOff(s, p) <==> NodeCounted(s, p) { PairOffIsCounted(s, p); }
    forall u ensures UserOff(s, u) <==> UserCounted(s, u) { OffIsCounted(s, u); }
    assert pairs == CountedPairs(s);
    assert users == CountedUsers(s);
  }

  lemma ReportCounted(s: State, b: Balances, report: Report)
    requires Rebuilt(s, b, report)
    ensures b.nodes.Keys == Pairs(s.claims) && b.users.Keys == Slots(s)
    ensures report.corrected == |CountedPairs(s)| + |CountedUsers(s)|
  {
    hide Sum, WorstOf, Slots, Pairs, KeepsFirst, UserFigures, NodeFigures, CountedPairs, CountedUsers;
  }

  lemma PairOffIsCounted(s: State, p: Pair)
    ensures PairOff(s, p) <==> NodeCounted(s, p)
  {
    hide Sum, LedgerPair;
    LedgerPairIs(s, p.0, p.1);
  }

  lemma OffIsCounted(s: State, u: UserId)
    ensures UserOff(s, u) <==> UserCounted(s, u)
  {
    hide Sum;
  }

  /** The reported drift has its sign: it is what the ledgers say less what was cached, of some pair
      or of some figure of a user, or nothing; and so is the drift noted on a user's row, of that
      user, which is never within the tolerance and the first figure's where several are as far off. */
  lemma {:induction false} DriftIsADifference(s: State, b: Balances, report: Report)
    requires Rebuilt(s, b, report)
    ensures report.driftGb == 0.0 || (exists p :: IsPairGap(s, p, report.driftGb))
            || exists u :: u in b.users && IsUserGap(s, u, report.driftGb)
    ensures
      forall u :: u in b.users ==>
        || b.users[u].lastDrift == 0.0 || IsUserGap(s, u, b.users[u].lastDrift)
        || exists n :: IsPairGap(s, (u, n), b.users[u].lastDrift)
    ensures forall u :: u in b.users ==> b.users[u].lastDrift == 0.0 || Beyond(b.users[u].lastDrift)
    ensures forall u, f :: u in b.users && Leads(s, u, f) ==> b.users[u].lastDrift == UserDiff(s, u, f)
  {
    hide Leads;
    hide Sum, Filter, Slots, Pairs, CountedPairs, CountedUsers, Recomputed, AllPairs;
    DriftOf(s, report.driftGb, AllPairs(s), Slots(s));
    forall u | u in b.users
      ensures || b.users[u].lastDrift == 0.0 || IsUserGap(s, u, b.users[u].lastDrift)
              || exists n :: IsPairGap(s, (u, n), b.users[u].lastDrift)
    {
      DriftOf(s, b.users[u].lastDrift, PairsOf(s, u), {u});
      if p :| p in PairsOf(s, u) && IsPairGap(s, p, b.users[u].lastDrift) {
        assert IsPairGap(s, (u, p.1), b.users[u].lastDrift);
      }
    }
  }

  ghost predicate IsPairGap(s: State, p: Pair, gap: real) {
    gap == LedgerPair(s, p.0, p.1) - if p in s.balances.nodes then s.balances.nodes[p].claimed else 0.0
  }

  ghost predicate IsUserGap(s: State, u: UserId, gap: real) {
    var row := if u in s.balances.users then s.balances.users[u] else UserRow(0.0, 0.0, 0.0, 0.0, 0.0);
    gap in {Sum(s.claims, UserGb(u)) - row.claims, Sum(s.transfers, SentGb(u)) - row.sent,
            Sum(s.transfers, ReceivedGb(u)) - row.received, Sum(s.buckets, BucketGb(u)) - row.reserved}
  }

  lemma DriftOf(s: State, drift: real, pairs: set<Pair>, users: set<UserId>)
    requires WorstOf(s, drift, pairs, users)
    ensures drift == 0.0 || (exists p :: p in pairs && IsPairGap(s, p, drift))
            || exists u :: u in users && IsUserGap(s, u, drift)
  {
    hide Sum, LedgerPair;
    if drift != 0.0 {
      if p :| p in pairs && drift == NodeDiff(s, p) {
        LedgerPairIs(s, p.0, p.1);
        assert IsPairGap(s, p, drift);
      } else {
        var u, f :| u in users && drift == UserDiff(s, u, f);
        assert IsUserGap(s, u, drift);
      }
    }
  }

  // ---- row by row -----------------------------------------------------------------------

  function NotedFor(noted: map<UserId, real>, u: UserId): real {
    if u in noted then noted[u] else 0.0
  }

  /** Every write a complete recomputation makes is among these, and no other; each user row is saved
      with the drift noted for it. */
  ghost predicate Complete(s: State, writes: seq<RowWrite>, noted: map<UserId, real>) {
    && (forall w :: w in writes ==> Planned(s, w) && (w.SaveUser? ==> w.drift == NotedFor(noted, w.user)))
    && (forall p :: p in Pairs(s.claims) ==> SaveNode(p.0, p.1) in writes)
    && (forall p :: p in s.balances.nodes && p !in Pairs(s.claims) ==> DropNode(p.0, p.1) in writes)
    && (forall u :: u in Slots(s) ==> SaveUser(u, NotedFor(noted, u)) in writes)
    && (forall u :: u in s.balances.users && u !in Slots(s) ==> DropUserRow(u) in writes)
  }

  lemma {:induction false} WrittenPair(s: State, writes: seq<RowWrite>, p: Pair)
    requires forall w :: w in writes ==> Planned(s, w)
    ensures
      var b := Written(s, s.balances, writes);
      if SaveNode(p.0, p.1) in writes then p in b.nodes && b.nodes[p] == NodeFigures(s, p.0, p.1)
      else p in b.nodes <==> p in s.balances.nodes && DropNode(p.0, p.1) !in writes
  {
    hide Pairs, Slots, NodeFigures, UserFigures, Drifts;
    if writes != [] {
      var rest, last := writes[..|writes| - 1], writes[|writes| - 1];
      assert writes == rest + [last] && Planned(s, last) && p == (p.0, p.1);
      WrittenPair(s, rest, p);
      if SaveNode(p.0, p.1) in rest { assert Planned(s, SaveNode(p.0, p.1)); }
    }
  }

  lemma {:induction false} WrittenUser(s: State, writes: seq<RowWrite>, u: UserId, drift: real)
    requires forall w :: w in writes ==> Planned(s, w) && (w.SaveUser? && w.user == u ==> w.drift == drift)
    ensures
      var b := Written(s, s.balances, writes);
      if SaveUser(u, drift) in writes then u in b.users && b.users[u] == UserFigures(s, u).(lastDrift := drift)
      else u in b.users <==> u in s.balances.users && DropUserRow(u) !in writes
  {
    hide Pairs, Slots, NodeFigures, UserFigures, Drifts;
    if writes != [] {
      var rest, last := writes[..|writes| - 1], writes[|writes| - 1];
      assert writes == rest + [last];
      WrittenUser(s, rest, u, drift);
    }
  }

  /** Row by row, in whatever order and whichever rows twice, a recomputation that gets through its
      writes ends where the one request does. */
  lemma {:induction false} WritesMakeRebuild(s: State, writes: seq<RowWrite>, noted: map<UserId, real>)
    requires Complete(s, writes, noted) && Accepts(s, Ledger.Rebuild(noted))
    ensures Commit(s, StoppedRebuild(writes)) == Commit(s, Ledger.Rebuild(noted))
  {
    hide Pairs, Slots, NodeFigures, UserFigures, Drifts, Written;
    var b, all := Written(s, s.balances, writes), Annotated(Recomputed(s), noted);
    forall p ensures p in b.nodes <==> p in all.nodes
             ensures p in b.nodes ==> b.nodes[p] == all.nodes[p]
    {
      WrittenPair(s, writes, p);
    }
    forall u ensures u in b.users <==> u in all.users
             ensures u in b.users ==> b.users[u] == all.users[u]
    {
      WrittenUser(s, writes, u, NotedFor(noted, u));
    }
    assert b.nodes == all.nodes && b.users == all.users;
  }

  // ---- rebuilding a cache the hooks kept ------------------------------------------------

  lemma ConsistentDiffs(s: State)
    requires Consistent(s)
    ensures forall p :: NodeDiff(s, p) == 0.0
    ensures forall u, f :: UserDiff(s, u, f) == 0.0
    ensures forall p :: p in AllPairs(s) ==> p in s.balances.nodes
  {
    forall p ensures NodeDiff(s, p) == 0.0 {
      assert NodeAt(s.balances, p.0, p.1) == NodeFigures(s, p.0, p.1);
    }
    forall u, f ensures UserDiff(s, u, f) == 0.0 {
      assert UserAmounts(s.balances, u) == UserFigures(s, u);
    }
    forall p | p in Pairs(s.claims) ensures p in s.balances.nodes {
      var i :| 0 <= i < |s.claims| && (s.claims[i].row.user, s.claims[i].row.node) == p;
      assert s.claims[i] in s.claims;
    }
  }

  lemma NothingIsWorst(s: State, drift: real, pairs: set<Pair>, users: set<UserId>)
    requires WorstOf(s, drift, pairs, users)
    requires forall p :: p in pairs ==> NodeDiff(s, p) == 0.0
    requires forall u, f :: u in users ==> UserDiff(s, u, f) == 0.0
    ensures drift == 0.0
  {
  }

  lemma ExactRows(s: State, b: Balances)
    requires b.nodes == Recomputed(s).nodes && b.users.Keys == Slots(s)
    requires forall u :: u in Slots(s) ==> b.users[u] == UserFigures(s, u)
    ensures b == Recomputed(s)
  {
    assert b.users == Recomputed(s).users;
  }

  lemma {:induction false} NoOwnDrift(s: State, b: Balances, report: Report, u: UserId)
    requires Rebuilt(s, b, report) && u in Slots(s)
    requires forall p :: p in AllPairs(s) ==> NodeDiff(s, p) == 0.0
    requires forall f :: UserDiff(s, u, f) == 0.0
    ensures b.users[u] == UserFigures(s, u)
  {
    hide Sum, Filter, Slots, UserFigures, NodeFigures, AllPairs, WorstOf, NodeDiff, UserDiff, Recomputed;
    hide CountedPairs, CountedUsers;
    NothingIsWorst(s, b.users[u].lastDrift, PairsOf(s, u), {u});
  }

  /** When no figure differs, a recomputation can only count rows that are missing. */
  lemma {:induction false} RebuildOfExact(s: State, b: Balances, report: Report)
    requires Rebuilt(s, b, report)
    requires forall p :: p in AllPairs(s) ==> NodeDiff(s, p) == 0.0 && p in s.balances.nodes
    requires forall u, f :: u in Slots(s) ==> UserDiff(s, u, f) == 0.0
    ensures report.driftGb == 0.0
    ensures report.corrected == |Slots(s) - s.balances.users.Keys|
    ensures b == Recomputed(s)
  {
    NothingIsWorst(s, report.driftGb, AllPairs(s), Slots(s));
    forall u | u in Slots(s) ensures b.users[u] == UserFigures(s, u) {
      NoOwnDrift(s, b, report, u);
    }
    ExactRows(s, b);
    CountedWhenExact(s);
  }

  lemma CountedWhenExact(s: State)
    requires forall p :: p in AllPairs(s) ==> NodeDiff(s, p) == 0.0 && p in s.balances.nodes
    requires forall u, f :: u in Slots(s) ==> UserDiff(s, u, f) == 0.0
    ensures CountedPairs(s) == {}
    ensures CountedUsers(s) == Slots(s) - s.balances.users.Keys
  {
  }

  /** What a recomputation leaves is what the request `Rebuild` commits, with the drift found. */
  lemma RebuiltIsCommit(s: State, b: Balances, report: Report, noted: map<UserId, real>)
    requires Rebuilt(s, b, report) && noted == map u | u in b.users :: b.users[u].lastDrift
    ensures Accepts(s, Ledger.Rebuild(noted)) && b == Commit(s, Ledger.Rebuild(noted)).balances
  {
    hide Sum, Filter, Slots, Pairs, NodeFigures, UserFigures, CountedPairs, CountedUsers, WorstOf, Drifts, Recomputed;
    forall u | u in noted && noted[u] != 0.0 ensures Drifts(s, u) {
      DriftHasCause(s, noted[u], u);
    }
    AnnotatedRows(s, b, noted);
  }

  lemma AnnotatedRows(s: State, b: Balances, noted: map<UserId, real>)
    requires b.nodes == Recomputed(s).nodes && b.users.Keys == Slots(s) == noted.Keys
    requires forall u :: u in Slots(s) ==> b.users[u].(lastDrift := 0.0) == UserFigures(s, u)
    requires forall u :: u in Slots(s) ==> noted[u] == b.users[u].lastDrift
    ensures b == Annotated(Recomputed(s), noted)
  {
    hide Sum, Filter, Slots, Pairs, NodeFigures, UserFigures;
    assert b.users == Annotated(Recomputed(s), noted).users;
  }

  lemma DriftHasCause(s: State, drift: real, u: UserId)
    requires WorstOf(s, drift, PairsOf(s, u), {u}) && drift != 0.0
    ensures Drifts(s, u)
  {
    hide Sum, Filter, Pairs;
    if p :| p in PairsOf(s, u) && drift == NodeDiff(s, p) {
      assert NodeAt(s.balances, p.0, p.1).claimed != NodeFigures(s, p.0, p.1).claimed;
    } else {
      var f :| drift == UserDiff(s, u, f);
    }
  }

  lemma SameFigures(s: State, t: State, u: UserId, n: NodeId)
    requires NodesAgree(s) && UsersAgree(s) && NodesAgree(t) && UsersAgree(t)
    requires s.claims == t.claims && s.transfers == t.transfers && s.buckets == t.buckets
    ensures NodeAt(s.balances, u, n) == NodeAt(t.balances, u, n)
    ensures UserAmounts(s.balances, u) == UserAmounts(t.balances, u)
  {
    assert NodeAt(s.balances, u, n) == NodeFigures(s, u, n) && NodeAt(t.balances, u, n) == NodeFigures(t, u, n);
    assert UserAmounts(s.balances, u) == UserFigures(s, u) && UserAmounts(t.balances, u) == UserFigures(t, u);
  }

  lemma NotingNothing(s: State)
    ensures Annotated(Recomputed(s), map[]) == Recomputed(s)
  {
    hide NodeFigures, Slots, Pairs, Sum;
    assert Annotated(Recomputed(s), map[]).users == Recomputed(s).users;
  }

  /** No user row carries a drift noted by an earlier recomputation. */
  ghost predicate NoDrift(b: Balances) {
    forall u :: u in b.users ==> b.users[u].lastDrift == 0.0
  }

  lemma {:induction false} UnwindNotes(b: Balances, snapshots: seq<Rec<Transfer>>, u: UserId)
    requires NoDrift(b)
    ensures NoDrift(Unwind(b, snapshots, u))
  {
    if snapshots != [] { UnwindNotes(b, snapshots[..|snapshots| - 1], u); }
  }

  lemma {:induction false} WritesNote(s: State, writes: seq<RowWrite>)
    requires NoDrift(s.balances) && forall w :: w in writes ==> Planned(s, w)
    requires forall u :: !Drifts(s, u)
    ensures NoDrift(Written(s, s.balances, writes))
  {
    hide Drifts, NodeFigures, Sum, Slots, Pairs;
    if writes != [] {
      var rest := writes[..|writes| - 1];
      assert writes[|writes| - 1] in writes;
      assert forall w :: w in rest ==> w in writes;
      WritesNote(s, rest);
    }
  }

  lemma ConsistentDoesNotDrift(s: State)
    requires Consistent(s)
    ensures forall u :: !Drifts(s, u)
  {
    hide Sum, Filter;
    forall u ensures !Drifts(s, u) {
      assert UserAmounts(s.balances, u) == UserFigures(s, u);
      forall p: Pair | p.0 == u ensures NodeAt(s.balances, p.0, p.1) == NodeFigures(s, p.0, p.1) { }
    }
  }

  lemma {:induction false} StepNotesNothing(s: State, r: Request)
    requires Consistent(s) && NoDrift(s.balances)
    ensures NoDrift(Step(s, r).balances)
  {
    hide Sum, Filter, Consistent, Drifts, Unwind, Written, Slots, Pairs, NodeFigures, Find, OwnsBucket, CascadeAudit;
    ConsistentDoesNotDrift(s);
    if r.commits && Accepts(s, r.op) {
      match r.op
      case DeleteUser(u) => UnwindNotes(DropUser(s, u).balances, Filter(s.transfers, TransfersOf(u)), u);
      case StoppedRebuild(writes) => WritesNote(s, writes);
      case _ =>
    }
  }

  lemma {:induction false} RunNotesNothing(requests: seq<Request>)
    ensures NoDrift(Run(EMPTY, requests).balances)
  {
    hide Step, Consistent;
    if requests != [] {
      var before := requests[..|requests| - 1];
      RunNotesNothing(before);
      EmptyIsConsistent();
      RunKeeps(EMPTY, before);
      StepNotesNothing(Run(EMPTY, before), requests[|requests| - 1]);
    }
  }

  lemma SameButDrift(row: UserRow, other: UserRow)
    requires row.(lastDrift := 0.0) == other.(lastDrift := 0.0) && row.lastDrift == other.lastDrift
    ensures row == other
  { }

  /** Right after any run of the hooks the recomputation finds no drift and changes no amount; it
      counts exactly the users that have ledger entries but no row, and those are all zero. */
  lemma {:induction false} RebuildAfterRun(requests: seq<Request>, s: State, b: Balances, report: Report)
    requires s == Run(EMPTY, requests) && Rebuilt(s, b, report)
    ensures Accepts(s, Ledger.Rebuild(map[])) && b == Commit(s, Ledger.Rebuild(map[])).balances
    ensures report.driftGb == 0.0
    ensures forall u, n :: NodeAt(b, u, n) == NodeAt(s.balances, u, n)
    ensures forall u :: UserAt(b, u) == UserAt(s.balances, u)
    ensures report.corrected == |Slots(s) - s.balances.users.Keys|
    ensures forall u :: u in Slots(s) - s.balances.users.Keys ==> UserFigures(s, u) == NO_USER_ROW
  {
    hide Sum, Filter, Slots, Pairs, Rebuilt, Run, WellFormed, RowsFit, TrailAgrees, AllPairs;
    EmptyIsConsistent();
    RunKeeps(EMPTY, requests);
    RunNotesNothing(requests);
    ConsistentDiffs(s);
    RebuildOfExact(s, b, report);
    var t := Commit(s, Ledger.Rebuild(map[]));
    RebuildKeeps(s, map[]);
    NotingNothing(s);
    forall u, n ensures NodeAt(b, u, n) == NodeAt(s.balances, u, n) { SameFigures(s, t, u, n); }
    forall u ensures UserAt(b, u) == UserAt(s.balances, u) {
      SameFigures(s, t, u, "");
      SameButDrift(UserAt(b, u), UserAt(s.balances, u));
    }
    forall u | u in Slots(s) - s.balances.users.Keys ensures UserFigures(s, u) == NO_USER_ROW {
      assert UserAmounts(s.balances, u) == UserFigures(s, u);
    }
  }

  /** The rows a recomputation may count on a consistent cache belong to users who own nothing but
      buckets and transfers of zero GB, and do own one. */
  lemma MissingRowsHoldNothing(s: State, u: UserId)
    requires Consistent(s)
    ensures
      u in Slots(s) && u !in s.balances.users <==>
        && u !in s.balances.users
        && (forall c :: c in s.claims ==> c.row.user != u)
        && (forall t :: t in s.transfers && Touches(t.row, u) ==> t.row.gb == 0.0)
        && (forall k :: k in s.buckets && k.row.user == u ==> k.row.gb == 0.0)
        && ((exists k :: k in s.buckets && k.row.user == u) || exists t :: t in s.transfers && Touches(t.row, u))
  {
    hide Sum, Filter;
    assert "" !in s.users;
    if u !in s.balances.users {
      assert UserAmounts(s.balances, u) == UserFigures(s, u) == NO_USER_ROW;
      forall t | t in s.transfers && Touches(t.row, u) ensures t.row.gb == 0.0 { NoSizedTransferOf(s, u, t); }
      forall k | k in s.buckets && k.row.user == u ensures k.row.gb == 0.0 { NoSizedBucketOf(s, u, k); }
      forall k | k in s.buckets && k.row.user == u ensures u in Slots(s) {
        var i :| 0 <= i < |s.buckets| && s.buckets[i] == k;
        assert s.buckets[i].row.user in s.users;
      }
      forall t | t in s.transfers && Touches(t.row, u) ensures u in Slots(s) {
        var i :| 0 <= i < |s.transfers| && s.transfers[i] == t;
        assert s.transfers[i].row.from in s.users && s.transfers[i].row.to in s.users;
      }
    }
  }

  lemma NoSizedTransferOf(s: State, u: UserId, t: Rec<Transfer>)
    requires WellFormed(s) && t in s.transfers && Touches(t.row, u) && UserFigures(s, u) == NO_USER_ROW
    ensures t.row.gb == 0.0
  {
    if t.row.gb > 0.0 {
      if t.row.from == u { SumPositive(s.transfers, SentGb(u)); } else { SumPositive(s.transfers, ReceivedGb(u)); }
    }
  }

  lemma NoSizedBucketOf(s: State, u: UserId, k: Rec<Bucket>)
    requires WellFormed(s) && k in s.buckets && k.row.user == u && UserFigures(s, u) == NO_USER_ROW
    ensures k.row.gb == 0.0
  {
    if k.row.gb > 0.0 { SumPositive(s.buckets, BucketGb(u)); }
  }

  lemma {:induction false} RebuiltNodeDiff(s: State, b: Balances, report: Report, p: Pair)
    requires Rebuilt(s, b, report) && p in AllPairs(s.(balances := b))
    ensures NodeDiff(s.(balances := b), p) == 0.0 && p in b.nodes
  {
    assert p in Pairs(s.claims);
    assert b.nodes[p] == NodeFigures(s, p.0, p.1);
  }

  lemma {:induction false} RebuiltUserDiff(s: State, b: Balances, report: Report, u: UserId, f: Figure)
    requires Rebuilt(s, b, report) && u in Slots(s)
    ensures UserDiff(s.(balances := b), u, f) == 0.0
    ensures UserFigures(s.(balances := b), u) == UserFigures(s, u)
  {
    hide Sum, Filter, WorstOf, SlotsOf, Pairs;
    assert b.users[u].(lastDrift := 0.0) == UserFigures(s, u);
  }

  lemma SameLedgerSameNodes(s: State, b: Balances)
    ensures Recomputed(s.(balances := b)).nodes == Recomputed(s).nodes
  {
    forall p | p in Pairs(s.claims) ensures NodeFigures(s.(balances := b), p.0, p.1) == NodeFigures(s, p.0, p.1) { }
  }

  /** A second recomputation straight after a first one, whatever was stored before, corrects
      nothing, reports no drift and leaves every amount as it is. */
  lemma {:induction false} SecondRebuildIsClean(s: State, b: Balances, first: Report, b': Balances, second: Report)
    requires Rebuilt(s, b, first) && Rebuilt(s.(balances := b), b', second)
    ensures second.corrected == 0 && second.driftGb == 0.0
    ensures b'.nodes == b.nodes && b'.users.Keys == b.users.Keys
    ensures forall u :: u in b.users ==> b'.users[u] == b.users[u].(lastDrift := 0.0)
  {
    var t := s.(balances := b);
    forall p | p in AllPairs(t) { RebuiltNodeDiff(s, b, first, p); }
    forall u, f | u in Slots(t) { RebuiltUserDiff(s, b, first, u, f); }
    RebuildOfExact(t, b', second);
    assert Slots(t) - b.users.Keys == {};
    SameLedgerSameNodes(s, b);
    forall u | u in b.users ensures b'.users[u] == b.users[u].(lastDrift := 0.0) {
      RebuiltUserDiff(s, b, first, u, Claims);
    }
  }

  lemma WorstBoundsPair(s: State, drift: real, pairs: set<Pair>, users: set<UserId>, p: Pair)
    requires WorstOf(s, drift, pairs, users) && p in pairs && Abs(NodeDiff(s, p)) > EPSILON
    ensures Abs(drift) >= Abs(NodeDiff(s, p))
  {
  }

  lemma WorstBoundsUser(s: State, drift: real, pairs: set<Pair>, users: set<UserId>, u: UserId, f: Figure)
    requires WorstOf(s, drift, pairs, users) && u in users && Abs(UserDiff(s, u, f)) > EPSILON
    ensures Abs(drift) >= Abs(UserDiff(s, u, f))
  {
  }

  /** The report never nets two errors against each other: whatever else is off, a pair that is
      off by more than the tolerance shows in the report and on its owner's row. */
  lemma {:induction false} NodeDriftNeverCancels(s: State, b: Balances, report: Report, p: Pair)
    requires Rebuilt(s, b, report) && p in AllPairs(s) && Abs(NodeDiff(s, p)) > EPSILON
    ensures Abs(report.driftGb) >= Abs(NodeDiff(s, p)) && report.corrected > 0
    ensures p.0 in Slots(s) ==> Abs(b.users[p.0].lastDrift) >= Abs(NodeDiff(s, p))
  {
    WorstBoundsPair(s, report.driftGb, AllPairs(s), Slots(s), p);
    assert p in CountedPairs(s);
    if p.0 in Slots(s) {
      WorstBoundsPair(s, b.users[p.0].lastDrift, PairsOf(s, p.0), {p.0}, p);
    }
  }

  /** The same for each of the four figures of a user: two figures off in opposite directions do
      not hide each other. */
  lemma {:induction false} UserDriftNeverCancels(s: State, b: Balances, report: Report, u: UserId, f: Figure)
    requires Rebuilt(s, b, report) && u in Slots(s) && Abs(UserDiff(s, u, f)) > EPSILON
    ensures Abs(report.driftGb) >= Abs(UserDiff(s, u, f)) && report.corrected > 0
    ensures Abs(b.users[u].lastDrift) >= Abs(UserDiff(s, u, f))
  {
    WorstBoundsUser(s, report.driftGb, AllPairs(s), Slots(s), u, f);
    assert u in CountedUsers(s);
    WorstBoundsUser(s, b.users[u].lastDrift, PairsOf(s, u), {u}, u, f);
  }
}
