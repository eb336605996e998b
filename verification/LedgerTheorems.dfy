/** What the ledger invariant means for every run from an empty installation. */
module LedgerTheorems {
  import opened Sums
  import opened Tables
  import opened SignupGate
  import opened Ledger
  import opened LedgerInvariant

  // ---- the balances ---------------------------------------------------------------------

  /** The cache agrees with the ledgers after every run, and holds no row of a deleted user. */
  lemma BalancesEqualLedgers(requests: seq<Request>, s: State)
    requires s == Run(EMPTY, requests)
    ensures forall u, n :: NodeAt(s.balances, u, n).claimed == Sum(s.claims, PairGb(u, n))
    ensures forall u, n :: NodeAt(s.balances, u, n).entries == Count(s.claims, OfPair(u, n))
    ensures forall u :: UserAt(s.balances, u).claims == Sum(s.claims, UserGb(u))
    ensures forall u :: UserAt(s.balances, u).sent == Sum(s.transfers, SentGb(u))
    ensures forall u :: UserAt(s.balances, u).received == Sum(s.transfers, ReceivedGb(u))
    ensures forall u :: UserAt(s.balances, u).reserved == Sum(s.buckets, BucketGb(u))
    ensures forall u :: u !in s.users ==> u !in s.balances.users
    ensures forall p :: p in s.balances.nodes ==> p.0 in s.users
  {
    EmptyIsConsistent();
    RunKeeps(EMPTY, requests);
    forall u, n ensures NodeAt(s.balances, u, n) == NodeFigures(s, u, n) { }
    forall u
      ensures UserAt(s.balances, u).claims == Sum(s.claims, UserGb(u))
      ensures UserAt(s.balances, u).sent == Sum(s.transfers, SentGb(u))
      ensures UserAt(s.balances, u).received == Sum(s.transfers, ReceivedGb(u))
      ensures UserAt(s.balances, u).reserved == Sum(s.buckets, BucketGb(u))
    {
      assert UserAmounts(s.balances, u) == UserFigures(s, u);
    }
  }

  // ---- the clamps -----------------------------------------------------------------------

  /** The three delta writers without their clamps at zero. */
  function PlainClaimDelta(b: Balances, u: UserId, n: NodeId, gb: real, entries: int): Balances {
    if u == "" || n == "" then b
    else
      var node, user := NodeAt(b, u, n), UserAt(b, u);
      Balances(b.nodes[(u, n) := NodeRow(node.claimed + gb, node.entries + entries)],
               b.users[u := user.(claims := user.claims + gb)])
  }

  function PlainTransferDelta(b: Balances, from: UserId, to: UserId, gb: real): Balances {
    var mid := if from == "" || gb == 0.0 then b
               else b.(users := b.users[from := UserAt(b, from).(sent := UserAt(b, from).sent + gb)]);
    if to == "" || gb == 0.0 then mid
    else mid.(users := mid.users[to := UserAt(mid, to).(received := UserAt(mid, to).received + gb)])
  }

  function PlainAllocationDelta(b: Balances, u: UserId, gb: real): Balances {
    if u == "" || gb == 0.0 then b
    else b.(users := b.users[u := UserAt(b, u).(reserved := UserAt(b, u).reserved + gb)])
  }

  function PlainUnwind(b: Balances, snapshots: seq<Rec<Transfer>>, u: UserId): Balances {
    if snapshots == [] then b
    else
      var t := snapshots[|snapshots| - 1].row;
      PlainTransferDelta(PlainUnwind(b, snapshots[..|snapshots| - 1], u),
                         if t.from == u then "" else t.from, if t.to == u then "" else t.to, -t.gb)
  }

  /** The balances a request would commit if no writer clamped anything. */
  function PlainBalances(s: State, op: Op): Balances
    requires Accepts(s, op)
  {
    var b := s.balances;
    match op
    case CreateClaim(_, c) => PlainClaimDelta(b, c.user, c.node, c.gb, 1)
    case UpdateClaim(id, c) =>
      var was := Get(s.claims, id);
      if was.user == c.user && was.node == c.node then PlainClaimDelta(b, c.user, c.node, c.gb - was.gb, 0)
      else PlainClaimDelta(PlainClaimDelta(b, was.user, was.node, -was.gb, -1), c.user, c.node, c.gb, 1)
    case DeleteClaim(id) =>
      var was := Get(s.claims, id);
      PlainClaimDelta(b, was.user, was.node, -was.gb, -1)
    case CreateTransfer(_, t) => PlainTransferDelta(b, t.from, t.to, t.gb)
    case DeleteTransfer(id) =>
      var was := Get(s.transfers, id);
      PlainTransferDelta(b, was.from, was.to, -was.gb)
    case CreateBucket(_, k) => PlainAllocationDelta(b, k.user, k.gb)
    case UpdateBucket(id, k) =>
      var was := Get(s.buckets, id);
      if was.user == k.user then PlainAllocationDelta(b, k.user, k.gb - was.gb)
      else PlainAllocationDelta(PlainAllocationDelta(b, was.user, -was.gb), k.user, k.gb)
    case DeleteBucket(id) =>
      var was := Get(s.buckets, id);
      PlainAllocationDelta(b, was.user, -was.gb)
    case DeleteUser(u) => PlainUnwind(DropUser(s, u).balances, Filter(s.transfers, TransfersOf(u)), u)
    case _ => Commit(s, op).balances
  }

  lemma CountPositive<T(!new)>(s: seq<T>, x: T, keep: T -> bool)
    requires x in s && keep(x)
    ensures Count(s, keep) >= 1
  {
    FilterMembers(s, keep);
    assert x in Filter(s, keep);
  }

  /** What is still owed to `v` after unwinding `k` of the dropped transfers covers the next one. */
  lemma UnwindCovers(s: State, u: UserId, k: nat, v: UserId)
    requires WellFormed(s) && UsersAgree(s) && u != v && k < |Filter(s.transfers, TransfersOf(u))|
    ensures
      var gone := Filter(s.transfers, TransfersOf(u));
      var b := Unwind(DropUser(s, u).balances, gone[..k], u);
      UserAt(b, v).sent >= SentGb(v)(gone[k]) && UserAt(b, v).received >= ReceivedGb(v)(gone[k])
  {
    hide Sum, Filter;
    var gone := Filter(s.transfers, TransfersOf(u));
    assert "" !in s.users;
    DeleteUserTransfers(s, u, v);
    assert UserAmounts(s.balances, v) == UserFigures(s, v);
    forall t | t in gone ensures SentGb(v)(t) >= 0.0 && ReceivedGb(v)(t) >= 0.0 { }
    assert Snapshots(gone[..k], u) by { assert forall t :: t in gone[..k] ==> t in gone; }
    TailNonNegative(gone, k, SentGb(v));
    TailNonNegative(gone, k, ReceivedGb(v));
    UnwindAt(DropUser(s, u).balances, gone[..k], u, v);
  }

  lemma TailNonNegative<T(!new)>(s: seq<T>, k: nat, weight: T -> real)
    requires k < |s| && forall x :: x in s ==> weight(x) >= 0.0
    ensures Sum(s[..k], weight) + weight(s[k]) <= Sum(s, weight)
  {
    SumSplitAt(s, k, weight);
    SumNonNegative(s[k + 1..], weight);
  }

  lemma TransferIsPlain(b: Balances, from: UserId, to: UserId, gb: real)
    requires from != "" ==> UserAt(b, from).sent + gb >= 0.0
    requires to != "" ==> UserAt(b, to).received + gb >= 0.0
    ensures TransferDelta(b, from, to, gb) == PlainTransferDelta(b, from, to, gb)
  { }

  lemma AllocationIsPlain(b: Balances, u: UserId, gb: real)
    requires u != "" ==> UserAt(b, u).reserved + gb >= 0.0
    ensures AllocationDelta(b, u, gb) == PlainAllocationDelta(b, u, gb)
  { }

  lemma MoveIsPlain(b: Balances, from: UserId, to: UserId, was: real, gb: real)
    requires UserAt(b, from).reserved >= was && UserAt(b, to).reserved >= 0.0 && gb >= 0.0 && from != to
    ensures AllocationDelta(AllocationDelta(b, from, -was), to, gb)
         == PlainAllocationDelta(PlainAllocationDelta(b, from, -was), to, gb)
  { }

  lemma {:induction false} UnwindIsPlain(s: State, u: UserId, k: nat)
    requires WellFormed(s) && UsersAgree(s) && k <= |Filter(s.transfers, TransfersOf(u))|
    ensures
      var gone, b := Filter(s.transfers, TransfersOf(u))[..k], DropUser(s, u).balances;
      Unwind(b, gone, u) == PlainUnwind(b, gone, u)
  {
    hide Filter, DropUser, TransferDelta, PlainTransferDelta, WellFormed, UsersAgree;
    if k > 0 {
      var gone := Filter(s.transfers, TransfersOf(u));
      UnwindIsPlain(s, u, k - 1);
      assert gone[..k][..k - 1] == gone[..k - 1];
      var b, t := Unwind(DropUser(s, u).balances, gone[..k - 1], u), gone[k - 1].row;
      if t.from != u { UnwindCovers(s, u, k - 1, t.from); }
      if t.to != u { UnwindCovers(s, u, k - 1, t.to); }
      TransferIsPlain(b, if t.from == u then "" else t.from, if t.to == u then "" else t.to, -t.gb);
    }
  }

  /** No clamp at zero ever changes anything: on a consistent state every request commits exactly
      the balances it would commit without them. */
  lemma {:induction false} ClampsNeverBite(s: State, op: Op)
    requires Consistent(s) && Accepts(s, op)
    ensures Commit(s, op).balances == PlainBalances(s, op)
  {
    hide Sum, Filter, Consistent, DropUser, Unwind, PlainUnwind, ClaimDelta, PlainClaimDelta;
    hide TransferDelta, PlainTransferDelta, AllocationDelta, PlainAllocationDelta;
    var b := s.balances;
    match op
    case CreateClaim(_, c) =>
      EntriesCounted(s, c.user, c.node);
      ClaimIsPlain(b, c.user, c.node, c.gb, 1);
    case UpdateClaim(id, c) => MovedClaimIsPlain(s, id, c);
    case DeleteClaim(id) =>
      ClaimCounted(s, id);
      ClaimIsPlain(b, Get(s.claims, id).user, Get(s.claims, id).node, -Get(s.claims, id).gb, -1);
    case CreateTransfer(_, t) =>
      FiguresNonNegative(s, t.from);
      FiguresNonNegative(s, t.to);
      TransferIsPlain(b, t.from, t.to, t.gb);
    case DeleteTransfer(id) =>
      TransferCovered(s, id);
      TransferIsPlain(b, Get(s.transfers, id).from, Get(s.transfers, id).to, -Get(s.transfers, id).gb);
    case CreateBucket(_, k) =>
      FiguresNonNegative(s, k.user);
      AllocationIsPlain(b, k.user, k.gb);
    case UpdateBucket(id, k) => MovedBucketIsPlain(s, id, k);
    case DeleteBucket(id) =>
      BucketCovered(s, id);
      AllocationIsPlain(b, Get(s.buckets, id).user, -Get(s.buckets, id).gb);
    case DeleteUser(u) => CascadeIsPlain(s, u);
    case _ =>
  }

  lemma ClaimIsPlain(b: Balances, u: UserId, n: NodeId, gb: real, entries: int)
    requires NodeAt(b, u, n).entries + entries >= 0
    ensures ClaimDelta(b, u, n, gb, entries) == PlainClaimDelta(b, u, n, gb, entries)
  { }

  lemma MovedClaimIsPlain(s: State, id: string, c: Claim)
    requires Consistent(s) && Accepts(s, UpdateClaim(id, c))
    ensures Commit(s, UpdateClaim(id, c)).balances == PlainBalances(s, UpdateClaim(id, c))
  {
    hide Sum, Filter, Consistent;
    ClaimCounted(s, id);
    EntriesCounted(s, c.user, c.node);
  }

  lemma MovedBucketIsPlain(s: State, id: string, k: Bucket)
    requires Consistent(s) && Accepts(s, UpdateBucket(id, k))
    ensures Commit(s, UpdateBucket(id, k)).balances == PlainBalances(s, UpdateBucket(id, k))
  {
    hide Sum, Filter, Consistent, AllocationDelta, PlainAllocationDelta;
    var was := Get(s.buckets, id);
    BucketCovered(s, id);
    FiguresNonNegative(s, k.user);
    if was.user == k.user {
      AllocationIsPlain(s.balances, k.user, k.gb - was.gb);
      AllocationByZero(s.balances, k.user);
    } else {
      MoveIsPlain(s.balances, was.user, k.user, was.gb, k.gb);
    }
  }

  lemma AllocationByZero(b: Balances, u: UserId)
    ensures PlainAllocationDelta(b, u, 0.0) == b
  { }

  lemma CascadeIsPlain(s: State, u: UserId)
    requires Consistent(s)
    ensures
      var gone, b := Filter(s.transfers, TransfersOf(u)), DropUser(s, u).balances;
      Unwind(b, gone, u) == PlainUnwind(b, gone, u)
  {
    hide Filter, DropUser;
    var gone := Filter(s.transfers, TransfersOf(u));
    UnwindIsPlain(s, u, |gone|);
    assert gone[..|gone|] == gone;
  }

  lemma EntriesCounted(s: State, u: UserId, n: NodeId)
    requires Consistent(s)
    ensures NodeAt(s.balances, u, n).entries >= 0
  {
    hide Filter, Sum;
    assert NodeAt(s.balances, u, n) == NodeFigures(s, u, n);
  }

  lemma FiguresNonNegative(s: State, u: UserId)
    requires Consistent(s)
    ensures UserAt(s.balances, u).sent >= 0.0 && UserAt(s.balances, u).received >= 0.0
    ensures UserAt(s.balances, u).reserved >= 0.0
  {
    hide Filter, Sum;
    assert UserAmounts(s.balances, u) == UserFigures(s, u);
    TransfersNonNegative(s, u);
    SumNonNegative(s.buckets, BucketGb(u));
  }

  lemma ClaimCounted(s: State, id: string)
    requires Consistent(s) && Has(s.claims, id)
    ensures NodeAt(s.balances, Get(s.claims, id).user, Get(s.claims, id).node).entries >= 1
  {
    hide Filter, Sum;
    var was := s.claims[Find(s.claims, id)];
    assert NodeAt(s.balances, was.row.user, was.row.node) == NodeFigures(s, was.row.user, was.row.node);
    CountPositive(s.claims, was, OfPair(was.row.user, was.row.node));
  }

  lemma TransferCovered(s: State, id: string)
    requires Consistent(s) && Has(s.transfers, id)
    ensures
      var was := Get(s.transfers, id);
      UserAt(s.balances, was.from).sent >= was.gb && UserAt(s.balances, was.to).received >= was.gb
  {
    hide Filter, Sum;
    var was := s.transfers[Find(s.transfers, id)];
    assert UserAmounts(s.balances, was.row.from) == UserFigures(s, was.row.from);
    assert UserAmounts(s.balances, was.row.to) == UserFigures(s, was.row.to);
    MemberWithin(s.transfers, was, SentGb(was.row.from));
    MemberWithin(s.transfers, was, ReceivedGb(was.row.to));
  }

  lemma BucketCovered(s: State, id: string)
    requires Consistent(s) && Has(s.buckets, id)
    ensures UserAt(s.balances, Get(s.buckets, id).user).reserved >= Get(s.buckets, id).gb
  {
    hide Filter, Sum;
    var was := s.buckets[Find(s.buckets, id)];
    assert UserAmounts(s.balances, was.row.user) == UserFigures(s, was.row.user);
    MemberWithin(s.buckets, was, BucketGb(was.row.user));
  }

  // ---- the audit trail ------------------------------------------------------------------

  lemma {:induction false} AmountById(claims: seq<Rec<Claim>>, id: string)
    requires UniqueIds(claims)
    ensures Sum(claims, IdGb(id)) == if Has(claims, id) then Get(claims, id).gb else 0.0
  {
    if Has(claims, id) {
      var i := Find(claims, id);
      SumSplitAt(claims, i, IdGb(id));
      forall c | c in claims[..i] ensures IdGb(id)(c) == 0.0 { }
      forall c | c in claims[i + 1..] ensures IdGb(id)(c) == 0.0 { }
      SumZero(claims[..i], IdGb(id));
      SumZero(claims[i + 1..], IdGb(id));
    } else {
      SumZero(claims, IdGb(id));
    }
  }

  /** The recorded deltas of a claim add up to its current amount, or to zero once it is gone. */
  lemma TrailTelescopes(requests: seq<Request>, id: string)
    ensures
      var s := Run(EMPTY, requests);
      Sum(s.audit, IdDelta(id))
      == if Has(s.claims, id) then Get(s.claims, id).gb else 0.0
  {
    EmptyIsConsistent();
    RunKeeps(EMPTY, requests);
    AmountById(Run(EMPTY, requests).claims, id);
  }

  lemma {:induction false} Enumerate<T(!new)>(s: set<T>) returns (order: seq<T>)
    ensures Distinct(order) && forall x :: x in order <==> x in s
  {
    if s == {} {
      order := [];
    } else {
      var x :| x in s;
      var rest := Enumerate(s - {x});
      order := rest + [x];
    }
  }

  lemma TotalByClaimId(s: State)
    requires TrailAgrees(s)
    ensures Sum(s.audit, Delta()) == Sum(s.claims, ClaimGb())
  {
    var ids := Enumerate((set i | 0 <= i < |s.audit| :: s.audit[i].claimId)
        + (set i | 0 <= i < |s.claims| :: s.claims[i].id));
    var aboutA := (id: string, a: AuditRow) => a.claimId == id;
    var aboutC := (id: string, c: Rec<Claim>) => c.id == id;
    forall a | a in s.audit ensures Owned(ids, a, aboutA) {
      assert a.claimId in ids && aboutA(a.claimId, a);
    }
    forall c | c in s.claims ensures Owned(ids, c, aboutC) {
      assert c.id in ids && aboutC(c.id, c);
    }
    DoubleCount(ids, s.audit, aboutA, Delta());
    DoubleCount(ids, s.claims, aboutC, ClaimGb());
    forall id | id in ids ensures PerKey(s.audit, aboutA, Delta())(id) == PerKey(s.claims, aboutC, ClaimGb())(id) {
      SumCongruent(s.audit, Share(aboutA, Delta(), id), IdDelta(id));
      SumCongruent(s.claims, Share(aboutC, ClaimGb(), id), IdGb(id));
    }
    SumCongruent(ids, PerKey(s.audit, aboutA, Delta()), PerKey(s.claims, aboutC, ClaimGb()));
  }

  function CachedClaims(b: Balances): UserId -> real {
    (u: UserId) => UserAt(b, u).claims
  }

  lemma TotalByUser(s: State, order: seq<UserId>)
    requires WellFormed(s) && UsersAgree(s)
    requires Distinct(order) && forall u :: u in s.users ==> u in order
    ensures Sum(order, CachedClaims(s.balances)) == Sum(s.claims, ClaimGb())
  {
    var owns := (u: UserId, c: Rec<Claim>) => c.row.user == u;
    forall c | c in s.claims ensures Owned(order, c, owns) {
      assert c.row.user in order && owns(c.row.user, c);
    }
    DoubleCount(order, s.claims, owns, ClaimGb());
    forall u | u in order ensures CachedClaims(s.balances)(u) == PerKey(s.claims, owns, ClaimGb())(u) {
      SumCongruent(s.claims, Share(owns, ClaimGb(), u), UserGb(u));
      assert UserAmounts(s.balances, u) == UserFigures(s, u);
    }
    SumCongruent(order, CachedClaims(s.balances), PerKey(s.claims, owns, ClaimGb()));
  }

  /** All deltas ever recorded add up to the ledger, and to the cached claim figures of all users
      together, re-pointed and cascaded claims included. */
  lemma TrailEqualsTotals(requests: seq<Request>, order: seq<UserId>)
    requires Distinct(order) && forall u :: u in Run(EMPTY, requests).users ==> u in order
    ensures
      var s := Run(EMPTY, requests);
      Sum(s.audit, Delta()) == Sum(s.claims, ClaimGb())
      == Sum(order, CachedClaims(s.balances))
  {
    EmptyIsConsistent();
    RunKeeps(EMPTY, requests);
    TotalByClaimId(Run(EMPTY, requests));
    TotalByUser(Run(EMPTY, requests), order);
  }

  // ---- the trail per (user, node) pair --------------------------------------------------

  ghost predicate PairTrailAgrees(s: State) {
    forall u, n :: PairGap(s, u, n) == 0.0
  }

  /** A re-pointed claim that held something: the row it leaves in the trail names the new pair
      only, so nothing in the trail takes the amount off the old one. */
  predicate Repoints(s: State, op: Op)
    requires Accepts(s, op)
  {
    match op
    case UpdateClaim(id, c) =>
      var was := Get(s.claims, id);
      (was.user != c.user || was.node != c.node) && was.gb != 0.0
    case _ => false
  }

  lemma {:induction false} CascadeAuditPair(snapshots: seq<Rec<Claim>>, u: UserId, n: NodeId)
    ensures Sum(CascadeAudit(snapshots), PairDelta(u, n)) == -Sum(snapshots, PairGb(u, n))
  {
    if snapshots != [] {
      var rest, c := snapshots[..|snapshots| - 1], snapshots[|snapshots| - 1];
      CascadeAuditPair(rest, u, n);
      SumSnoc(CascadeAudit(rest), AuditOf(Deleted, c.id, c.row, c.row.gb, 0.0, true), PairDelta(u, n));
    }
  }

  /** How far a request leaves trail and ledger apart on the pair (u, n). */
  ghost function PairGap(s: State, u: UserId, n: NodeId): real {
    Sum(s.audit, PairDelta(u, n)) - Sum(s.claims, PairGb(u, n))
  }

  lemma PairTrailUpdate(s: State, id: string, c: Claim, u: UserId, n: NodeId)
    requires Accepts(s, UpdateClaim(id, c))
    ensures var was := Get(s.claims, id);
      PairGap(Commit(s, UpdateClaim(id, c)), u, n)
      == PairGap(s, u, n)
          + (if OfPair(u, n)(Rec(id, was)) then was.gb else 0.0) - (if OfPair(u, n)(Rec(id, c)) then was.gb else 0.0)
  {
    SumReplaced(s.claims, Find(s.claims, id), Rec(id, c), PairGb(u, n));
    SumSnoc(s.audit, AuditOf(Updated, id, c, Get(s.claims, id).gb, c.gb, false), PairDelta(u, n));
  }

  lemma {:induction false} PairTrailCreate(s: State, id: string, c: Claim, u: UserId, n: NodeId)
    requires Accepts(s, CreateClaim(id, c))
    ensures PairGap(Commit(s, CreateClaim(id, c)), u, n) == PairGap(s, u, n)
  {
    SumSnoc(s.claims, Rec(id, c), PairGb(u, n));
    SumSnoc(s.audit, AuditOf(Created, id, c, 0.0, c.gb, false), PairDelta(u, n));
  }

  lemma PairTrailRemove(s: State, id: string, u: UserId, n: NodeId)
    requires Accepts(s, DeleteClaim(id))
    ensures PairGap(Commit(s, DeleteClaim(id)), u, n) == PairGap(s, u, n)
  {
    var was := Get(s.claims, id);
    SumRemoved(s.claims, Find(s.claims, id), PairGb(u, n));
    SumSnoc(s.audit, AuditOf(Deleted, id, was, was.gb, 0.0, false), PairDelta(u, n));
  }

  lemma PairTrailDelete(s: State, u: UserId, v: UserId, n: NodeId)
    requires Accepts(s, DeleteUser(u))
    ensures PairGap(Commit(s, DeleteUser(u)), v, n) == PairGap(s, v, n)
  {
    var gone := Filter(s.claims, ClaimsOf(u));
    SumConcat(s.audit, CascadeAudit(Reversed(gone)), PairDelta(v, n));
    CascadeAuditPair(Reversed(gone), v, n);
    ReversedSum(gone, PairGb(v, n));
    SumPartition(s.claims, ClaimsOf(u), ClaimsNotOf(u), PairGb(v, n));
  }

  lemma PairTrailOthers(s: State, op: Op, u: UserId, n: NodeId)
    requires Accepts(s, op) && !op.UpdateClaim?
    ensures PairGap(Commit(s, op), u, n) == PairGap(s, u, n)
  {
    match op
    case CreateClaim(id, c) => PairTrailCreate(s, id, c, u, n);
    case DeleteClaim(id) => PairTrailRemove(s, id, u, n);
    case DeleteUser(v) => PairTrailDelete(s, v, u, n);
    case _ =>
  }

  /** The trail of every pair keeps adding up to the pair's balance through a request if and only
      if the request does not re-point a claim that holds a non-zero amount. */
  lemma PairTrailKeptIff(s: State, op: Op)
    requires Accepts(s, op) && PairTrailAgrees(s)
    ensures PairTrailAgrees(Commit(s, op)) <==> !Repoints(s, op)
  {
    var s' := Commit(s, op);
    if Repoints(s, op) {
      var was := Get(s.claims, op.id);
      PairTrailUpdate(s, op.id, op.claim, was.user, was.node);
      assert PairGap(s, was.user, was.node) == 0.0;
      assert PairGap(s', was.user, was.node) != 0.0;
    } else {
      forall u, n ensures PairGap(s', u, n) == 0.0 {
        assert PairGap(s, u, n) == 0.0;
        if op.UpdateClaim? { PairTrailUpdate(s, op.id, op.claim, u, n); } else { PairTrailOthers(s, op, u, n); }
      }
    }
  }

  /** What a request carries away from the pair (u, n) by re-pointing, less what it brings. */
  ghost function CarriedAway(s: State, op: Op, u: UserId, n: NodeId): real
    requires Accepts(s, op)
  {
    match op
    case UpdateClaim(id, c) =>
      var was := Get(s.claims, id);
      (if OfPair(u, n)(Rec(id, was)) then was.gb else 0.0) - if OfPair(u, n)(Rec(id, c)) then was.gb else 0.0
    case _ => 0.0
  }

  ghost function AllCarriedAway(s: State, requests: seq<Request>, u: UserId, n: NodeId): real {
    if requests == [] then 0.0
    else
      var before, r := requests[..|requests| - 1], requests[|requests| - 1];
      AllCarriedAway(s, before, u, n)
      + if r.commits && Accepts(Run(s, before), r.op) then CarriedAway(Run(s, before), r.op, u, n) else 0.0
  }

  lemma PairTrailStep(s: State, op: Op, u: UserId, n: NodeId)
    requires Accepts(s, op)
    ensures PairGap(Commit(s, op), u, n) == PairGap(s, u, n) + CarriedAway(s, op, u, n)
  {
    hide Commit, PairGap;
    if op.UpdateClaim? { PairTrailUpdate(s, op.id, op.claim, u, n); } else { PairTrailOthers(s, op, u, n); }
  }

  /** Over every run the deltas recorded for a pair are its balance and what re-pointed claims
      carried away from it, less what they brought. */
  lemma {:induction false} PairTrailOverRuns(requests: seq<Request>, u: UserId, n: NodeId)
    ensures
      var s := Run(EMPTY, requests);
      Sum(s.audit, PairDelta(u, n)) == NodeAt(s.balances, u, n).claimed + AllCarriedAway(EMPTY, requests, u, n)
  {
    hide Run, Sum;
    PairGapOverRuns(EMPTY, requests, u, n);
    BalancesEqualLedgers(requests, Run(EMPTY, requests));
    SumZero(EMPTY.audit, PairDelta(u, n));
    SumZero(EMPTY.claims, PairGb(u, n));
  }

  lemma {:induction false} PairGapOverRuns(s: State, requests: seq<Request>, u: UserId, n: NodeId)
    ensures PairGap(Run(s, requests), u, n) == PairGap(s, u, n) + AllCarriedAway(s, requests, u, n)
  {
    hide Commit, Accepts, PairGap, CarriedAway;
    if requests != [] {
      var before, r := requests[..|requests| - 1], requests[|requests| - 1];
      PairGapOverRuns(s, before, u, n);
      if r.commits && Accepts(Run(s, before), r.op) { PairTrailStep(Run(s, before), r.op, u, n); }
    }
  }

  // ---- administrators -------------------------------------------------------------------

  lemma {:induction false} StepKeepsAdmin(s: State, r: Request)
    requires |s.admins| > 0
    ensures |Step(s, r).admins| > 0
  {
    if r.commits && Accepts(s, r.op) {
      var s' := Commit(s, r.op);
      match r.op
      case DeleteUser(u) =>
        assert s'.admins == s.admins - {u};
        if u !in s.admins { assert s'.admins == s.admins; }
      case SignUp(u, _, _) =>
        var a :| a in s.admins;
        assert a in s'.admins;
      case AddAdmin(u) => assert u in s'.admins;
      case MoveAdmin(_, to) => assert to in s'.admins;
      case RemoveAdmin(u) => assert s'.admins == s.admins - {u};
      case _ =>
    }
  }

  /** An instance that has an administrator keeps one through every run of requests. */
  lemma {:induction false} AdminsRemain(s: State, requests: seq<Request>)
    requires |s.admins| > 0
    ensures |Run(s, requests).admins| > 0
  {
    if requests != [] {
      AdminsRemain(s, requests[..|requests| - 1]);
      StepKeepsAdmin(Run(s, requests[..|requests| - 1]), requests[|requests| - 1]);
    }
  }

  /** How each request changes the number of administrators. */
  lemma {:induction false} AdminCount(s: State, op: Op)
    requires WellFormed(s) && Accepts(s, op)
    ensures
      |Commit(s, op).admins|
      == |s.admins| + (match op
                       case AddAdmin(_) => 1
                       case RemoveAdmin(_) => -1
                       case DeleteUser(u) => if u in s.admins then -1 else 0
                       case SignUp(_, signup, saves) =>
                         if saves && |s.admins| == 0 && signup.ownerEmail != "" && signup.email == signup.ownerEmail
                         then 1 else 0
                       case _ => 0)
    ensures op.MoveAdmin? ==> op.to in Commit(s, op).admins && op.user !in Commit(s, op).admins
  {
    hide Filter, Unwind, CascadeAudit, Reversed, Drifts, Planned, Recomputed, Written, ValidUserId, OwnsBucket;
    hide ClaimDelta, MoveClaim, MoveBucket, AllocationDelta, TransferDelta, AuditOf, Get, Insert, Remove, Replace;
    match op
    case AddAdmin(u) => OneMore(s.admins, u);
    case RemoveAdmin(u) => OneMore(s.admins - {u}, u);
    case DeleteUser(u) =>
      if u in s.admins { OneMore(s.admins - {u}, u); } else { assert s.admins - {u} == s.admins; }
    case SignUp(u, _, _) => OneMore(s.admins, u);
    case MoveAdmin(u, to) =>
      OneMore(s.admins - {u}, u);
      OneMore(s.admins - {u}, to);
    case _ =>
  }

  lemma OneMore(s: set<UserId>, u: UserId)
    requires u !in s
    ensures |s + {u}| == |s| + 1
    ensures forall t :: t - {u} == s && u in t ==> t == s + {u}
  { }

  /** The bootstrap branch of the sign-up decision is never taken again, whatever the mode. */
  lemma {:induction false} BootstrapCloses(s: State, requests: seq<Request>, signup: Signup)
    requires |s.admins| > 0
    ensures DecideSignup(signup, |Run(s, requests).admins|).reason != UnclaimedInstance
    ensures !Promotes(Run(s, requests), signup)
    ensures signup.mode == Closed && !signup.isSuperuser ==> !DecideSignup(signup, |Run(s, requests).admins|).allow
  {
    AdminsRemain(s, requests);
  }

  /** The step saves an administrator row for the configured owner. */
  predicate Promotion(s: State, r: Request) {
    r.commits && r.op.SignUp? && Accepts(s, r.op) && r.op.promotionSaves && Promotes(s, r.op.signup)
  }

  function Promotions(s: State, requests: seq<Request>): nat {
    if requests == [] then 0
    else
      var before := requests[..|requests| - 1];
      Promotions(s, before) + if Promotion(Run(s, before), requests[|requests| - 1]) then 1 else 0
  }

  lemma {:induction false} PromotedOnce(requests: seq<Request>)
    ensures Promotions(EMPTY, requests) <= 1
    ensures Promotions(EMPTY, requests) == 1 ==> |Run(EMPTY, requests).admins| > 0
  {
    if requests != [] {
      var before, r := requests[..|requests| - 1], requests[|requests| - 1];
      PromotedOnce(before);
      if |Run(EMPTY, before).admins| > 0 {
        StepKeepsAdmin(Run(EMPTY, before), r);
      } else if Promotion(Run(EMPTY, before), r) {
        assert r.op.user in Run(EMPTY, requests).admins;
      }
    }
  }
}
