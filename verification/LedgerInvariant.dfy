/** Over every run of requests the cached balances equal the sums over the ledger rows that
    remain, and the audit trail adds up to the ledger. */
module LedgerInvariant {
  import opened Sums
  import opened Tables
  import opened Ledger

  // ---- the invariant --------------------------------------------------------------------

  ghost predicate WellFormed(s: State) {
    && UniqueIds(s.claims) && UniqueIds(s.transfers) && UniqueIds(s.buckets)
    && (forall c :: c in s.claims ==> ValidClaim(s, c.row))
    && (forall t :: t in s.transfers ==> ValidTransfer(s, t.row))
    && (forall k :: k in s.buckets ==> ValidBucket(s, k.row))
    && (forall u :: u in s.users ==> ValidUserId(u))
    && s.admins <= s.users.Keys
  }

  /** No cached row outlives its user. */
  ghost predicate RowsOwned(s: State) {
    RowsWithin(s.balances, s.users.Keys)
  }

  ghost predicate RowsWithin(b: Balances, users: set<UserId>) {
    && b.users.Keys <= users
    && (forall p :: p in b.nodes ==> p.0 in users && p.1 != "")
  }

  /** Nor does a claim lack its two rows. */
  ghost predicate RowsFit(s: State) {
    && RowsOwned(s)
    && (forall c :: c in s.claims ==> (c.row.user, c.row.node) in s.balances.nodes && c.row.user in s.balances.users)
  }

  ghost predicate NodesAgree(s: State) {
    forall u, n :: NodeAt(s.balances, u, n) == NodeFigures(s, u, n)
  }

  /** The four figures; the drift noted on a row is not one of them. */
  ghost predicate UsersAgree(s: State) {
    forall u :: UserAmounts(s.balances, u) == UserFigures(s, u)
  }

  ghost predicate TrailAgrees(s: State) {
    forall id :: Sum(s.audit, IdDelta(id)) == Sum(s.claims, IdGb(id))
  }

  ghost predicate Consistent(s: State) {
    WellFormed(s) && RowsFit(s) && NodesAgree(s) && UsersAgree(s) && TrailAgrees(s)
  }

  lemma EmptyIsConsistent()
    ensures Consistent(EMPTY)
  {
  }

  // ---- how one table write moves the figures --------------------------------------------

  lemma {:induction false} CountSnoc<T(!new)>(s: seq<T>, x: T, keep: T -> bool)
    ensures Count(s + [x], keep) == Count(s, keep) + if keep(x) then 1 else 0
  {
    FilterSnoc(s, x, keep);
  }

  lemma CountRemoved<T(!new)>(s: seq<T>, i: nat, keep: T -> bool)
    requires i < |s|
    ensures Count(s[..i] + s[i + 1..], keep) == Count(s, keep) - if keep(s[i]) then 1 else 0
  {
    CountIsSum(s, keep);
    CountIsSum(s[..i] + s[i + 1..], keep);
    SumRemoved(s, i, Indicator(keep));
  }

  lemma CountReplaced<T(!new)>(s: seq<T>, i: nat, x: T, keep: T -> bool)
    requires i < |s|
    ensures Count(s[i := x], keep) == Count(s, keep) - (if keep(s[i]) then 1 else 0) + if keep(x) then 1 else 0
  {
    CountIsSum(s, keep);
    CountIsSum(s[i := x], keep);
    SumReplaced(s, i, x, Indicator(keep));
  }

  lemma CreateClaimKeeps(s: State, id: string, c: Claim)
    requires Consistent(s) && Accepts(s, CreateClaim(id, c))
    ensures Consistent(Commit(s, CreateClaim(id, c)))
  {
    hide Sum, Filter;
    var s' := Commit(s, CreateClaim(id, c));
    var r := Rec(id, c);
    assert c.user != "" by { assert c.user in s.users; }
    forall u, n ensures NodeAt(s'.balances, u, n) == NodeFigures(s', u, n) {
      SumSnoc(s.claims, r, PairGb(u, n));
      CountSnoc(s.claims, r, OfPair(u, n));
      assert NodeAt(s.balances, u, n) == NodeFigures(s, u, n);
    }
    forall u ensures UserAmounts(s'.balances, u) == UserFigures(s', u) {
      SumSnoc(s.claims, r, UserGb(u));
      assert UserAmounts(s.balances, u) == UserFigures(s, u);
    }
    forall i ensures Sum(s'.audit, IdDelta(i)) == Sum(s'.claims, IdGb(i)) {
      SumSnoc(s.claims, r, IdGb(i));
      SumSnoc(s.audit, AuditOf(Created, id, c, 0.0, c.gb, false), IdDelta(i));
    }
  }

  lemma UpdateClaimShape(s: State, id: string, c: Claim)
    requires WellFormed(s) && RowsFit(s) && Accepts(s, UpdateClaim(id, c))
    ensures var s' := Commit(s, UpdateClaim(id, c)); WellFormed(s') && RowsFit(s')
    ensures c.user != "" && Get(s.claims, id).user != "" && Get(s.claims, id).node != ""
  {
    ReplaceFacts(s.claims, id, c);
    assert c.user in s.users && Get(s.claims, id).user in s.users;
  }

  lemma UpdateClaimNode(s: State, id: string, c: Claim, u: UserId, n: NodeId)
    requires WellFormed(s) && RowsFit(s) && NodesAgree(s) && Accepts(s, UpdateClaim(id, c))
    ensures var s' := Commit(s, UpdateClaim(id, c)); NodeAt(s'.balances, u, n) == NodeFigures(s', u, n)
  {
    hide Sum, Filter;
    var i, r := Find(s.claims, id), Rec(id, c);
    UpdateClaimShape(s, id, c);
    SumReplaced(s.claims, i, r, PairGb(u, n));
    CountReplaced(s.claims, i, r, OfPair(u, n));
    assert NodeAt(s.balances, u, n) == NodeFigures(s, u, n);
  }

  lemma UpdateClaimUser(s: State, id: string, c: Claim, u: UserId)
    requires WellFormed(s) && RowsFit(s) && UsersAgree(s) && Accepts(s, UpdateClaim(id, c))
    ensures var s' := Commit(s, UpdateClaim(id, c)); UserAmounts(s'.balances, u) == UserFigures(s', u)
  {
    hide Sum, Filter;
    UpdateClaimShape(s, id, c);
    SumReplaced(s.claims, Find(s.claims, id), Rec(id, c), UserGb(u));
    assert UserAmounts(s.balances, u) == UserFigures(s, u);
  }

  lemma UpdateClaimTrail(s: State, id: string, c: Claim)
    requires TrailAgrees(s) && Accepts(s, UpdateClaim(id, c))
    ensures TrailAgrees(Commit(s, UpdateClaim(id, c)))
  {
    var s' := Commit(s, UpdateClaim(id, c));
    forall j ensures Sum(s'.audit, IdDelta(j)) == Sum(s'.claims, IdGb(j)) {
      SumReplaced(s.claims, Find(s.claims, id), Rec(id, c), IdGb(j));
      SumSnoc(s.audit, AuditOf(Updated, id, c, Get(s.claims, id).gb, c.gb, false), IdDelta(j));
    }
  }

  lemma UpdateClaimKeeps(s: State, id: string, c: Claim)
    requires Consistent(s) && Accepts(s, UpdateClaim(id, c))
    ensures Consistent(Commit(s, UpdateClaim(id, c)))
  {
    UpdateClaimShape(s, id, c);
    forall u, n { UpdateClaimNode(s, id, c, u, n); }
    forall u { UpdateClaimUser(s, id, c, u); }
    UpdateClaimTrail(s, id, c);
  }

  lemma DeleteClaimKeeps(s: State, id: string)
    requires Consistent(s) && Accepts(s, DeleteClaim(id))
    ensures Consistent(Commit(s, DeleteClaim(id)))
  {
    hide Sum, Filter;
    var s' := Commit(s, DeleteClaim(id));
    var i := Find(s.claims, id);
    var was := s.claims[i];
    RemoveFacts(s.claims, id);
    assert was.row.user != "";
    forall u, n ensures NodeAt(s'.balances, u, n) == NodeFigures(s', u, n) {
      SumRemoved(s.claims, i, PairGb(u, n));
      CountRemoved(s.claims, i, OfPair(u, n));
      assert NodeAt(s.balances, u, n) == NodeFigures(s, u, n);
    }
    forall u ensures UserAmounts(s'.balances, u) == UserFigures(s', u) {
      SumRemoved(s.claims, i, UserGb(u));
      assert UserAmounts(s.balances, u) == UserFigures(s, u);
    }
    forall j ensures Sum(s'.audit, IdDelta(j)) == Sum(s'.claims, IdGb(j)) {
      SumRemoved(s.claims, i, IdGb(j));
      SumSnoc(s.audit, AuditOf(Deleted, id, was.row, was.row.gb, 0.0, false), IdDelta(j));
    }
  }

  lemma CreateTransferKeeps(s: State, id: string, t: Transfer)
    requires Consistent(s) && Accepts(s, CreateTransfer(id, t))
    ensures Consistent(Commit(s, CreateTransfer(id, t)))
  {
    hide Sum, Filter;
    var s' := Commit(s, CreateTransfer(id, t));
    assert t.from != "" && t.to != "" by { assert t.from in s.users && t.to in s.users; }
    forall u ensures UserAmounts(s'.balances, u) == UserFigures(s', u) {
      TransfersNonNegative(s, u);
      SumSnoc(s.transfers, Rec(id, t), SentGb(u));
      SumSnoc(s.transfers, Rec(id, t), ReceivedGb(u));
      assert UserAmounts(s.balances, u) == UserFigures(s, u);
    }
    OtherTablesKept(s, s');
  }

  lemma DeleteTransferShape(s: State, id: string)
    requires WellFormed(s) && RowsFit(s) && Accepts(s, DeleteTransfer(id))
    ensures var s' := Commit(s, DeleteTransfer(id)); WellFormed(s') && RowsFit(s')
    ensures Get(s.transfers, id).from != "" && Get(s.transfers, id).to != ""
  {
    RemoveFacts(s.transfers, id);
    var was := Get(s.transfers, id);
    assert was.from in s.users && was.to in s.users;
  }

  lemma DeleteTransferUser(s: State, id: string, u: UserId)
    requires WellFormed(s) && RowsFit(s) && UsersAgree(s) && Accepts(s, DeleteTransfer(id))
    ensures var s' := Commit(s, DeleteTransfer(id)); UserAmounts(s'.balances, u) == UserFigures(s', u)
  {
    hide Sum, Filter;
    DeleteTransferShape(s, id);
    TransfersNonNegative(Commit(s, DeleteTransfer(id)), u);
    SumRemoved(s.transfers, Find(s.transfers, id), SentGb(u));
    SumRemoved(s.transfers, Find(s.transfers, id), ReceivedGb(u));
    assert UserAmounts(s.balances, u) == UserFigures(s, u);
  }

  lemma DeleteTransferKeeps(s: State, id: string)
    requires Consistent(s) && Accepts(s, DeleteTransfer(id))
    ensures Consistent(Commit(s, DeleteTransfer(id)))
  {
    DeleteTransferShape(s, id);
    forall u { DeleteTransferUser(s, id, u); }
    OtherTablesKept(s, Commit(s, DeleteTransfer(id)));
  }

  lemma TransfersNonNegative(s: State, u: UserId)
    requires forall t :: t in s.transfers ==> t.row.gb >= 0.0
    ensures Sum(s.transfers, SentGb(u)) >= 0.0 && Sum(s.transfers, ReceivedGb(u)) >= 0.0
  {
    SumNonNegative(s.transfers, SentGb(u));
    SumNonNegative(s.transfers, ReceivedGb(u));
  }

  lemma CreateBucketKeeps(s: State, id: string, k: Bucket)
    requires Consistent(s) && Accepts(s, CreateBucket(id, k))
    ensures Consistent(Commit(s, CreateBucket(id, k)))
  {
    hide Sum, Filter;
    var s' := Commit(s, CreateBucket(id, k));
    assert k.user != "" by { assert k.user in s.users; }
    forall u ensures UserAmounts(s'.balances, u) == UserFigures(s', u) {
      SumNonNegative(s.buckets, BucketGb(u));
      SumSnoc(s.buckets, Rec(id, k), BucketGb(u));
      assert UserAmounts(s.balances, u) == UserFigures(s, u);
    }
    OtherTablesKept(s, s');
  }

  lemma UpdateBucketShape(s: State, id: string, k: Bucket)
    requires WellFormed(s) && RowsFit(s) && Accepts(s, UpdateBucket(id, k))
    ensures var s' := Commit(s, UpdateBucket(id, k)); WellFormed(s') && RowsFit(s')
    ensures k.user != "" && Get(s.buckets, id).user != ""
  {
    hide Sum, Filter;
    ReplaceFacts(s.buckets, id, k);
    assert k.user in s.users && Get(s.buckets, id).user in s.users;
  }

  lemma UpdateBucketUser(s: State, id: string, k: Bucket, u: UserId)
    requires WellFormed(s) && RowsFit(s) && UsersAgree(s) && Accepts(s, UpdateBucket(id, k))
    ensures var s' := Commit(s, UpdateBucket(id, k)); UserAmounts(s'.balances, u) == UserFigures(s', u)
  {
    hide Sum, Filter;
    UpdateBucketShape(s, id, k);
    SumNonNegative(Commit(s, UpdateBucket(id, k)).buckets, BucketGb(u));
    SumReplaced(s.buckets, Find(s.buckets, id), Rec(id, k), BucketGb(u));
    assert UserAmounts(s.balances, u) == UserFigures(s, u);
  }

  lemma UpdateBucketKeeps(s: State, id: string, k: Bucket)
    requires Consistent(s) && Accepts(s, UpdateBucket(id, k))
    ensures Consistent(Commit(s, UpdateBucket(id, k)))
  {
    UpdateBucketShape(s, id, k);
    forall u { UpdateBucketUser(s, id, k, u); }
    OtherTablesKept(s, Commit(s, UpdateBucket(id, k)));
  }

  lemma DeleteBucketKeeps(s: State, id: string)
    requires Consistent(s) && Accepts(s, DeleteBucket(id))
    ensures Consistent(Commit(s, DeleteBucket(id)))
  {
    hide Sum, Filter;
    var s' := Commit(s, DeleteBucket(id));
    var i := Find(s.buckets, id);
    var was := s.buckets[i];
    RemoveFacts(s.buckets, id);
    assert was.row.user in s.users;
    forall u ensures UserAmounts(s'.balances, u) == UserFigures(s', u) {
      SumNonNegative(s'.buckets, BucketGb(u));
      SumRemoved(s.buckets, i, BucketGb(u));
      assert UserAmounts(s.balances, u) == UserFigures(s, u);
    }
    OtherTablesKept(s, s');
  }

  /** Transfer and bucket requests touch neither claims, nor node rows, nor the trail. */
  lemma OtherTablesKept(s: State, s': State)
    requires NodesAgree(s) && TrailAgrees(s)
    requires s'.claims == s.claims && s'.audit == s.audit && s'.balances.nodes == s.balances.nodes
    ensures NodesAgree(s') && TrailAgrees(s')
  {
    forall u, n ensures NodeAt(s'.balances, u, n) == NodeFigures(s', u, n) {
      assert NodeAt(s.balances, u, n) == NodeFigures(s, u, n);
    }
    forall id ensures Sum(s'.audit, IdDelta(id)) == Sum(s'.claims, IdGb(id)) {
      assert Sum(s.audit, IdDelta(id)) == Sum(s.claims, IdGb(id));
    }
  }

  // ---- deleting a user ------------------------------------------------------------------

  lemma {:induction false} ReversedSum<T(!new)>(s: seq<T>, weight: T -> real)
    ensures Sum(Reversed(s), weight) == Sum(s, weight)
  {
    if s != [] {
      ReversedSum(s[..|s| - 1], weight);
      SumConcat([s[|s| - 1]], Reversed(s[..|s| - 1]), weight);
      SumSnoc([], s[|s| - 1], weight);
      assert [] + [s[|s| - 1]] == [s[|s| - 1]];
    }
  }

  lemma {:induction false} CascadeAuditSum(snapshots: seq<Rec<Claim>>, id: string)
    ensures Sum(CascadeAudit(snapshots), IdDelta(id)) == -Sum(snapshots, IdGb(id))
  {
    if snapshots != [] {
      var rest, c := snapshots[..|snapshots| - 1], snapshots[|snapshots| - 1];
      CascadeAuditSum(rest, id);
      SumSnoc(CascadeAudit(rest), AuditOf(Deleted, c.id, c.row, c.row.gb, 0.0, true), IdDelta(id));
    }
  }

  /** The transfers the database cascades away with `u`: each has `u` on one side. */
  ghost predicate Snapshots(snapshots: seq<Rec<Transfer>>, u: UserId) {
    forall t :: t in snapshots
        ==> (t.row.from == u || t.row.to == u) && t.row.from != "" && t.row.to != "" && t.row.gb >= 0.0
  }

  /** However the figures stand, clamping at every step comes to clamping once at the end. */
  lemma {:induction false} UnwindClamped(b: Balances, snapshots: seq<Rec<Transfer>>, u: UserId, v: UserId)
    requires Snapshots(snapshots, u) && u != v
    requires UserAt(b, v).sent >= 0.0 && UserAt(b, v).received >= 0.0
    ensures UserAt(Unwind(b, snapshots, u), v)
         == UserAt(b, v).(sent := Max(UserAt(b, v).sent - Sum(snapshots, SentGb(v)), 0.0),
                          received := Max(UserAt(b, v).received - Sum(snapshots, ReceivedGb(v)), 0.0))
  {
    if snapshots != [] {
      var rest, t := snapshots[..|snapshots| - 1], snapshots[|snapshots| - 1];
      assert t in snapshots;
      assert Snapshots(rest, u) by { assert forall x :: x in rest ==> x in snapshots; }
      UnwindClamped(b, rest, u, v);
    }
  }

  /** Unwinding takes from each survivor exactly what the dropped transfers had given them; the
      clamp at zero never bites because what is left is still a sum of transfers. */
  lemma UnwindAt(b: Balances, snapshots: seq<Rec<Transfer>>, u: UserId, v: UserId)
    requires Snapshots(snapshots, u) && u != v
    requires UserAt(b, v).sent >= Sum(snapshots, SentGb(v))
    requires UserAt(b, v).received >= Sum(snapshots, ReceivedGb(v))
    ensures UserAt(Unwind(b, snapshots, u), v)
         == UserAt(b, v).(sent := UserAt(b, v).sent - Sum(snapshots, SentGb(v)),
                          received := UserAt(b, v).received - Sum(snapshots, ReceivedGb(v)))
  {
    SumNonNegative(snapshots, SentGb(v));
    SumNonNegative(snapshots, ReceivedGb(v));
    UnwindClamped(b, snapshots, u, v);
  }

  lemma {:induction false} UnwindRows(b: Balances, snapshots: seq<Rec<Transfer>>, u: UserId, users: set<UserId>)
    requires b.users.Keys <= users
    requires PartiesStand(users, snapshots, u)
    ensures Unwind(b, snapshots, u).nodes == b.nodes
    ensures b.users.Keys <= Unwind(b, snapshots, u).users.Keys <= users
  {
    if snapshots != [] {
      assert snapshots[|snapshots| - 1] in snapshots;
      UnwindRows(b, snapshots[..|snapshots| - 1], u, users);
    }
  }

  lemma DeleteUserShape(s: State, u: UserId)
    requires WellFormed(s) && RowsFit(s) && Accepts(s, DeleteUser(u))
    ensures var s' := Commit(s, DeleteUser(u)); WellFormed(s') && RowsFit(s')
    ensures Commit(s, DeleteUser(u)).balances.nodes == DropUser(s, u).balances.nodes
    ensures u !in Commit(s, DeleteUser(u)).balances.users
  {
    hide Sum, Filter, CascadeAudit, Unwind;
    var s' := Commit(s, DeleteUser(u));
    FilterMembers(s.claims, ClaimsNotOf(u));
    FilterMembers(s.transfers, TransfersNotOf(u));
    FilterMembers(s.transfers, TransfersOf(u));
    FilterKeepsUniqueIds(s.claims, ClaimsNotOf(u));
    FilterKeepsUniqueIds(s.transfers, TransfersNotOf(u));
    UnwindRows(DropUser(s, u).balances, Filter(s.transfers, TransfersOf(u)), u, s'.users.Keys);
    assert forall k :: k in s'.buckets ==> ValidBucket(s', k.row);
  }

  lemma DeleteUserNode(s: State, u: UserId, v: UserId, n: NodeId)
    requires WellFormed(s) && RowsFit(s) && NodesAgree(s) && Accepts(s, DeleteUser(u))
    ensures var s' := Commit(s, DeleteUser(u)); NodeAt(s'.balances, v, n) == NodeFigures(s', v, n)
  {
    var gone, kept := Filter(s.claims, ClaimsOf(u)), Filter(s.claims, ClaimsNotOf(u));
    DeleteUserShape(s, u);
    FilterMembers(s.claims, ClaimsOf(u));
    FilterMembers(s.claims, ClaimsNotOf(u));
    CountIsSum(kept, OfPair(v, n));
    if u == v {
      SumZero(kept, PairGb(v, n));
      SumZero(kept, Indicator(OfPair(v, n)));
    } else {
      SumPartition(s.claims, ClaimsOf(u), ClaimsNotOf(u), PairGb(v, n));
      SumPartition(s.claims, ClaimsOf(u), ClaimsNotOf(u), Indicator(OfPair(v, n)));
      SumZero(gone, PairGb(v, n));
      SumZero(gone, Indicator(OfPair(v, n)));
      CountIsSum(s.claims, OfPair(v, n));
      assert NodeAt(s.balances, v, n) == NodeFigures(s, v, n);
    }
  }

  lemma DeleteUserClaims(s: State, u: UserId, v: UserId)
    ensures Sum(Filter(s.claims, ClaimsNotOf(u)), UserGb(v)) == if u == v then 0.0 else Sum(s.claims, UserGb(v))
  {
    FilterMembers(s.claims, ClaimsOf(u));
    FilterMembers(s.claims, ClaimsNotOf(u));
    if u == v {
      SumZero(Filter(s.claims, ClaimsNotOf(u)), UserGb(v));
    } else {
      SumPartition(s.claims, ClaimsOf(u), ClaimsNotOf(u), UserGb(v));
      SumZero(Filter(s.claims, ClaimsOf(u)), UserGb(v));
    }
  }

  lemma DeleteUserTransfers(s: State, u: UserId, v: UserId)
    requires WellFormed(s)
    ensures u == v ==> Sum(Filter(s.transfers, TransfersNotOf(u)), SentGb(v)) == 0.0
    ensures u == v ==> Sum(Filter(s.transfers, TransfersNotOf(u)), ReceivedGb(v)) == 0.0
    ensures Sum(s.transfers, SentGb(v))
        == Sum(Filter(s.transfers, TransfersOf(u)), SentGb(v)) + Sum(Filter(s.transfers, TransfersNotOf(u)), SentGb(v))
    ensures Sum(s.transfers, ReceivedGb(v)) == Sum(Filter(s.transfers, TransfersOf(u)), ReceivedGb(v))
        + Sum(Filter(s.transfers, TransfersNotOf(u)), ReceivedGb(v))
    ensures Sum(Filter(s.transfers, TransfersNotOf(u)), SentGb(v)) >= 0.0
    ensures Sum(Filter(s.transfers, TransfersNotOf(u)), ReceivedGb(v)) >= 0.0
    ensures "" !in s.users ==> Snapshots(Filter(s.transfers, TransfersOf(u)), u)
  {
    var kept := Filter(s.transfers, TransfersNotOf(u));
    FilterMembers(s.transfers, TransfersOf(u));
    FilterMembers(s.transfers, TransfersNotOf(u));
    SumPartition(s.transfers, TransfersOf(u), TransfersNotOf(u), SentGb(v));
    SumPartition(s.transfers, TransfersOf(u), TransfersNotOf(u), ReceivedGb(v));
    SumNonNegative(kept, SentGb(v));
    SumNonNegative(kept, ReceivedGb(v));
    if u == v {
      SumZero(kept, SentGb(v));
      SumZero(kept, ReceivedGb(v));
    }
  }

  lemma SurvivorUnwound(s: State, u: UserId, v: UserId)
    requires WellFormed(s) && UsersAgree(s) && u != v
    ensures UserAt(CascadeUser(s, u).balances, v)
         == UserAt(s.balances, v).(
               sent := Sum(Filter(s.transfers, TransfersNotOf(u)), SentGb(v)),
               received := Sum(Filter(s.transfers, TransfersNotOf(u)), ReceivedGb(v)))
  {
    DeleteUserTransfers(s, u, v);
    assert UserAmounts(s.balances, v) == UserFigures(s, v);
    assert "" !in s.users;
    UnwindAt(DropUser(s, u).balances, Filter(s.transfers, TransfersOf(u)), u, v);
  }

  lemma DeleteUserUser(s: State, u: UserId, v: UserId)
    requires WellFormed(s) && RowsFit(s) && UsersAgree(s) && Accepts(s, DeleteUser(u))
    ensures var s' := Commit(s, DeleteUser(u)); UserAmounts(s'.balances, v) == UserFigures(s', v)
  {
    DeleteUserClaims(s, u, v);
    if u == v {
      DeleteUserShape(s, u);
      DeleteUserTransfers(s, u, v);
      SumZero(s.buckets, BucketGb(v));
    } else {
      SurvivorUnwound(s, u, v);
      assert UserAmounts(s.balances, v) == UserFigures(s, v);
    }
  }

  lemma DeleteUserTrail(s: State, u: UserId)
    requires TrailAgrees(s) && Accepts(s, DeleteUser(u))
    ensures TrailAgrees(Commit(s, DeleteUser(u)))
  {
    var s' := Commit(s, DeleteUser(u));
    var gone := Filter(s.claims, ClaimsOf(u));
    forall id ensures Sum(s'.audit, IdDelta(id)) == Sum(s'.claims, IdGb(id)) {
      SumConcat(s.audit, CascadeAudit(Reversed(gone)), IdDelta(id));
      CascadeAuditSum(Reversed(gone), id);
      ReversedSum(gone, IdGb(id));
      SumPartition(s.claims, ClaimsOf(u), ClaimsNotOf(u), IdGb(id));
      assert Sum(s.audit, IdDelta(id)) == Sum(s.claims, IdGb(id));
    }
  }

  lemma DeleteUserKeeps(s: State, u: UserId)
    requires Consistent(s) && Accepts(s, DeleteUser(u))
    ensures Consistent(Commit(s, DeleteUser(u)))
  {
    DeleteUserShape(s, u);
    forall v, n { DeleteUserNode(s, u, v, n); }
    forall v { DeleteUserUser(s, u, v); }
    DeleteUserTrail(s, u);
  }

  // ---- the recomputation ----------------------------------------------------------------

  lemma PairIn(claims: seq<Rec<Claim>>, c: Rec<Claim>)
    requires c in claims && c.row.user != "" && c.row.node != ""
    ensures (c.row.user, c.row.node) in Pairs(claims)
  {
    var i :| 0 <= i < |claims| && claims[i] == c;
    assert (claims[i].row.user, claims[i].row.node) in Pairs(claims);
  }

  lemma NodeFiguresOutside(s: State, u: UserId, n: NodeId)
    requires WellFormed(s) && (u, n) !in Pairs(s.claims)
    ensures NodeFigures(s, u, n) == NO_NODE_ROW
  {
    forall c | c in s.claims ensures !OfPair(u, n)(c) {
      assert c.row.user in s.users;
      PairIn(s.claims, c);
    }
    SumZero(s.claims, PairGb(u, n));
    FilterNone(s.claims, OfPair(u, n));
  }

  lemma UserFiguresOutside(s: State, u: UserId)
    requires WellFormed(s) && u !in Slots(s)
    ensures UserFigures(s, u) == NO_USER_ROW
  {
    assert "" !in s.users;
    forall c | c in s.claims ensures UserGb(u)(c) == 0.0 {
      var i :| 0 <= i < |s.claims| && s.claims[i] == c;
      assert s.claims[i].row.user in s.users;
      assert s.claims[i].row.user in Slots(s);
    }
    forall t | t in s.transfers ensures SentGb(u)(t) == 0.0 && ReceivedGb(u)(t) == 0.0 {
      var i :| 0 <= i < |s.transfers| && s.transfers[i] == t;
      assert s.transfers[i].row.from in s.users && s.transfers[i].row.to in s.users;
      assert s.transfers[i].row.from in Slots(s) && s.transfers[i].row.to in Slots(s);
    }
    forall k | k in s.buckets ensures BucketGb(u)(k) == 0.0 {
      var i :| 0 <= i < |s.buckets| && s.buckets[i] == k;
      assert s.buckets[i].row.user in s.users;
      assert s.buckets[i].row.user in Slots(s);
    }
    SumZero(s.claims, UserGb(u));
    SumZero(s.transfers, SentGb(u));
    SumZero(s.transfers, ReceivedGb(u));
    SumZero(s.buckets, BucketGb(u));
  }

  lemma RebuildShape(s: State)
    requires WellFormed(s)
    ensures WellFormed(s.(balances := Recomputed(s))) && RowsFit(s.(balances := Recomputed(s)))
  {
    assert "" !in s.users;
    forall c | c in s.claims ensures (c.row.user, c.row.node) in Pairs(s.claims) && c.row.user in Slots(s) {
      assert c.row.user in s.users;
      var i :| 0 <= i < |s.claims| && s.claims[i] == c;
      PairIn(s.claims, c);
      assert s.claims[i].row.user in Slots(s);
    }
    forall u | u in Slots(s) ensures u in s.users { }
    forall p | p in Pairs(s.claims) ensures p.0 in s.users && p.1 != "" { }
  }

  /** From any stored balances, and whatever drift is noted. */
  lemma {:induction false} RebuildAgrees(s: State, noted: map<UserId, real>)
    requires WellFormed(s) && Accepts(s, Rebuild(noted))
    ensures
      var t := Commit(s, Rebuild(noted));
      WellFormed(t) && RowsFit(t) && NodesAgree(t) && UsersAgree(t)
  {
    hide Sum, Filter, Slots, Pairs, Drifts, NodeFigures;
    var s' := Commit(s, Rebuild(noted));
    RebuildShape(s);
    SameLedgerSameFigures(s, s'.balances);
    forall u, n ensures NodeAt(s'.balances, u, n) == NodeFigures(s', u, n) {
      if (u, n) !in Pairs(s.claims) { NodeFiguresOutside(s, u, n); }
    }
    forall u ensures UserAmounts(s'.balances, u) == UserFigures(s', u) {
      if u !in Slots(s) { UserFiguresOutside(s, u); }
    }
  }

  lemma {:induction false} RebuildKeeps(s: State, noted: map<UserId, real>)
    requires WellFormed(s) && TrailAgrees(s) && Accepts(s, Rebuild(noted))
    ensures Consistent(Commit(s, Rebuild(noted)))
  {
    hide WellFormed, RowsFit, NodesAgree, UsersAgree, Drifts, Recomputed;
    RebuildAgrees(s, noted);
    TrailStays(s, Commit(s, Rebuild(noted)));
  }

  lemma SlotsHaveAccounts(s: State)
    requires WellFormed(s)
    ensures forall p :: p in Pairs(s.claims) ==> p.0 in s.users && p.1 != ""
    ensures forall u :: u in Slots(s) ==> u in s.users
  {
    hide Sum, Filter;
  }

  lemma ClaimHasSlots(s: State, c: Rec<Claim>)
    requires WellFormed(s) && c in s.claims
    ensures (c.row.user, c.row.node) in Pairs(s.claims) && c.row.user in Slots(s)
  {
    assert c.row.user in s.users;
    var i :| 0 <= i < |s.claims| && s.claims[i] == c;
    PairIn(s.claims, c);
    assert s.claims[i].row.user in Slots(s);
  }

  lemma SameLedgerSameFigures(s: State, b: Balances)
    ensures forall u, n :: NodeFigures(s.(balances := b), u, n) == NodeFigures(s, u, n)
    ensures forall u :: UserFigures(s.(balances := b), u) == UserFigures(s, u)
  { }

  /** A single write of the recomputation, whichever others it made before. */
  lemma RowWriteKeeps(s: State, b: Balances, w: RowWrite)
    requires Consistent(s.(balances := b)) && Planned(s, w)
    ensures Consistent(s.(balances := WriteRow(s, b, w)))
  {
    hide Sum, Filter, Slots, Pairs, NodeFigures, UserFigures;
    var t, t' := s.(balances := b), s.(balances := WriteRow(s, b, w));
    SlotsHaveAccounts(t);
    forall c | c in s.claims ensures (c.row.user, c.row.node) in Pairs(s.claims) && c.row.user in Slots(s) {
      SameSlots(s, b);
      ClaimHasSlots(t, c);
    }
    SameSlots(s, b);
    SameLedgerSameFigures(s, b);
    SameLedgerSameFigures(s, t'.balances);
    if w.DropNode? { NodeFiguresOutside(t, w.user, w.node); }
    if w.DropUserRow? { UserFiguresOutside(t, w.user); }
    forall u, n ensures NodeAt(t'.balances, u, n) == NodeFigures(t', u, n) {
      assert NodeAt(b, u, n) == NodeFigures(t, u, n);
    }
    forall u ensures UserAmounts(t'.balances, u) == UserFigures(t', u) {
      assert UserAmounts(b, u) == UserFigures(t, u);
    }
    TrailStays(t, t');
  }

  lemma SameSlots(s: State, b: Balances)
    ensures Slots(s.(balances := b)) == Slots(s) && Pairs(s.(balances := b).claims) == Pairs(s.claims)
  { }

  lemma TrailStays(s: State, t: State)
    requires TrailAgrees(s) && t.audit == s.audit && t.claims == s.claims
    ensures TrailAgrees(t)
  {
    forall id ensures Sum(t.audit, IdDelta(id)) == Sum(t.claims, IdGb(id)) {
      assert Sum(s.audit, IdDelta(id)) == Sum(s.claims, IdGb(id));
    }
  }

  /** Wherever a recomputation stops, the rows it wrote and the rows it did not all agree. */
  lemma {:induction false} StoppedRebuildKeeps(s: State, writes: seq<RowWrite>)
    requires Consistent(s) && forall w :: w in writes ==> Planned(s, w)
    ensures Consistent(s.(balances := Written(s, s.balances, writes)))
  {
    hide Consistent, Planned, WriteRow;
    if writes == [] {
      assert s.(balances := s.balances) == s;
    } else {
      var rest := writes[..|writes| - 1];
      assert writes[|writes| - 1] in writes;
      assert forall w :: w in rest ==> w in writes;
      StoppedRebuildKeeps(s, rest);
      RowWriteKeeps(s, Written(s, s.balances, rest), writes[|writes| - 1]);
    }
  }

  /** From any stored balances a stopped recomputation only ever puts figures right: each figure
      is afterwards what it was or what the ledgers say, and a new drift is noted only on the row
      of a user whom something was off for. */
  lemma {:induction false} StoppedRebuildNeverHarms(s: State, writes: seq<RowWrite>, u: UserId, n: NodeId)
    requires WellFormed(s) && forall w :: w in writes ==> Planned(s, w)
    ensures
      var b := Written(s, s.balances, writes);
      && (NodeAt(b, u, n) == NodeAt(s.balances, u, n) || NodeAt(b, u, n) == NodeFigures(s, u, n))
      && (UserAmounts(b, u) == UserAmounts(s.balances, u) || UserAmounts(b, u) == UserFigures(s, u))
      && (UserAt(b, u).lastDrift in {0.0, UserAt(s.balances, u).lastDrift} || Drifts(s, u))
  {
    hide Sum, Filter, Slots, Pairs, NodeFigures, WellFormed, Drifts;
    if writes != [] {
      var rest, w := writes[..|writes| - 1], writes[|writes| - 1];
      assert w in writes;
      assert forall x :: x in rest ==> x in writes;
      StoppedRebuildNeverHarms(s, rest, u, n);
      if w.DropNode? { NodeFiguresOutside(s, w.user, w.node); }
      if w.DropUserRow? { UserFiguresOutside(s, w.user); }
    }
  }

  // ---- runs -----------------------------------------------------------------------------

  /** Sign-ups and administrator changes leave ledgers, balances and trail alone. */
  lemma AccountsKeep(s: State, op: Op)
    requires Consistent(s) && Accepts(s, op)
    requires op.SignUp? || op.AddAdmin? || op.MoveAdmin? || op.RemoveAdmin?
    ensures Consistent(Commit(s, op))
  {
    var s' := Commit(s, op);
    assert s'.claims == s.claims && s'.transfers == s.transfers && s'.buckets == s.buckets;
    OtherTablesKept(s, s');
    forall u ensures UserAmounts(s'.balances, u) == UserFigures(s', u) {
      assert UserAmounts(s.balances, u) == UserFigures(s, u);
    }
  }

  lemma {:induction false} StepKeeps(s: State, r: Request)
    requires Consistent(s)
    ensures Consistent(Step(s, r))
  {
    if r.commits && Accepts(s, r.op) {
      match r.op
      case CreateClaim(id, c) => CreateClaimKeeps(s, id, c);
      case UpdateClaim(id, c) => UpdateClaimKeeps(s, id, c);
      case DeleteClaim(id) => DeleteClaimKeeps(s, id);
      case CreateTransfer(id, t) => CreateTransferKeeps(s, id, t);
      case DeleteTransfer(id) => DeleteTransferKeeps(s, id);
      case CreateBucket(id, k) => CreateBucketKeeps(s, id, k);
      case UpdateBucket(id, k) => UpdateBucketKeeps(s, id, k);
      case DeleteBucket(id) => DeleteBucketKeeps(s, id);
      case DeleteUser(u) => DeleteUserKeeps(s, u);
      case Rebuild(noted) => RebuildKeeps(s, noted);
      case StoppedRebuild(writes) => StoppedRebuildKeeps(s, writes);
      case SignUp(_, _, _) => AccountsKeep(s, r.op);
      case AddAdmin(_) => AccountsKeep(s, r.op);
      case MoveAdmin(_, _) => AccountsKeep(s, r.op);
      case RemoveAdmin(_) => AccountsKeep(s, r.op);
    }
  }

  lemma {:induction false} RunKeeps(s: State, requests: seq<Request>)
    requires Consistent(s)
    ensures Consistent(Run(s, requests))
  {
    if requests != [] {
      RunKeeps(s, requests[..|requests| - 1]);
      StepKeeps(Run(s, requests[..|requests| - 1]), requests[|requests| - 1]);
    }
  }
}
