/** What a hook may remember wrongly and still leave balances and trail right: the exact condition
    for every request, whatever committed between its reading and its transaction. */
module Stale {
  import opened Sums
  import opened Tables
  import opened Ledger
  import opened LedgerInvariant
  import opened Overlap

  /** Rows the database once let in, which is all a hook can have read. */
  ghost predicate Plausible(op: Op, seen: Preimage) {
    && (seen.OfTransfer? ==> seen.transfer.from != "" && seen.transfer.to != "" && seen.transfer.gb >= 0.0)
    && (seen.OfBucket? ==> seen.bucket.user != "" && seen.bucket.gb >= 0.0)
    && (op.DeleteUser? && seen.OfUser? ==> Snapshots(seen.transfers, op.user))
  }

  lemma ReadIsPlausible(s: State, op: Op)
    requires WellFormed(s)
    ensures Plausible(op, Read(s, op))
  {
    hide Filter, Reversed;
    assert "" !in s.users;
    if op.DeleteUser? { FilterMembers(s.transfers, TransfersOf(op.user)); }
  }

  /** Taking `seen` off a figure that is clamped at zero leaves what taking `stored` off would. */
  predicate ClampRight(figure: real, seen: real, stored: real) {
    seen == stored || (seen > stored && figure == stored)
  }

  lemma ClampRightIff(figure: real, seen: real, stored: real)
    requires 0.0 <= seen && 0.0 <= stored <= figure
    ensures ClampRight(figure, seen, stored) <==> Max(figure - seen, 0.0) == figure - stored
  { }

  /** What the request remembers is right where it counts. A claim must be remembered as it is.
      The figures of transfers and buckets are clamped at zero, so there a remembered amount that
      is too large does no harm to a figure that has nothing left to lose. */
  ghost predicate Holds(s: State, op: Op, seen: Preimage)
    requires Goes(s, op, seen)
  {
    match op
    case UpdateClaim(id, _) => seen.claim == Get(s.claims, id)
    case DeleteClaim(id) => seen.claim == Get(s.claims, id)
    case DeleteTransfer(id) => forall v :: TransferHolds(s, seen.transfer, Get(s.transfers, id), v)
    case UpdateBucket(id, k) => forall v :: BucketHolds(s, seen.bucket, Get(s.buckets, id), k, v)
    case DeleteBucket(id) => forall v :: BucketHolds(s, seen.bucket, Get(s.buckets, id), Bucket("", 0.0), v)
    case DeleteUser(u) =>
      && (forall v :: v != u ==> CascadeHolds(s, u, seen.transfers, v))
      && (forall id :: Sum(seen.claims, IdGb(id)) == Sum(Filter(s.claims, ClaimsOf(u)), IdGb(id)))
    case _ => true
  }

  ghost predicate TransferHolds(s: State, was: Transfer, stored: Transfer, v: UserId) {
    var figures := UserAt(s.balances, v);
    && ClampRight(figures.sent, if was.from == v then was.gb else 0.0, if stored.from == v then stored.gb else 0.0)
    && ClampRight(figures.received, if was.to == v then was.gb else 0.0, if stored.to == v then stored.gb else 0.0)
  }

  ghost predicate BucketHolds(s: State, was: Bucket, stored: Bucket, k: Bucket, v: UserId) {
    ClampRight(UserAt(s.balances, v).reserved + if k.user == v then k.gb else 0.0,
               if was.user == v then was.gb else 0.0, if stored.user == v then stored.gb else 0.0)
  }

  ghost predicate CascadeHolds(s: State, u: UserId, transfers: seq<Rec<Transfer>>, v: UserId) {
    var figures, gone := UserAt(s.balances, v), Filter(s.transfers, TransfersOf(u));
    && ClampRight(figures.sent, Sum(transfers, SentGb(v)), Sum(gone, SentGb(v)))
    && ClampRight(figures.received, Sum(transfers, ReceivedGb(v)), Sum(gone, ReceivedGb(v)))
  }

  // ---- claims ---------------------------------------------------------------------------

  lemma StaleUpdateBreaksPair(s: State, id: string, c: Claim, was: Claim)
    requires Consistent(s) && Goes(s, UpdateClaim(id, c), OfClaim(was)) && was != Get(s.claims, id)
    ensures
      var s' := CommitSeen(s, UpdateClaim(id, c), OfClaim(was));
      var stored := Get(s.claims, id);
      NodeAt(s'.balances, stored.user, stored.node) != NodeFigures(s', stored.user, stored.node)
  {
    hide Sum, Filter, Savable;
    var stored, i := Get(s.claims, id), Find(s.claims, id);
    UpdateClaimShape(s, id, c);
    SumReplaced(s.claims, i, Rec(id, c), PairGb(stored.user, stored.node));
    CountReplaced(s.claims, i, Rec(id, c), OfPair(stored.user, stored.node));
    assert NodeAt(s.balances, stored.user, stored.node) == NodeFigures(s, stored.user, stored.node);
  }

  /** An update that goes through keeps balances and trail right if and only if the claim still is
      as remembered. One that does not, because the claim used to belong to an account that is
      gone, changes nothing. */
  lemma StaleUpdateIff(s: State, id: string, c: Claim, was: Claim)
    requires Consistent(s) && Accepts(s, UpdateClaim(id, c))
    ensures
      Consistent(StepSeen(s, Request(UpdateClaim(id, c), true), OfClaim(was)))
      <==> (Savable(s, UpdateClaim(id, c), OfClaim(was)) ==> was == Get(s.claims, id))
  {
    hide Sum, Filter, WellFormed, RowsFit, UsersAgree, TrailAgrees, NodeFigures, MoveClaim, Savable;
    if was == Get(s.claims, id) {
      CurrentIsCommit(s, UpdateClaim(id, c));
      UpdateClaimKeeps(s, id, c);
    } else if Savable(s, UpdateClaim(id, c), OfClaim(was)) {
      StaleUpdateBreaksPair(s, id, c, was);
    }
  }

  lemma StaleDeleteBreaksPair(s: State, id: string, was: Claim)
    requires Consistent(s) && Goes(s, DeleteClaim(id), OfClaim(was)) && was != Get(s.claims, id)
    ensures
      var s' := CommitSeen(s, DeleteClaim(id), OfClaim(was));
      var stored := Get(s.claims, id);
      NodeAt(s'.balances, stored.user, stored.node) != NodeFigures(s', stored.user, stored.node)
  {
    hide Sum, Filter, Savable;
    var stored, i := Get(s.claims, id), Find(s.claims, id);
    SumRemoved(s.claims, i, PairGb(stored.user, stored.node));
    CountRemoved(s.claims, i, OfPair(stored.user, stored.node));
    assert NodeAt(s.balances, stored.user, stored.node) == NodeFigures(s, stored.user, stored.node);
  }

  /** The same for a delete. */
  lemma StaleDeleteIff(s: State, id: string, was: Claim)
    requires Consistent(s) && Accepts(s, DeleteClaim(id))
    ensures
      Consistent(StepSeen(s, Request(DeleteClaim(id), true), OfClaim(was)))
      <==> (Savable(s, DeleteClaim(id), OfClaim(was)) ==> was == Get(s.claims, id))
  {
    hide Sum, Filter, WellFormed, RowsFit, UsersAgree, TrailAgrees, NodeFigures, ClaimDelta, Savable;
    if was == Get(s.claims, id) {
      CurrentIsCommit(s, DeleteClaim(id));
      DeleteClaimKeeps(s, id);
    } else if Savable(s, DeleteClaim(id), OfClaim(was)) {
      StaleDeleteBreaksPair(s, id, was);
    }
  }

  // ---- transfers ------------------------------------------------------------------------

  lemma OnlyUsersMatter(s: State, op: Op, seen: Preimage)
    requires Consistent(s) && Goes(s, op, seen)
    requires op.DeleteTransfer? || op.UpdateBucket? || op.DeleteBucket?
    ensures Consistent(CommitSeen(s, op, seen)) <==> UsersAgree(CommitSeen(s, op, seen))
  {
    hide Sum, Filter, Savable, WellFormed, UsersAgree, Accepts, NodesAgree, TrailAgrees;
    CommitWellFormed(s, op, seen);
    CommitOwned(s, op, seen);
    OtherTablesKept(s, CommitSeen(s, op, seen));
  }

  lemma StaleTransferAt(s: State, id: string, was: Transfer, v: UserId)
    requires Consistent(s) && Goes(s, DeleteTransfer(id), OfTransfer(was))
    requires Plausible(DeleteTransfer(id), OfTransfer(was))
    ensures
      var s' := CommitSeen(s, DeleteTransfer(id), OfTransfer(was));
      UserAmounts(s'.balances, v) == UserFigures(s', v) <==> TransferHolds(s, was, Get(s.transfers, id), v)
  {
    hide Sum, Filter, Savable, TransferDelta, RowsFit, NodesAgree, TrailAgrees;
    var i := Find(s.transfers, id);
    SumRemoved(s.transfers, i, SentGb(v));
    SumRemoved(s.transfers, i, ReceivedGb(v));
    assert UserAmounts(s.balances, v) == UserFigures(s, v);
    assert s.transfers[i] in s.transfers;
    MemberWithin(s.transfers, s.transfers[i], SentGb(v));
    MemberWithin(s.transfers, s.transfers[i], ReceivedGb(v));
    ClampRightIff(UserAt(s.balances, v).sent, SentGb(v)(Rec(id, was)), SentGb(v)(s.transfers[i]));
    ClampRightIff(UserAt(s.balances, v).received, ReceivedGb(v)(Rec(id, was)), ReceivedGb(v)(s.transfers[i]));
    MovedTransfer(s.balances, was, v);
  }

  lemma MovedTransfer(b: Balances, was: Transfer, v: UserId)
    requires was.from != "" && was.to != "" && UserAt(b, v).sent >= 0.0 && UserAt(b, v).received >= 0.0
    ensures
      UserAt(TransferDelta(b, was.from, was.to, -was.gb), v)
      == UserAt(b, v).(sent := Max(UserAt(b, v).sent - (if was.from == v then was.gb else 0.0), 0.0),
                       received := Max(UserAt(b, v).received - (if was.to == v then was.gb else 0.0), 0.0))
  { }

  /** A deleted transfer keeps balances and trail right if and only if every party's figure is
      right under its clamp. */
  lemma StaleTransferIff(s: State, id: string, was: Transfer)
    requires Consistent(s) && Goes(s, DeleteTransfer(id), OfTransfer(was))
    requires Plausible(DeleteTransfer(id), OfTransfer(was))
    ensures
      Consistent(CommitSeen(s, DeleteTransfer(id), OfTransfer(was)))
      <==> Holds(s, DeleteTransfer(id), OfTransfer(was))
  {
    hide Consistent, UserAmounts, UserFigures, CommitSeen, TransferHolds, Goes;
    OnlyUsersMatter(s, DeleteTransfer(id), OfTransfer(was));
    forall v { StaleTransferAt(s, id, was, v); }
  }

  // ---- buckets --------------------------------------------------------------------------

  lemma StaleBucketAt(s: State, id: string, k: Bucket, was: Bucket, v: UserId)
    requires Consistent(s) && Goes(s, UpdateBucket(id, k), OfBucket(was))
    requires Plausible(UpdateBucket(id, k), OfBucket(was))
    ensures
      var s' := CommitSeen(s, UpdateBucket(id, k), OfBucket(was));
      UserAmounts(s'.balances, v) == UserFigures(s', v) <==> BucketHolds(s, was, Get(s.buckets, id), k, v)
  {
    hide Sum, Filter, Savable;
    var i, now := Find(s.buckets, id), if k.user == v then k.gb else 0.0;
    SumReplaced(s.buckets, i, Rec(id, k), BucketGb(v));
    assert UserAmounts(s.balances, v) == UserFigures(s, v);
    assert k.user != "" by { assert k.user in s.users; }
    assert s.buckets[i] in s.buckets;
    MemberWithin(s.buckets, s.buckets[i], BucketGb(v));
    ClampRightIff(UserAt(s.balances, v).reserved + now, BucketGb(v)(Rec(id, was)), BucketGb(v)(s.buckets[i]));
    MovedReserved(s.balances, was, k, v);
  }

  lemma MovedReserved(b: Balances, was: Bucket, k: Bucket, v: UserId)
    requires was.user != "" && k.user != "" && was.gb >= 0.0 && k.gb >= 0.0 && UserAt(b, v).reserved >= 0.0
    ensures
      UserAt(MoveBucket(b, was, k), v)
      == UserAt(b, v).(reserved := Max(UserAt(b, v).reserved + (if k.user == v then k.gb else 0.0)
                                       - if was.user == v then was.gb else 0.0, 0.0))
  { }

  /** A changed bucket keeps balances and trail right if and only if the figures of the remembered,
      the stored and the new owner are right under their clamp. */
  lemma StaleBucketIff(s: State, id: string, k: Bucket, was: Bucket)
    requires Consistent(s) && Goes(s, UpdateBucket(id, k), OfBucket(was))
    requires Plausible(UpdateBucket(id, k), OfBucket(was))
    ensures
      Consistent(CommitSeen(s, UpdateBucket(id, k), OfBucket(was)))
      <==> Holds(s, UpdateBucket(id, k), OfBucket(was))
  {
    hide Consistent, UserAmounts, UserFigures, CommitSeen, BucketHolds, Goes;
    OnlyUsersMatter(s, UpdateBucket(id, k), OfBucket(was));
    forall v { StaleBucketAt(s, id, k, was, v); }
  }

  lemma StaleBucketGoneAt(s: State, id: string, was: Bucket, v: UserId)
    requires Consistent(s) && Goes(s, DeleteBucket(id), OfBucket(was))
    requires Plausible(DeleteBucket(id), OfBucket(was))
    ensures
      var s' := CommitSeen(s, DeleteBucket(id), OfBucket(was));
      UserAmounts(s'.balances, v) == UserFigures(s', v)
      <==> BucketHolds(s, was, Get(s.buckets, id), Bucket("", 0.0), v)
  {
    hide Sum, Filter, Savable;
    var i := Find(s.buckets, id);
    SumRemoved(s.buckets, i, BucketGb(v));
    assert UserAmounts(s.balances, v) == UserFigures(s, v);
    assert s.buckets[i] in s.buckets;
    MemberWithin(s.buckets, s.buckets[i], BucketGb(v));
    ClampRightIff(UserAt(s.balances, v).reserved, BucketGb(v)(Rec(id, was)), BucketGb(v)(s.buckets[i]));
  }

  lemma StaleBucketGoneIff(s: State, id: string, was: Bucket)
    requires Consistent(s) && Goes(s, DeleteBucket(id), OfBucket(was))
    requires Plausible(DeleteBucket(id), OfBucket(was))
    ensures
      Consistent(CommitSeen(s, DeleteBucket(id), OfBucket(was)))
      <==> Holds(s, DeleteBucket(id), OfBucket(was))
  {
    hide Consistent, UserAmounts, UserFigures, CommitSeen, BucketHolds, Goes;
    OnlyUsersMatter(s, DeleteBucket(id), OfBucket(was));
    forall v { StaleBucketGoneAt(s, id, was, v); }
  }

  // ---- the deletion cascade -------------------------------------------------------------

  lemma StaleCascadeShape(s: State, u: UserId, seen: Preimage)
    requires Consistent(s) && Goes(s, DeleteUser(u), seen)
    ensures
      var s' := CommitSeen(s, DeleteUser(u), seen);
      && WellFormed(s') && RowsFit(s') && NodesAgree(s')
      && u !in s'.balances.users && s'.balances.nodes == Commit(s, DeleteUser(u)).balances.nodes
  {
    hide Sum, Filter, Unwind, CascadeAudit, WellFormed, NodeFigures;
    var s', t := CommitSeen(s, DeleteUser(u), seen), Commit(s, DeleteUser(u));
    CommitWellFormed(s, DeleteUser(u), seen);
    FilterMembers(s.claims, ClaimsNotOf(u));
    UnwindRows(DropUser(s, u).balances, seen.transfers, u, s.users.Keys - {u});
    DeleteUserShape(s, u);
    forall v, n ensures NodeAt(s'.balances, v, n) == NodeFigures(s', v, n) {
      DeleteUserNode(s, u, v, n);
      SameClaimsSameNode(s', t, v, n);
    }
  }

  lemma SameClaimsSameNode(s: State, t: State, u: UserId, n: NodeId)
    requires s.claims == t.claims
    ensures NodeFigures(s, u, n) == NodeFigures(t, u, n)
  { }

  lemma StaleCascadeAt(s: State, u: UserId, seen: Preimage, v: UserId)
    requires Consistent(s) && Goes(s, DeleteUser(u), seen) && Plausible(DeleteUser(u), seen)
    ensures
      var s' := CommitSeen(s, DeleteUser(u), seen);
      UserAmounts(s'.balances, v) == UserFigures(s', v) <==> v == u || CascadeHolds(s, u, seen.transfers, v)
  {
    hide Sum, Filter, Unwind, CascadeAudit, RowsFit, TrailAgrees, NodesAgree, Savable, PartiesStand;
    DeleteUserClaims(s, u, v);
    DeleteUserTransfers(s, u, v);
    if v == u {
      StaleCascadeShape(s, u, seen);
      SumZero(s.buckets, BucketGb(v)) by { NoBucketOf(s, u); }
    } else {
      var gone := Filter(s.transfers, TransfersOf(u));
      assert UserAmounts(s.balances, v) == UserFigures(s, v);
      GoneNonNegative(s, u, v);
      SumNonNegative(seen.transfers, SentGb(v));
      SumNonNegative(seen.transfers, ReceivedGb(v));
      UnwindClamped(DropUser(s, u).balances, seen.transfers, u, v);
      ClampRightIff(UserAt(s.balances, v).sent, Sum(seen.transfers, SentGb(v)), Sum(gone, SentGb(v)));
      ClampRightIff(UserAt(s.balances, v).received, Sum(seen.transfers, ReceivedGb(v)), Sum(gone, ReceivedGb(v)));
    }
  }

  lemma NoBucketOf(s: State, u: UserId)
    requires Accepts(s, Op.DeleteUser(u))
    ensures forall k :: k in s.buckets ==> k.row.user != u
  { }

  lemma GoneNonNegative(s: State, u: UserId, v: UserId)
    requires WellFormed(s)
    ensures
      var gone := Filter(s.transfers, TransfersOf(u));
      Sum(gone, SentGb(v)) >= 0.0 && Sum(gone, ReceivedGb(v)) >= 0.0
  {
    FilterMembers(s.transfers, TransfersOf(u));
    SumNonNegative(Filter(s.transfers, TransfersOf(u)), SentGb(v));
    SumNonNegative(Filter(s.transfers, TransfersOf(u)), ReceivedGb(v));
  }

  lemma StaleCascadeTrail(s: State, u: UserId, seen: Preimage, id: string)
    requires TrailAgrees(s) && Goes(s, DeleteUser(u), seen)
    ensures
      var s' := CommitSeen(s, DeleteUser(u), seen);
      Sum(s'.audit, IdDelta(id)) == Sum(s'.claims, IdGb(id))
      <==> Sum(seen.claims, IdGb(id)) == Sum(Filter(s.claims, ClaimsOf(u)), IdGb(id))
  {
    hide CommitSeen, Filter, Goes;
    GapMoves(s, DeleteUser(u), seen, id);
    assert Sum(s.audit, IdDelta(id)) == Sum(s.claims, IdGb(id));
  }

  /** A deletion keeps balances and trail right if and only if what it remembers of the user's
      claims adds up, id by id, to what there is, and every survivor's figures are right under
      their clamp: the remembered transfers add up to the current ones, or to more while the
      survivor has nothing but those. */
  lemma StaleCascadeIff(s: State, u: UserId, seen: Preimage)
    requires Consistent(s) && Goes(s, DeleteUser(u), seen) && Plausible(DeleteUser(u), seen)
    ensures Consistent(CommitSeen(s, DeleteUser(u), seen)) <==> Holds(s, DeleteUser(u), seen)
  {
    hide UserAmounts, UserFigures, CommitSeen, CascadeHolds, Goes, WellFormed, RowsFit, NodesAgree, Sum, Filter;
    StaleCascadeShape(s, u, seen);
    forall v { StaleCascadeAt(s, u, seen, v); }
    forall id { StaleCascadeTrail(s, u, seen, id); }
  }

  // ---- every request --------------------------------------------------------------------

  /** Whatever its hook remembers, a request that goes through keeps balances and trail right if
      and only if it remembers right where it counts. */
  lemma CommitSeenIff(s: State, op: Op, seen: Preimage)
    requires Consistent(s) && Goes(s, op, seen) && Plausible(op, seen)
    ensures Consistent(CommitSeen(s, op, seen)) <==> Holds(s, op, seen)
  {
    hide Consistent, Plausible, CommitSeen, Commit, Accepts, Savable;
    match op
    case UpdateClaim(id, c) => StaleUpdateIff(s, id, c, seen.claim);
    case DeleteClaim(id) => StaleDeleteIff(s, id, seen.claim);
    case DeleteTransfer(id) => StaleTransferIff(s, id, seen.transfer);
    case UpdateBucket(id, k) => StaleBucketIff(s, id, k, seen.bucket);
    case DeleteBucket(id) => StaleBucketGoneIff(s, id, seen.bucket);
    case DeleteUser(u) => StaleCascadeIff(s, u, seen);
    case RemoveAdmin(_) => CountedKeeps(s, op, seen);
    case SignUp(_, _, _) => CountedKeeps(s, op, seen);
    case _ => StatelessKeeps(s, op, seen);
  }

  lemma StatelessKeeps(s: State, op: Op, seen: Preimage)
    requires Consistent(s) && Goes(s, op, seen)
    requires op.CreateClaim? || op.CreateTransfer? || op.CreateBucket? || op.Rebuild? || op.StoppedRebuild?
             || op.AddAdmin? || op.MoveAdmin?
    ensures Consistent(CommitSeen(s, op, seen))
  {
    hide Consistent, Commit, Accepts, Savable;
    StepKeeps(s, Request(op, true));
  }

  /** Whatever count was read, ledgers, balances and trail are left alone. */
  lemma CountedKeeps(s: State, op: Op, seen: Preimage)
    requires Consistent(s) && Goes(s, op, seen) && (op.RemoveAdmin? || op.SignUp?)
    ensures Consistent(CommitSeen(s, op, seen))
  {
    hide Sum, Filter, WellFormed, Promotes;
    var s' := CommitSeen(s, op, seen);
    CommitWellFormed(s, op, seen);
    CommitOwned(s, op, seen);
    OtherTablesKept(s, s');
    forall v ensures UserAmounts(s'.balances, v) == UserFigures(s', v) {
      assert UserAmounts(s.balances, v) == UserFigures(s, v);
    }
  }

  /** What was read and is still so is always right. */
  lemma ReadHolds(s: State, op: Op)
    requires WellFormed(s) && Goes(s, op, Read(s, op))
    ensures Holds(s, op, Read(s, op))
  {
    hide Sum, Filter, Reversed, WellFormed, Savable;
    if op.DeleteUser? {
      forall id { ReversedSum(Filter(s.claims, ClaimsOf(op.user)), IdGb(id)); }
    }
  }
}
