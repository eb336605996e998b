/** Requests that overlap. The hooks read the row a request is about to change before they open
    the transaction (pocketbase/pb_hooks/main.pb.js), so another request may commit in between. */
module Overlap {
  import opened Sums
  import opened Tables
  import opened SignupGate
  import opened Ledger
  import opened LedgerInvariant
  import opened AuditTrail

  // ---- what a hook remembers ------------------------------------------------------------

  datatype Preimage = Nothing | OfClaim(claim: Claim) | OfTransfer(transfer: Transfer) | OfBucket(bucket: Bucket)
                    | OfUser(claims: seq<Rec<Claim>>, transfers: seq<Rec<Transfer>>) | OfCount(count: nat)

  /** What the hook of `op` reads before its transaction opens. */
  function Read(s: State, op: Op): Preimage {
    match op
    case UpdateClaim(id, _) => if Has(s.claims, id) then OfClaim(Get(s.claims, id)) else Nothing
    case DeleteClaim(id) => if Has(s.claims, id) then OfClaim(Get(s.claims, id)) else Nothing
    case DeleteTransfer(id) => if Has(s.transfers, id) then OfTransfer(Get(s.transfers, id)) else Nothing
    case UpdateBucket(id, _) => if Has(s.buckets, id) then OfBucket(Get(s.buckets, id)) else Nothing
    case DeleteBucket(id) => if Has(s.buckets, id) then OfBucket(Get(s.buckets, id)) else Nothing
    case DeleteUser(u) => OfUser(Reversed(Filter(s.claims, ClaimsOf(u))), Filter(s.transfers, TransfersOf(u)))
    case RemoveAdmin(_) => OfCount(|s.admins|)
    case SignUp(_, _, _) => OfCount(|s.admins|)
    case _ => Nothing
  }

  /** The hook found what it needs; a request for a missing record ends before the hook runs. The
      last-administrator guard and the sign-up gate decide here, on the count they read. */
  predicate Loaded(op: Op, seen: Preimage) {
    match op
    case UpdateClaim(_, _) => seen.OfClaim?
    case DeleteClaim(_) => seen.OfClaim?
    case DeleteTransfer(_) => seen.OfTransfer?
    case UpdateBucket(_, _) => seen.OfBucket?
    case DeleteBucket(_) => seen.OfBucket?
    case DeleteUser(_) => seen.OfUser?
    case RemoveAdmin(_) => seen.OfCount? && seen.count > 1
    case SignUp(_, signup, _) => seen.OfCount? && DecideSignup(signup, seen.count).allow
    case _ => true
  }

  /** Which pair a claim counts towards. */
  predicate SamePair(c: Claim, d: Claim) {
    c.user == d.user && c.node == d.node
  }

  /** Every balance row that is saved for a remembered owner belongs to an account that is still
      there; the database refuses the others, and the transaction rolls back. */
  predicate Savable(s: State, op: Op, seen: Preimage)
    requires Loaded(op, seen)
  {
    var users := s.users.Keys;
    match op
    case UpdateClaim(_, c) => SamePair(seen.claim, c) || seen.claim.node == "" || Stands(users, seen.claim.user)
    case DeleteClaim(_) => seen.claim.node == "" || Stands(users, seen.claim.user)
    case DeleteTransfer(_) =>
      seen.transfer.gb == 0.0 || (Stands(users, seen.transfer.from) && Stands(users, seen.transfer.to))
    case UpdateBucket(_, k) => seen.bucket.user == k.user || seen.bucket.gb == 0.0 || Stands(users, seen.bucket.user)
    case DeleteBucket(_) => seen.bucket.gb == 0.0 || Stands(users, seen.bucket.user)
    case DeleteUser(u) => PartiesStand(users - {u}, seen.transfers, u)
    case _ => true
  }

  /** The request goes through on what its hook remembers. Guard and gate do not count again; the
      guard of a deleted account runs inside the transaction. */
  predicate Goes(s: State, op: Op, seen: Preimage) {
    && Loaded(op, seen)
    && match op
       case RemoveAdmin(u) => u in s.admins
       case SignUp(u, _, _) => u !in s.users && ValidUserId(u)
       case _ => Accepts(s, op) && Savable(s, op, seen)
  }

  /** What the transaction of `op` commits when the hook remembers `seen`. */
  function CommitSeen(s: State, op: Op, seen: Preimage): State
    requires Goes(s, op, seen)
  {
    match op
    case UpdateClaim(id, c) =>
      s.(claims := Replace(s.claims, id, c),
         audit := s.audit + [AuditOf(Updated, id, c, seen.claim.gb, c.gb, false)],
         balances := MoveClaim(s.balances, seen.claim, c))
    case DeleteClaim(id) =>
      var was := seen.claim;
      s.(claims := Remove(s.claims, id),
         audit := s.audit + [AuditOf(Deleted, id, was, was.gb, 0.0, false)],
         balances := ClaimDelta(s.balances, was.user, was.node, -was.gb, -1))
    case DeleteTransfer(id) =>
      var was := seen.transfer;
      s.(transfers := Remove(s.transfers, id), balances := TransferDelta(s.balances, was.from, was.to, -was.gb))
    case UpdateBucket(id, k) =>
      s.(buckets := Replace(s.buckets, id, k), balances := MoveBucket(s.balances, seen.bucket, k))
    case DeleteBucket(id) =>
      s.(buckets := Remove(s.buckets, id),
         balances := AllocationDelta(s.balances, seen.bucket.user, -seen.bucket.gb))
    case DeleteUser(u) =>
      var dropped := DropUser(s, u);
      dropped.(balances := Unwind(dropped.balances, seen.transfers, u),
               audit := s.audit + CascadeAudit(seen.claims))
    case RemoveAdmin(u) => s.(admins := s.admins - {u})
    case SignUp(u, signup, promotionSaves) =>
      s.(users := s.users[u := signup.email],
         admins := if promotionSaves && Promotes(s, signup) then s.admins + {u} else s.admins)
    case _ => Commit(s, op)
  }

  function StepSeen(s: State, r: Request, seen: Preimage): State {
    if r.commits && Goes(s, r.op, seen) then CommitSeen(s, r.op, seen) else s
  }

  /** A hook whose row nobody changed in between commits what an undisturbed one would. */
  lemma CurrentIsCommit(s: State, op: Op)
    requires WellFormed(s) && Accepts(s, op)
    ensures Goes(s, op, Read(s, op)) && CommitSeen(s, op, Read(s, op)) == Commit(s, op)
  {
    hide Filter, Unwind, CascadeAudit, Reversed, DropUser;
    if op.DeleteUser? { FilterMembers(s.transfers, TransfersOf(op.user)); }
  }

  /** What the deletion hook remembers are exactly the user's claims, newest first, and exactly the
      transfers the user is a party of. */
  lemma {:induction false} DeletionRemembers(s: State, u: UserId)
    ensures
      var seen := Read(s, DeleteUser(u));
      && seen.OfUser?
      && (forall c :: c in seen.claims <==> c in s.claims && c.row.user == u)
      && (forall t :: t in seen.transfers <==> t in s.transfers && (t.row.from == u || t.row.to == u))
      && (forall i, j :: 0 <= i < j < |seen.claims| ==> Precedes(s.claims, seen.claims[j], seen.claims[i]))
  {
    hide Filter, Reversed;
    var gone := Filter(s.claims, ClaimsOf(u));
    FilterMembers(s.claims, ClaimsOf(u));
    FilterMembers(s.transfers, TransfersOf(u));
    ReversedMembers(gone);
    forall i, j | 0 <= i < j < |gone| ensures Precedes(s.claims, Reversed(gone)[j], Reversed(gone)[i]) {
      ReversedAt(gone, i);
      ReversedAt(gone, j);
      FilterInOrder(s.claims, ClaimsOf(u), |gone| - 1 - j, |gone| - 1 - i);
    }
  }

  ghost predicate Precedes<T>(s: seq<T>, x: T, y: T) {
    exists i, j :: 0 <= i < j < |s| && s[i] == x && s[j] == y
  }

  lemma {:induction false} FilterInOrder<T(!new)>(s: seq<T>, keep: T -> bool, i: nat, j: nat)
    requires i < j < |Filter(s, keep)|
    ensures Precedes(s, Filter(s, keep)[i], Filter(s, keep)[j])
  {
    var rest, kept := s[..|s| - 1], Filter(s[..|s| - 1], keep);
    if j < |kept| {
      FilterInOrder(rest, keep, i, j);
      var a, b :| 0 <= a < b < |rest| && rest[a] == kept[i] && rest[b] == kept[j];
      assert s[a] == kept[i] && s[b] == kept[j];
    } else {
      FilterMembers(rest, keep);
      assert kept[i] in rest;
      var a :| 0 <= a < |rest| && rest[a] == kept[i];
      assert s[a] == kept[i] && s[|s| - 1] == Filter(s, keep)[j];
    }
  }

  // ---- the trail ------------------------------------------------------------------------

  /** How far trail and ledger are apart on the claim `id`. */
  ghost function IdGap(s: State, id: string): real {
    Sum(s.audit, IdDelta(id)) - Sum(s.claims, IdGb(id))
  }

  /** The part of the claim's change that a stale pre-image leaves out of the trail. */
  ghost function Missed(s: State, op: Op, seen: Preimage, id: string): real
    requires Goes(s, op, seen)
  {
    match op
    case UpdateClaim(i, _) => if i == id then Get(s.claims, i).gb - seen.claim.gb else 0.0
    case DeleteClaim(i) => if i == id then Get(s.claims, i).gb - seen.claim.gb else 0.0
    case DeleteUser(u) => Sum(Filter(s.claims, ClaimsOf(u)), IdGb(id)) - Sum(seen.claims, IdGb(id))
    case _ => 0.0
  }

  lemma GapMoves(s: State, op: Op, seen: Preimage, id: string)
    requires Goes(s, op, seen)
    ensures IdGap(CommitSeen(s, op, seen), id) == IdGap(s, id) + Missed(s, op, seen, id)
  {
    hide Sum, Filter, Savable;
    match op
    case UpdateClaim(i, c) =>
      SumReplaced(s.claims, Find(s.claims, i), Rec(i, c), IdGb(id));
      SumSnoc(s.audit, AuditOf(Updated, i, c, seen.claim.gb, c.gb, false), IdDelta(id));
    case DeleteClaim(i) =>
      SumRemoved(s.claims, Find(s.claims, i), IdGb(id));
      SumSnoc(s.audit, AuditOf(Deleted, i, seen.claim, seen.claim.gb, 0.0, false), IdDelta(id));
    case DeleteUser(u) => CascadeGap(s, u, seen.claims, id);
    case RemoveAdmin(_) =>
    case SignUp(_, _, _) =>
    case _ => CommitKeepsGap(s, op, id);
  }

  lemma CascadeGap(s: State, u: UserId, claims: seq<Rec<Claim>>, id: string)
    ensures Sum(s.audit + CascadeAudit(claims), IdDelta(id)) - Sum(Filter(s.claims, ClaimsNotOf(u)), IdGb(id))
         == IdGap(s, id) + Sum(Filter(s.claims, ClaimsOf(u)), IdGb(id)) - Sum(claims, IdGb(id))
  {
    SumConcat(s.audit, CascadeAudit(claims), IdDelta(id));
    CascadeAuditSum(claims, id);
    SumPartition(s.claims, ClaimsOf(u), ClaimsNotOf(u), IdGb(id));
  }

  lemma CommitKeepsGap(s: State, op: Op, id: string)
    requires Accepts(s, op)
    ensures IdGap(Commit(s, op), id) == IdGap(s, id)
  {
    hide Sum, Filter;
    match op
    case CreateClaim(i, c) =>
      SumSnoc(s.claims, Rec(i, c), IdGb(id));
      SumSnoc(s.audit, AuditOf(Created, i, c, 0.0, c.gb, false), IdDelta(id));
    case UpdateClaim(i, c) =>
      SumReplaced(s.claims, Find(s.claims, i), Rec(i, c), IdGb(id));
      SumSnoc(s.audit, AuditOf(Updated, i, c, Get(s.claims, i).gb, c.gb, false), IdDelta(id));
    case DeleteClaim(i) =>
      var was := Get(s.claims, i);
      SumRemoved(s.claims, Find(s.claims, i), IdGb(id));
      SumSnoc(s.audit, AuditOf(Deleted, i, was, was.gb, 0.0, false), IdDelta(id));
    case DeleteUser(u) =>
      CascadeGap(s, u, Reversed(Filter(s.claims, ClaimsOf(u))), id);
      ReversedSum(Filter(s.claims, ClaimsOf(u)), IdGb(id));
    case _ =>
  }

  // ---- well-formed tables ---------------------------------------------------------------

  lemma CommitWellFormed(s: State, op: Op, seen: Preimage)
    requires WellFormed(s) && Goes(s, op, seen)
    ensures WellFormed(CommitSeen(s, op, seen))
  {
    hide *;
    match op
    case CreateClaim(_, _) => ClaimsWellFormed(s, op, seen);
    case UpdateClaim(_, _) => ClaimsWellFormed(s, op, seen);
    case DeleteClaim(_) => ClaimsWellFormed(s, op, seen);
    case CreateTransfer(_, _) => TransfersWellFormed(s, op, seen);
    case DeleteTransfer(_) => TransfersWellFormed(s, op, seen);
    case CreateBucket(_, _) => BucketsWellFormed(s, op, seen);
    case UpdateBucket(_, _) => BucketsWellFormed(s, op, seen);
    case DeleteBucket(_) => BucketsWellFormed(s, op, seen);
    case DeleteUser(u) => CascadeWellFormed(s, op, seen);
    case _ => AccountsWellFormed(s, op, seen);
  }

  lemma ClaimsWellFormed(s: State, op: Op, seen: Preimage)
    requires WellFormed(s) && Goes(s, op, seen)
    requires op.CreateClaim? || op.UpdateClaim? || op.DeleteClaim?
    ensures WellFormed(CommitSeen(s, op, seen))
  {
    hide ClaimDelta, MoveClaim, Find, Get, UniqueIds, Insert, Replace, Remove, Savable;
    match op
    case CreateClaim(id, c) => InsertFacts(s.claims, id, c);
    case UpdateClaim(id, c) => ReplaceFacts(s.claims, id, c);
    case DeleteClaim(id) => RemoveFacts(s.claims, id);
  }

  lemma TransfersWellFormed(s: State, op: Op, seen: Preimage)
    requires WellFormed(s) && Goes(s, op, seen)
    requires op.CreateTransfer? || op.DeleteTransfer?
    ensures WellFormed(CommitSeen(s, op, seen))
  {
    hide TransferDelta, Find, Get, UniqueIds, Insert, Replace, Remove, Savable;
    match op
    case CreateTransfer(id, t) => InsertFacts(s.transfers, id, t);
    case DeleteTransfer(id) => RemoveFacts(s.transfers, id);
  }

  lemma BucketsWellFormed(s: State, op: Op, seen: Preimage)
    requires WellFormed(s) && Goes(s, op, seen)
    requires op.CreateBucket? || op.UpdateBucket? || op.DeleteBucket?
    ensures WellFormed(CommitSeen(s, op, seen))
  {
    hide AllocationDelta, MoveBucket, Find, Get, UniqueIds, Insert, Replace, Remove, Savable;
    match op
    case CreateBucket(id, k) => InsertFacts(s.buckets, id, k);
    case UpdateBucket(id, k) => ReplaceFacts(s.buckets, id, k);
    case DeleteBucket(id) => RemoveFacts(s.buckets, id);
  }

  lemma CascadeWellFormed(s: State, op: Op, seen: Preimage)
    requires WellFormed(s) && Goes(s, op, seen) && op.DeleteUser?
    ensures WellFormed(CommitSeen(s, op, seen))
  {
    hide Unwind, CascadeAudit, DropUser, Savable;
    DropWellFormed(s, op.user);
  }

  lemma AccountsWellFormed(s: State, op: Op, seen: Preimage)
    requires WellFormed(s) && Goes(s, op, seen)
    requires op.Rebuild? || op.StoppedRebuild? || op.SignUp? || op.AddAdmin? || op.MoveAdmin? || op.RemoveAdmin?
    ensures WellFormed(CommitSeen(s, op, seen))
  {
    hide Recomputed, Written, Planned, UniqueIds, Drifts, Annotated, Savable;
  }

  lemma DropWellFormed(s: State, u: UserId)
    requires WellFormed(s) && Accepts(s, Op.DeleteUser(u))
    ensures WellFormed(DropUser(s, u))
  {
    hide Filter;
    FilterMembers(s.claims, ClaimsNotOf(u));
    FilterMembers(s.transfers, TransfersNotOf(u));
    FilterKeepsUniqueIds(s.claims, ClaimsNotOf(u));
    FilterKeepsUniqueIds(s.transfers, TransfersNotOf(u));
    forall k | k in s.buckets ensures k.row.user != u {
      var i :| 0 <= i < |s.buckets| && s.buckets[i] == k;
    }
  }

  // ---- no balance row outlives its user --------------------------------------------------

  lemma ClaimWithin(b: Balances, users: set<UserId>, u: UserId, n: NodeId, gb: real, entries: int)
    requires RowsWithin(b, users) && (n == "" || Stands(users, u))
    ensures RowsWithin(ClaimDelta(b, u, n, gb, entries), users)
  { }

  lemma TransferWithin(b: Balances, users: set<UserId>, from: UserId, to: UserId, gb: real)
    requires RowsWithin(b, users) && (gb == 0.0 || (Stands(users, from) && Stands(users, to)))
    ensures RowsWithin(TransferDelta(b, from, to, gb), users)
  { }

  lemma AllocationWithin(b: Balances, users: set<UserId>, u: UserId, gb: real)
    requires RowsWithin(b, users) && (gb == 0.0 || Stands(users, u))
    ensures RowsWithin(AllocationDelta(b, u, gb), users)
  { }

  lemma CommitOwned(s: State, op: Op, seen: Preimage)
    requires WellFormed(s) && RowsOwned(s) && Goes(s, op, seen)
    ensures RowsOwned(CommitSeen(s, op, seen))
  {
    hide Sum, Filter, Unwind, CascadeAudit, Drifts, WellFormed, Recomputed, Written, Find, RowsWithin;
    hide ClaimDelta, TransferDelta, AllocationDelta;
    var b, users := s.balances, s.users.Keys;
    match op
    case CreateClaim(_, c) => ClaimWithin(b, users, c.user, c.node, c.gb, 1);
    case UpdateClaim(_, c) =>
      var was := seen.claim;
      if SamePair(was, c) {
        ClaimWithin(b, users, c.user, c.node, c.gb - was.gb, 0);
      } else {
        ClaimWithin(b, users, was.user, was.node, -was.gb, -1);
        ClaimWithin(ClaimDelta(b, was.user, was.node, -was.gb, -1), users, c.user, c.node, c.gb, 1);
      }
    case DeleteClaim(_) => ClaimWithin(b, users, seen.claim.user, seen.claim.node, -seen.claim.gb, -1);
    case CreateTransfer(_, t) => TransferWithin(b, users, t.from, t.to, t.gb);
    case DeleteTransfer(_) => TransferWithin(b, users, seen.transfer.from, seen.transfer.to, -seen.transfer.gb);
    case CreateBucket(_, k) => AllocationWithin(b, users, k.user, k.gb);
    case UpdateBucket(_, k) =>
      var was := seen.bucket;
      AllocationWithin(b, users, k.user, k.gb - was.gb);
      if was.user != k.user {
        AllocationWithin(b, users, was.user, -was.gb);
        AllocationWithin(AllocationDelta(b, was.user, -was.gb), users, k.user, k.gb);
      }
    case DeleteBucket(_) => AllocationWithin(b, users, seen.bucket.user, -seen.bucket.gb);
    case _ => AccountsOwned(s, op, seen);
  }

  lemma AccountsOwned(s: State, op: Op, seen: Preimage)
    requires WellFormed(s) && RowsOwned(s) && Goes(s, op, seen)
    requires op.DeleteUser? || op.Rebuild? || op.StoppedRebuild? || op.SignUp? || op.AddAdmin? || op.MoveAdmin?
             || op.RemoveAdmin?
    ensures RowsOwned(CommitSeen(s, op, seen))
  {
    hide Sum, Filter, Unwind, CascadeAudit, Drifts, WellFormed, Recomputed, Written, OwnsBucket, Planned, Promotes;
    match op
    case DeleteUser(u) => UnwindRows(DropUser(s, u).balances, seen.transfers, u, s.users.Keys - {u});
    case Rebuild(noted) => RebuildShape(s);
    case StoppedRebuild(writes) => WritesOwned(s, writes);
    case _ =>
  }

  lemma {:induction false} WritesOwned(s: State, writes: seq<RowWrite>)
    requires WellFormed(s) && RowsOwned(s) && forall w :: w in writes ==> Planned(s, w)
    ensures RowsOwned(s.(balances := Written(s, s.balances, writes)))
  {
    hide Sum, Filter, Drifts, Slots, Pairs, WellFormed;
    if writes != [] {
      var rest, w := writes[..|writes| - 1], writes[|writes| - 1];
      assert w in writes;
      assert forall x :: x in rest ==> x in writes;
      WritesOwned(s, rest);
      SlotsHaveAccounts(s);
    }
  }
}
