/** The record hooks as they run: the row is read, then a transaction opens in which the hook
    writes and writes again, and which a failing save rolls back (pocketbase/pb_hooks/main.pb.js,
    lib/record-tx.js). What was read is a parameter here, since other requests may have committed
    in between; `Load` is the reading. */
module Store {
  import opened Sums
  import opened Tables
  import opened SignupGate
  import opened Ledger
  import opened LedgerInvariant
  import opened AuditTrail
  import opened Overlap

  class Database {
    var users: map<UserId, string>
    var admins: set<UserId>
    var claims: seq<Rec<Claim>>
    var transfers: seq<Rec<Transfer>>
    var buckets: seq<Rec<Bucket>>
    var nodeRows: map<(UserId, NodeId), NodeRow>
    var userRows: map<UserId, UserRow>
    var audit: seq<AuditRow>

    function Now(): State
      reads this
    {
      State(users, admins, claims, transfers, buckets, Balances(nodeRows, userRows), audit)
    }

    constructor ()
      ensures Now() == EMPTY
    {
      users, admins := map[], {};
      claims, transfers, buckets := [], [], [];
      nodeRows, userRows := map[], map[];
      audit := [];
    }

    // ---- transactions -------------------------------------------------------------------

    /** Undo every write since `saved` was taken. */
    method Rollback(saved: State)
      modifies this
      ensures Now() == saved
    {
      users, admins := saved.users, saved.admins;
      claims, transfers, buckets := saved.claims, saved.transfers, saved.buckets;
      nodeRows, userRows := saved.balances.nodes, saved.balances.users;
      audit := saved.audit;
    }

    // ---- the writers the hooks share ----------------------------------------------------

    /** `fails` is a save that throws: some of the writes have then already happened. A row is
        never saved for an account that is gone. */
    method ApplyClaimDelta(u: UserId, n: NodeId, gb: real, entries: int, fails: bool) returns (ok: bool)
      modifies `nodeRows, `userRows
      ensures ok ==> Now() == old(Now()).(balances := ClaimDelta(old(Now().balances), u, n, gb, entries))
      ensures ok ==> n == "" || Stands(users.Keys, u)
      ensures !fails && (n == "" || Stands(users.Keys, u)) ==> ok
    {
      if u == "" || n == "" {
        return true;
      }
      if u !in users {
        return false;
      }
      var node := if (u, n) in nodeRows then nodeRows[(u, n)] else NO_NODE_ROW;
      var count := node.entries + entries;
      if count < 0 {
        count := 0;
      }
      nodeRows := nodeRows[(u, n) := NodeRow(node.claimed + gb, count)];
      if fails {
        return false;
      }
      var user := if u in userRows then userRows[u] else NO_USER_ROW;
      userRows := userRows[u := user.(claims := user.claims + gb)];
      ok := true;
    }

    method ApplyTransferDelta(from: UserId, to: UserId, gb: real, fails: bool) returns (ok: bool)
      modifies `userRows
      ensures ok ==> Now() == old(Now()).(balances := TransferDelta(old(Now().balances), from, to, gb))
      ensures ok ==> gb == 0.0 || (Stands(users.Keys, from) && Stands(users.Keys, to))
      ensures !fails && (gb == 0.0 || (Stands(users.Keys, from) && Stands(users.Keys, to))) ==> ok
    {
      if gb == 0.0 {
        return true;
      }
      if from != "" {
        if from !in users {
          return false;
        }
        var sender := if from in userRows then userRows[from] else NO_USER_ROW;
        userRows := userRows[from := sender.(sent := Max(sender.sent + gb, 0.0))];
      }
      if fails {
        return false;
      }
      if to != "" {
        if to !in users {
          return false;
        }
        var receiver := if to in userRows then userRows[to] else NO_USER_ROW;
        userRows := userRows[to := receiver.(received := Max(receiver.received + gb, 0.0))];
      }
      ok := true;
    }

    method ApplyAllocationDelta(u: UserId, gb: real, fails: bool) returns (ok: bool)
      modifies `userRows
      ensures ok ==> Now() == old(Now()).(balances := AllocationDelta(old(Now().balances), u, gb))
      ensures ok ==> gb == 0.0 || Stands(users.Keys, u)
      ensures !fails && (gb == 0.0 || Stands(users.Keys, u)) ==> ok
    {
      if u == "" || gb == 0.0 {
        return true;
      }
      if fails || u !in users {
        return false;
      }
      var user := if u in userRows then userRows[u] else NO_USER_ROW;
      userRows := userRows[u := user.(reserved := Max(user.reserved + gb, 0.0))];
      ok := true;
    }

    method WriteClaimAudit(action: Action, id: string, claim: Claim, previousGb: real, newGb: real, cascade: bool,
                           fails: bool)
      returns (ok: bool)
      modifies `audit
      ensures ok ==>
        Now() == old(Now()).(audit := old(audit) + [AuditOf(action, id, claim, previousGb, newGb, cascade)])
      ensures ok ==> |audit| == |old(audit)| + 1 && audit[..|old(audit)|] == old(audit)
      ensures ok ==>
        var row := audit[|old(audit)|];
        && row.action == action && row.claimId == id && row.user == claim.user && row.node == claim.node
        && row.previousGb == previousGb && row.newGb == newGb && row.deltaGb == newGb - previousGb
        && row.cascade == cascade
      ensures ok == !fails
    {
      if fails {
        return false;
      }
      audit := audit + [AuditRow(action, id, claim.user, claim.node, previousGb, newGb, newGb - previousGb, cascade)];
      ok := true;
    }

    // ---- claims -------------------------------------------------------------------------

    method CreateClaim(id: string, claim: Claim, auditFails: bool, balanceFails: bool) returns (ok: bool)
      modifies this
      ensures ok ==> Accepts(old(Now()), Op.CreateClaim(id, claim))
      ensures Now() == Step(old(Now()), Request(Op.CreateClaim(id, claim), ok))
      ensures !auditFails && !balanceFails ==>
        ok == (!Has(old(claims), id) && claim.user in old(users) && claim.node != "")
      ensures ok ==>
        && claims == old(claims) + [Rec(id, claim)]
        && audit == old(audit) + [AuditRow(Created, id, claim.user, claim.node, 0.0, claim.gb, claim.gb, false)]
    {
      var saved := Now();
      ok := !Has(claims, id) && claim.user in users && claim.node != "";
      if ok {
        claims := claims + [Rec(id, claim)];
        ok := WriteClaimAudit(Created, id, claim, 0.0, claim.gb, false, auditFails);
        if ok {
          ok := ApplyClaimDelta(claim.user, claim.node, claim.gb, 1, balanceFails);
        }
      }
      if !ok {
        Rollback(saved);
      }
    }

    /** `before` is the claim as the hook read it. `awayFails` is the save that takes a re-pointed
        claim off its old pair. */
    method UpdateClaim(id: string, claim: Claim, before: Claim, auditFails: bool, awayFails: bool, balanceFails: bool)
      returns (ok: bool)
      modifies this
      ensures ok ==> Goes(old(Now()), Op.UpdateClaim(id, claim), OfClaim(before))
      ensures Now() == StepSeen(old(Now()), Request(Op.UpdateClaim(id, claim), ok), OfClaim(before))
      ensures !auditFails && !awayFails && !balanceFails ==>
        ok == (&& Has(old(claims), id) && claim.user in old(users) && claim.node != ""
               && ((before.user == claim.user && before.node == claim.node)
                   || before.user == "" || before.node == "" || before.user in old(users)))
      ensures ok ==>
        && (forall i :: 0 <= i < |claims| == |old(claims)| ==>
              claims[i] == if i == Find(old(claims), id) then Rec(id, claim) else old(claims)[i])
        && audit == old(audit) + [AuditRow(Updated, id, claim.user, claim.node, before.gb, claim.gb,
                                           claim.gb - before.gb, false)]
    {
      hide ClaimDelta;
      var saved := Now();
      ok := Has(claims, id) && claim.user in users && claim.node != "";
      if ok {
        claims := claims[Find(claims, id) := Rec(id, claim)];
        ok := WriteClaimAudit(Updated, id, claim, before.gb, claim.gb, false, auditFails);
      }
      if ok {
        if before.user == claim.user && before.node == claim.node {
          ok := ApplyClaimDelta(claim.user, claim.node, claim.gb - before.gb, 0, balanceFails);
        } else {
          ok := ApplyClaimDelta(before.user, before.node, -before.gb, -1, awayFails);
          if ok {
            ok := ApplyClaimDelta(claim.user, claim.node, claim.gb, 1, balanceFails);
          }
        }
      }
      if !ok {
        Rollback(saved);
      }
    }

    method DeleteClaim(id: string, before: Claim, auditFails: bool, balanceFails: bool) returns (ok: bool)
      modifies this
      ensures ok ==> Goes(old(Now()), Op.DeleteClaim(id), OfClaim(before))
      ensures Now() == StepSeen(old(Now()), Request(Op.DeleteClaim(id), ok), OfClaim(before))
      ensures !auditFails && !balanceFails ==>
        ok == (Has(old(claims), id) && (before.user == "" || before.node == "" || before.user in old(users)))
      ensures ok ==>
        && (exists i :: 0 <= i < |old(claims)| && old(claims)[i].id == id
                        && claims == old(claims)[..i] + old(claims)[i + 1..])
        && audit == old(audit) + [AuditRow(Deleted, id, before.user, before.node, before.gb, 0.0, -before.gb, false)]
    {
      if !Has(claims, id) {
        return false;
      }
      var saved := Now();
      claims := Remove(claims, id);
      ok := WriteClaimAudit(Deleted, id, before, before.gb, 0.0, false, auditFails);
      if ok {
        ok := ApplyClaimDelta(before.user, before.node, -before.gb, -1, balanceFails);
      }
      if !ok {
        Rollback(saved);
      }
    }

    // ---- transfers ----------------------------------------------------------------------

    method CreateTransfer(id: string, transfer: Transfer, balanceFails: bool) returns (ok: bool)
      modifies this
      ensures ok ==> Accepts(old(Now()), Op.CreateTransfer(id, transfer))
      ensures Now() == Step(old(Now()), Request(Op.CreateTransfer(id, transfer), ok))
      ensures !balanceFails ==>
        ok == (&& !Has(old(transfers), id) && transfer.from in old(users) && transfer.to in old(users)
               && (transfer.gb == 0.0 || transfer.gb >= 0.001))
      ensures ok ==> transfers == old(transfers) + [Rec(id, transfer)]
    {
      var saved := Now();
      ok := !Has(transfers, id) && transfer.from in users && transfer.to in users
        && (transfer.gb == 0.0 || transfer.gb >= 0.001);
      if ok {
        transfers := transfers + [Rec(id, transfer)];
        ok := ApplyTransferDelta(transfer.from, transfer.to, transfer.gb, balanceFails);
      }
      if !ok {
        Rollback(saved);
      }
    }

    method DeleteTransfer(id: string, before: Transfer, balanceFails: bool) returns (ok: bool)
      modifies this
      ensures ok ==> Goes(old(Now()), Op.DeleteTransfer(id), OfTransfer(before))
      ensures Now() == StepSeen(old(Now()), Request(Op.DeleteTransfer(id), ok), OfTransfer(before))
      ensures !balanceFails ==>
        ok == (&& Has(old(transfers), id)
               && (before.gb == 0.0 || (&& (before.from == "" || before.from in old(users))
                                        && (before.to == "" || before.to in old(users)))))
      ensures ok ==>
        exists i :: 0 <= i < |old(transfers)| && old(transfers)[i].id == id
                    && transfers == old(transfers)[..i] + old(transfers)[i + 1..]
    {
      if !Has(transfers, id) {
        return false;
      }
      var saved := Now();
      transfers := Remove(transfers, id);
      ok := ApplyTransferDelta(before.from, before.to, -before.gb, balanceFails);
      if !ok {
        Rollback(saved);
      }
    }

    // ---- buckets ------------------------------------------------------------------------

    method CreateBucket(id: string, bucket: Bucket, balanceFails: bool) returns (ok: bool)
      modifies this
      ensures ok ==> Accepts(old(Now()), Op.CreateBucket(id, bucket))
      ensures Now() == Step(old(Now()), Request(Op.CreateBucket(id, bucket), ok))
      ensures !balanceFails ==> ok == (!Has(old(buckets), id) && bucket.user in old(users) && bucket.gb >= 0.0)
      ensures ok ==> buckets == old(buckets) + [Rec(id, bucket)]
    {
      var saved := Now();
      ok := !Has(buckets, id) && bucket.user in users && bucket.gb >= 0.0;
      if ok {
        buckets := buckets + [Rec(id, bucket)];
        ok := ApplyAllocationDelta(bucket.user, bucket.gb, balanceFails);
      }
      if !ok {
        Rollback(saved);
      }
    }

    method UpdateBucket(id: string, bucket: Bucket, before: Bucket, awayFails: bool, balanceFails: bool)
      returns (ok: bool)
      modifies this
      ensures ok ==> Goes(old(Now()), Op.UpdateBucket(id, bucket), OfBucket(before))
      ensures Now() == StepSeen(old(Now()), Request(Op.UpdateBucket(id, bucket), ok), OfBucket(before))
      ensures !awayFails && !balanceFails ==>
        ok == (&& Has(old(buckets), id) && bucket.user in old(users) && bucket.gb >= 0.0
               && (before.user == bucket.user || before.gb == 0.0 || before.user == "" || before.user in old(users)))
      ensures ok ==>
        forall i :: 0 <= i < |buckets| == |old(buckets)| ==>
          buckets[i] == if i == Find(old(buckets), id) then Rec(id, bucket) else old(buckets)[i]
    {
      hide AllocationDelta;
      var saved := Now();
      ok := Has(buckets, id) && bucket.user in users && bucket.gb >= 0.0;
      if ok {
        buckets := buckets[Find(buckets, id) := Rec(id, bucket)];
        if before.user == bucket.user {
          if before.gb != bucket.gb {
            ok := ApplyAllocationDelta(bucket.user, bucket.gb - before.gb, balanceFails);
          }
        } else {
          ok := ApplyAllocationDelta(before.user, -before.gb, awayFails);
          if ok {
            ok := ApplyAllocationDelta(bucket.user, bucket.gb, balanceFails);
          }
        }
      }
      if !ok {
        Rollback(saved);
      }
    }

    method DeleteBucket(id: string, before: Bucket, balanceFails: bool) returns (ok: bool)
      modifies this
      ensures ok ==> Goes(old(Now()), Op.DeleteBucket(id), OfBucket(before))
      ensures Now() == StepSeen(old(Now()), Request(Op.DeleteBucket(id), ok), OfBucket(before))
      ensures !balanceFails ==>
        ok == (Has(old(buckets), id) && (before.gb == 0.0 || before.user == "" || before.user in old(users)))
      ensures ok ==>
        exists i :: 0 <= i < |old(buckets)| && old(buckets)[i].id == id
                    && buckets == old(buckets)[..i] + old(buckets)[i + 1..]
    {
      if !Has(buckets, id) {
        return false;
      }
      var saved := Now();
      buckets := Remove(buckets, id);
      ok := ApplyAllocationDelta(before.user, -before.gb, balanceFails);
      if !ok {
        Rollback(saved);
      }
    }

    // ---- users --------------------------------------------------------------------------

    /** The newest claim first, as the cascade hook reads them. */
    method ClaimsNewestFirst(u: UserId) returns (found: seq<Rec<Claim>>)
      ensures found == Reversed(Filter(claims, ClaimsOf(u)))
    {
      found := [];
      for i := 0 to |claims|
        invariant found == Reversed(Filter(claims[..i], ClaimsOf(u)))
      {
        assert claims[..i + 1] == claims[..i] + [claims[i]];
        FilterSnoc(claims[..i], claims[i], ClaimsOf(u));
        if claims[i].row.user == u {
          ghost var kept := Filter(claims[..i], ClaimsOf(u));
          assert (kept + [claims[i]])[..|kept|] == kept;
          found := [claims[i]] + found;
        }
      }
      assert claims[..|claims|] == claims;
    }

    method TransfersTouching(u: UserId) returns (found: seq<Rec<Transfer>>)
      ensures found == Filter(transfers, TransfersOf(u))
    {
      found := [];
      for i := 0 to |transfers|
        invariant found == Filter(transfers[..i], TransfersOf(u))
      {
        assert transfers[..i + 1] == transfers[..i] + [transfers[i]];
        FilterSnoc(transfers[..i], transfers[i], TransfersOf(u));
        if transfers[i].row.from == u || transfers[i].row.to == u {
          found := found + [transfers[i]];
        }
      }
      assert transfers[..|transfers|] == transfers;
    }

    /** What `e.next()` runs inside the cascade hook: the last-administrator guard, then the
        default handler, which drops the dependent rows and refuses when a bucket still points
        at the user. A refusal may leave rows dropped; the caller's rollback restores them. */
    method GuardedDelete(u: UserId) returns (ok: bool)
      modifies this
      ensures ok == (MayLoseAdmin(old(admins), u) && !OwnsBucket(old(Now()), u))
      ensures ok ==> Now() == DropUser(old(Now()), u)
      ensures ok == (&& (u in old(admins) ==> |old(admins)| > 1)
                     && forall k :: k in old(buckets) ==> k.row.user != u)
      ensures ok ==>
        && users == old(users) - {u} && admins == old(admins) - {u} && buckets == old(buckets)
        && (forall c :: c in claims <==> c in old(claims) && c.row.user != u)
        && (forall t :: t in transfers <==> t in old(transfers) && t.row.from != u && t.row.to != u)
    {
      hide Filter;
      FilterMembers(claims, ClaimsNotOf(u));
      FilterMembers(transfers, TransfersNotOf(u));
      if u in admins && |admins| <= 1 {
        return false;
      }
      users := users - {u};
      admins := admins - {u};
      claims := Filter(claims, ClaimsNotOf(u));
      transfers := Filter(transfers, TransfersNotOf(u));
      nodeRows := map p | p in nodeRows && p.0 != u :: nodeRows[p];
      userRows := userRows - {u};
      ok := !exists i :: 0 <= i < |buckets| && buckets[i].row.user == u;
    }

    method UnwindTransfers(gone: seq<Rec<Transfer>>, u: UserId, failsAt: nat) returns (ok: bool)
      modifies `userRows
      ensures ok ==> Now() == old(Now()).(balances := Unwind(old(Now().balances), gone, u))
      ensures ok ==> PartiesStand(users.Keys, gone, u)
      ensures failsAt >= |gone| && PartiesStand(users.Keys, gone, u) ==> ok
    {
      hide TransferDelta;
      ok := true;
      for i := 0 to |gone|
        invariant ok && Now() == old(Now()).(balances := Unwind(old(Now().balances), gone[..i], u))
        invariant PartiesStand(users.Keys, gone[..i], u)
      {
        assert gone[i] in gone && gone[..i + 1] == gone[..i] + [gone[i]];
        assert gone[..i + 1][..i] == gone[..i];
        var t := gone[i].row;
        var from, to := if t.from == u then "" else t.from, if t.to == u then "" else t.to;
        ok := ApplyTransferDelta(from, to, -t.gb, i == failsAt);
        if !ok {
          return;
        }
      }
      assert gone[..|gone|] == gone;
    }

    method AuditCascade(snapshots: seq<Rec<Claim>>, failsAt: nat) returns (ok: bool)
      modifies `audit
      ensures ok ==> Now() == old(Now()).(audit := old(audit) + CascadeAudit(snapshots))
      ensures ok ==>
        && |audit| == |old(audit)| + |snapshots| && audit[..|old(audit)|] == old(audit)
        && (forall k :: 0 <= k < |snapshots| ==>
              var c := snapshots[k];
              audit[|old(audit)| + k]
              == AuditRow(Deleted, c.id, c.row.user, c.row.node, c.row.gb, 0.0, -c.row.gb, true))
      ensures failsAt >= |snapshots| ==> ok
    {
      ok := true;
      for i := 0 to |snapshots|
        invariant ok && Now() == old(Now()).(audit := old(audit) + CascadeAudit(snapshots[..i]))
      {
        assert snapshots[..i + 1][..i] == snapshots[..i];
        var c := snapshots[i];
        ok := WriteClaimAudit(Deleted, c.id, c.row, c.row.gb, 0.0, true, i == failsAt);
        if !ok {
          return;
        }
      }
      assert snapshots[..|snapshots|] == snapshots;
      CascadeRows(snapshots);
    }

    /** The cascade hook, with the claims and transfers it read. `balanceFailsAt` and
        `auditFailsAt` number the save that throws; numbers past the last save mean none does. */
    method DeleteUser(u: UserId, snapshots: seq<Rec<Claim>>, gone: seq<Rec<Transfer>>, auditFailsAt: nat,
                      balanceFailsAt: nat)
      returns (ok: bool)
      modifies this
      ensures ok ==> Goes(old(Now()), Op.DeleteUser(u), OfUser(snapshots, gone))
      ensures Now() == StepSeen(old(Now()), Request(Op.DeleteUser(u), ok), OfUser(snapshots, gone))
      ensures balanceFailsAt >= |gone| && auditFailsAt >= |snapshots| ==>
        ok == (&& u in old(users) && (u in old(admins) ==> |old(admins)| > 1)
               && (forall k :: k in old(buckets) ==> k.row.user != u)
               && (forall t :: t in gone && t.row.gb != 0.0 ==>
                     && (t.row.from in {"", u} || t.row.from in old(users))
                     && (t.row.to in {"", u} || t.row.to in old(users))))
      ensures ok ==>
        && users == old(users) - {u} && admins == old(admins) - {u} && buckets == old(buckets)
        && (forall c :: c in claims <==> c in old(claims) && c.row.user != u)
        && (forall t :: t in transfers <==> t in old(transfers) && t.row.from != u && t.row.to != u)
      ensures ok ==>
        && |audit| == |old(audit)| + |snapshots| && audit[..|old(audit)|] == old(audit)
        && (forall k :: 0 <= k < |snapshots| ==>
              var c := snapshots[k];
              audit[|old(audit)| + k]
              == AuditRow(Deleted, c.id, c.row.user, c.row.node, c.row.gb, 0.0, -c.row.gb, true))
    {
      if u !in users {
        return false;
      }
      hide DropUser, Unwind, CascadeAudit, PartiesStand, Stands, Accepts;
      var saved := Now();
      AcceptedDeletion(saved, u);
      StandingParties(users.Keys, gone, u);
      ok := GuardedDelete(u);
      if ok {
        ok := UnwindTransfers(gone, u, balanceFailsAt);
        if ok {
          ok := AuditCascade(snapshots, auditFailsAt);
        }
      }
      if !ok {
        Rollback(saved);
      }
    }

    /** What the hook of `op` reads before its transaction opens. A request whose row nobody
        changes before the transaction commits what `Step` says: `Overlap.CurrentIsCommit`. */
    method Load(op: Op) returns (seen: Preimage)
      ensures seen == Read(Now(), op)
      ensures
        forall commits ::
          WellFormed(Now()) && Accepts(Now(), op) ==>
            StepSeen(Now(), Request(op, commits), seen) == Step(Now(), Request(op, commits))
    {
      hide Filter, Reversed, Commit, CommitSeen, Accepts, Goes, WellFormed;
      if WellFormed(Now()) && Accepts(Now(), op) { CurrentIsCommit(Now(), op); }
      match op
      case UpdateClaim(id, _) => seen := if Has(claims, id) then OfClaim(Get(claims, id)) else Nothing;
      case DeleteClaim(id) => seen := if Has(claims, id) then OfClaim(Get(claims, id)) else Nothing;
      case DeleteTransfer(id) => seen := if Has(transfers, id) then OfTransfer(Get(transfers, id)) else Nothing;
      case UpdateBucket(id, _) => seen := if Has(buckets, id) then OfBucket(Get(buckets, id)) else Nothing;
      case DeleteBucket(id) => seen := if Has(buckets, id) then OfBucket(Get(buckets, id)) else Nothing;
      case DeleteUser(u) =>
        var snapshots := ClaimsNewestFirst(u);
        var gone := TransfersTouching(u);
        seen := OfUser(snapshots, gone);
      case RemoveAdmin(_) => seen := OfCount(|admins|);
      case SignUp(_, _, _) => seen := OfCount(|admins|);
      case _ => seen := Nothing;
    }

    /** The sign-up gate decides on the administrators it counted. The owner promotion counts again
        once the account is there and is best-effort: `promotionSaves` is false when its save
        throws, and the account stands either way. */
    method SignUp(u: UserId, signup: Signup, counted: nat, promotionSaves: bool) returns (ok: bool)
      modifies this
      ensures ok == Goes(old(Now()), Op.SignUp(u, signup, promotionSaves), OfCount(counted))
      ensures Now() == StepSeen(old(Now()), Request(Op.SignUp(u, signup, promotionSaves), ok), OfCount(counted))
      ensures u !in old(users) && ValidUserId(u) ==>
        ok == (|| signup.isSuperuser || counted == 0 || signup.mode == Open
               || (signup.mode == Invite
                   && ((signup.ownerEmail != "" && signup.email == signup.ownerEmail) || signup.hasPendingInvite)))
      ensures ok ==> u !in old(users) && users == old(users)[u := signup.email]
      ensures admins == old(admins) +
        if ok && promotionSaves && old(admins) == {} && signup.ownerEmail != "" && signup.email == signup.ownerEmail
        then {u} else {}
    {
      var decision := DecideSignup(signup, counted);
      if !decision.allow {
        return false;
      }
      if u in users || !ValidUserId(u) {
        return false;
      }
      users := users[u := signup.email];
      if signup.ownerEmail != "" && signup.email == signup.ownerEmail {
        if |admins| == 0 && promotionSaves {
          admins := admins + {u};
        }
      }
      ok := true;
    }

    /** The guard decides on the count it read; the delete finds or misses the record. */
    method RemoveAdmin(u: UserId, remaining: nat) returns (ok: bool)
      modifies `admins
      ensures ok == Goes(old(Now()), Op.RemoveAdmin(u), OfCount(remaining))
      ensures Now() == StepSeen(old(Now()), Request(Op.RemoveAdmin(u), ok), OfCount(remaining))
      ensures ok == (remaining > 1 && u in old(admins))
      ensures admins == if ok then old(admins) - {u} else old(admins)
    {
      if remaining <= 1 || u !in admins {
        return false;
      }
      admins := admins - {u};
      ok := true;
    }
  }

  lemma AcceptedDeletion(s: State, u: UserId)
    ensures Accepts(s, Op.DeleteUser(u))
        <==> (&& u in s.users && (u in s.admins ==> |s.admins| > 1)
              && forall k :: k in s.buckets ==> k.row.user != u)
  { }

  lemma StandingParties(users: set<UserId>, gone: seq<Rec<Transfer>>, u: UserId)
    ensures PartiesStand(users - {u}, gone, u)
        <==> (forall t :: t in gone && t.row.gb != 0.0 ==>
                && (t.row.from in {"", u} || t.row.from in users) && (t.row.to in {"", u} || t.row.to in users))
  { }
}
