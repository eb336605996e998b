/** What the claim audit trail reads like, row by row (pocketbase/pb_hooks/main.pb.js with
    lib/claim-audit.js): what each request appends, and how the rows of one claim id chain over
    every run. */
module AuditTrail {
  import opened Sums
  import opened Tables
  import opened Ledger
  import opened LedgerInvariant

  // ---- what one request appends ---------------------------------------------------------

  /** The rows a committed request appends: one for a claim request, one for each claim of a deleted
      user, newest claim first, and none otherwise. */
  lemma {:induction false} RequestAppends(s: State, op: Op)
    requires Accepts(s, op)
    ensures s.audit <= Commit(s, op).audit
    ensures
      var before, rows := s.claims, Commit(s, op).audit[|s.audit|..];
      match op
      case CreateClaim(id, c) => rows == [AuditRow(Created, id, c.user, c.node, 0.0, c.gb, c.gb, false)]
      case UpdateClaim(id, c) =>
        var was := before[Find(before, id)].row.gb;
        rows == [AuditRow(Updated, id, c.user, c.node, was, c.gb, c.gb - was, false)]
      case DeleteClaim(id) =>
        var was := before[Find(before, id)].row;
        rows == [AuditRow(Deleted, id, was.user, was.node, was.gb, 0.0, -was.gb, false)]
      case DeleteUser(u) =>
        && |rows| == |Filter(before, ClaimsOf(u))|
        && (forall k :: 0 <= k < |rows| ==>
              var c := Filter(before, ClaimsOf(u))[|rows| - 1 - k];
              rows[k] == AuditRow(Deleted, c.id, u, c.row.node, c.row.gb, 0.0, -c.row.gb, true))
      case _ => rows == []
  {
    hide Filter, Unwind, DropUser;
    match op
    case DeleteUser(u) => DeletionAppends(s, u);
    case _ =>
  }

  lemma {:induction false} ReversedAt<T(!new)>(s: seq<T>, k: nat)
    requires k < |s|
    ensures Reversed(s)[k] == s[|s| - 1 - k]
  {
    if k > 0 { ReversedAt(s[..|s| - 1], k - 1); }
  }

  lemma {:induction false} CascadeRows(snapshots: seq<Rec<Claim>>)
    ensures |CascadeAudit(snapshots)| == |snapshots|
    ensures
      forall k :: 0 <= k < |snapshots| ==>
        var c := snapshots[k];
        CascadeAudit(snapshots)[k] == AuditRow(Deleted, c.id, c.row.user, c.row.node, c.row.gb, 0.0, -c.row.gb, true)
  {
    if snapshots != [] { CascadeRows(snapshots[..|snapshots| - 1]); }
  }

  lemma DeletionAppends(s: State, u: UserId)
    requires Accepts(s, DeleteUser(u))
    ensures s.audit <= Commit(s, DeleteUser(u)).audit
    ensures
      var gone, rows := Filter(s.claims, ClaimsOf(u)), Commit(s, DeleteUser(u)).audit[|s.audit|..];
      && |rows| == |gone|
      && (forall k :: 0 <= k < |rows| ==>
            var c := gone[|rows| - 1 - k];
            rows[k] == AuditRow(Deleted, c.id, u, c.row.node, c.row.gb, 0.0, -c.row.gb, true))
  {
    hide Filter, Unwind, DropUser, CascadeAudit, Reversed, Accepts;
    var gone := Filter(s.claims, ClaimsOf(u));
    assert Commit(s, DeleteUser(u)).audit[|s.audit|..] == CascadeAudit(Reversed(gone));
    FilterMembers(s.claims, ClaimsOf(u));
    CascadeRows(Reversed(gone));
    forall k | 0 <= k < |gone| ensures Reversed(gone)[k] == gone[|gone| - 1 - k] && gone[|gone| - 1 - k].row.user == u {
      ReversedAt(gone, k);
      assert gone[|gone| - 1 - k] in gone;
    }
  }

  /** Over a run the trail only grows, and a row is marked as a cascade exactly when the request
      that wrote it deleted a user. */
  lemma {:induction false} CascadeMarks(requests: seq<Request>, k: nat)
    requires k < |requests|
    ensures
      var before, after := Run(EMPTY, requests[..k]).audit, Run(EMPTY, requests[..k + 1]).audit;
      before <= after
      && forall i :: |before| <= i < |after| ==> (after[i].cascade <==> requests[k].op.DeleteUser?)
  {
    hide Commit, Accepts, Filter;
    var s, r := Run(EMPTY, requests[..k]), requests[k];
    assert requests[..k + 1][..k] == requests[..k];
    if r.commits && Accepts(s, r.op) {
      RequestAppends(s, r.op);
      var after := Commit(s, r.op).audit;
      forall i | |s.audit| <= i < |after| ensures after[i].cascade <==> r.op.DeleteUser? {
        assert after[i] == after[|s.audit|..][i - |s.audit|];
      }
    }
  }

  // ---- the rows of one claim id ---------------------------------------------------------

  function OfId(id: string): AuditRow -> bool {
    (a: AuditRow) => a.claimId == id
  }

  /** The rows of one claim id, oldest first: amounts that follow on from row to row, starting from
      nothing, and a claim that is created before it is updated or deleted. */
  ghost predicate Chained(rows: seq<AuditRow>) {
    forall k :: 0 <= k < |rows| ==>
      && rows[k].deltaGb == rows[k].newGb - rows[k].previousGb
      && rows[k].previousGb == (if k == 0 then 0.0 else rows[k - 1].newGb)
      && (rows[k].action == Created <==> k == 0 || rows[k - 1].action == Deleted)
      && (rows[k].action == Deleted ==> rows[k].newGb == 0.0)
      && (rows[k].cascade ==> rows[k].action == Deleted)
  }

  /** The chain ends at the claim as it stands: its amount, user and node while there is one, and a
      deletion or nothing at all when there is none. */
  ghost predicate EndsAt(rows: seq<AuditRow>, claims: seq<Rec<Claim>>, id: string) {
    if Has(claims, id) then
      var c := claims[Find(claims, id)].row;
      && rows != []
      && rows[|rows| - 1].action != Deleted && rows[|rows| - 1].newGb == c.gb
      && rows[|rows| - 1].user == c.user && rows[|rows| - 1].node == c.node
    else rows == [] || rows[|rows| - 1].action == Deleted
  }

  ghost predicate Told(s: State, id: string) {
    Chained(Filter(s.audit, OfId(id))) && EndsAt(Filter(s.audit, OfId(id)), s.claims, id)
  }

  lemma ChainOn(rows: seq<AuditRow>, row: AuditRow)
    requires Chained(rows)
    requires row.deltaGb == row.newGb - row.previousGb
    requires row.previousGb == if rows == [] then 0.0 else rows[|rows| - 1].newGb
    requires row.action == Created <==> rows == [] || rows[|rows| - 1].action == Deleted
    requires row.action == Deleted ==> row.newGb == 0.0
    requires row.cascade ==> row.action == Deleted
    ensures Chained(rows + [row])
  { }

  lemma {:induction false} FindSame(claims: seq<Rec<Claim>>, i: nat, id: string)
    requires UniqueIds(claims) && i < |claims| && claims[i].id == id
    ensures Has(claims, id) && Find(claims, id) == i
  { }

  lemma NoneHas(claims: seq<Rec<Claim>>, id: string)
    requires forall c :: c in claims ==> c.id != id
    ensures !Has(claims, id)
  { }

  lemma ClaimFound(claims: seq<Rec<Claim>>, c: Rec<Claim>)
    requires UniqueIds(claims) && c in claims
    ensures Has(claims, c.id) && claims[Find(claims, c.id)] == c
  {
    var i :| 0 <= i < |claims| && claims[i] == c;
    FindSame(claims, i, c.id);
  }

  /** Another claim's request leaves the chain of `id` alone. */
  lemma {:induction false} OtherRowsTold(s: State, t: State, id: string, row: AuditRow)
    requires Told(s, id) && t.audit == s.audit + [row] && row.claimId != id
    requires Has(t.claims, id) == Has(s.claims, id)
    requires Has(s.claims, id) ==> t.claims[Find(t.claims, id)] == s.claims[Find(s.claims, id)]
    ensures Told(t, id)
  {
    hide Filter, Find;
    FilterSnoc(s.audit, row, OfId(id));
  }

  lemma {:induction false} CreateTold(s: State, id: string, c: Claim, other: string)
    requires WellFormed(s) && Accepts(s, CreateClaim(id, c)) && Told(s, other)
    ensures Told(Commit(s, CreateClaim(id, c)), other)
  {
    hide Filter, WellFormed, Chained;
    var t, row := Commit(s, CreateClaim(id, c)), AuditRow(Created, id, c.user, c.node, 0.0, c.gb, c.gb, false);
    RequestAppends(s, CreateClaim(id, c));
    assert t.audit == s.audit + [row];
    FilterSnoc(s.audit, row, OfId(other));
    InsertedFound(s.claims, id, c, other);
    if other == id {
      EndOfChain(Filter(s.audit, OfId(id)));
      ChainOn(Filter(s.audit, OfId(id)), row);
    }
  }

  /** A chain that ends in a deletion ends at nothing. */
  lemma EndOfChain(rows: seq<AuditRow>)
    requires Chained(rows)
    ensures rows != [] && rows[|rows| - 1].action == Deleted ==> rows[|rows| - 1].newGb == 0.0
  { }

  lemma {:induction false} InsertedFound(claims: seq<Rec<Claim>>, id: string, c: Claim, other: string)
    requires !Has(claims, id)
    ensures Has(Insert(claims, id, c), other) == (other == id || Has(claims, other))
    ensures other == id ==> Insert(claims, id, c)[Find(Insert(claims, id, c), id)] == Rec(id, c)
    ensures other != id && Has(claims, other) ==>
      Insert(claims, id, c)[Find(Insert(claims, id, c), other)] == claims[Find(claims, other)]
  {
    var after := Insert(claims, id, c);
    assert after[|claims|] == Rec(id, c);
    assert forall i :: 0 <= i < |claims| ==> after[i] == claims[i];
    if other != id && Has(claims, other) { assert after[Find(claims, other)].id == other; }
  }

  lemma {:induction false} UpdateTold(s: State, id: string, c: Claim, other: string)
    requires WellFormed(s) && Accepts(s, UpdateClaim(id, c)) && Told(s, other)
    ensures Told(Commit(s, UpdateClaim(id, c)), other)
  {
    hide Filter, WellFormed, Chained;
    var t, was := Commit(s, UpdateClaim(id, c)), s.claims[Find(s.claims, id)].row.gb;
    var row := AuditRow(Updated, id, c.user, c.node, was, c.gb, c.gb - was, false);
    RequestAppends(s, UpdateClaim(id, c));
    assert t.audit == s.audit + [row];
    FilterSnoc(s.audit, row, OfId(other));
    ReplacedFound(s.claims, id, c, other);
    if other == id { ChainOn(Filter(s.audit, OfId(id)), row); }
  }

  lemma {:induction false} ReplacedFound(claims: seq<Rec<Claim>>, id: string, c: Claim, other: string)
    requires Has(claims, id)
    ensures Has(Replace(claims, id, c), other) == Has(claims, other)
    ensures other == id ==> Replace(claims, id, c)[Find(Replace(claims, id, c), id)] == Rec(id, c)
    ensures other != id && Has(claims, other) ==>
      Replace(claims, id, c)[Find(Replace(claims, id, c), other)] == claims[Find(claims, other)]
  {
    var after, i := Replace(claims, id, c), Find(claims, id);
    assert forall j :: 0 <= j < |claims| ==> after[j].id == claims[j].id;
    assert after[i] == Rec(id, c);
    if other != id && Has(claims, other) { assert after[Find(claims, other)] == claims[Find(claims, other)]; }
  }

  lemma {:induction false} DeleteTold(s: State, id: string, other: string)
    requires WellFormed(s) && Accepts(s, DeleteClaim(id)) && Told(s, other)
    ensures Told(Commit(s, DeleteClaim(id)), other)
  {
    hide Filter, Chained;
    var t, was := Commit(s, DeleteClaim(id)), s.claims[Find(s.claims, id)].row;
    var row := AuditRow(Deleted, id, was.user, was.node, was.gb, 0.0, -was.gb, false);
    RequestAppends(s, DeleteClaim(id));
    assert t.audit == s.audit + [row];
    FilterSnoc(s.audit, row, OfId(other));
    RemovedFound(s.claims, id, other);
    if other == id { ChainOn(Filter(s.audit, OfId(id)), row); }
  }

  lemma {:induction false} RemovedFound(claims: seq<Rec<Claim>>, id: string, other: string)
    requires UniqueIds(claims) && Has(claims, id)
    ensures Has(Remove(claims, id), other) == (other != id && Has(claims, other))
    ensures other != id && Has(claims, other) ==>
      Remove(claims, id)[Find(Remove(claims, id), other)] == claims[Find(claims, other)]
  {
    var after, i := Remove(claims, id), Find(claims, id);
    RemoveFacts(claims, id);
    assert forall j :: 0 <= j < |after| ==> after[j] == claims[if j < i then j else j + 1];
    if other != id && Has(claims, other) {
      var j := Find(claims, other);
      FindSame(after, if j < i then j else j - 1, other);
    } else {
      NoneHas(after, other);
    }
  }

  // ---- the cascade ----------------------------------------------------------------------

  /** The cascade has no row of an id the user had no claim of, and one of any other. */
  lemma {:induction false} CascadeOfNone(snapshots: seq<Rec<Claim>>, id: string)
    requires forall c :: c in snapshots ==> c.id != id
    ensures Filter(CascadeAudit(snapshots), OfId(id)) == []
  {
    if snapshots != [] {
      var rest, c := snapshots[..|snapshots| - 1], snapshots[|snapshots| - 1];
      assert c in snapshots && forall d :: d in rest ==> d in snapshots;
      CascadeOfNone(rest, id);
      FilterSnoc(CascadeAudit(rest), AuditOf(Deleted, c.id, c.row, c.row.gb, 0.0, true), OfId(id));
    }
  }

  lemma {:induction false} CascadeOfOne(snapshots: seq<Rec<Claim>>, only: Rec<Claim>)
    requires UniqueIds(snapshots) && only in snapshots
    ensures
      var c := only.row;
      Filter(CascadeAudit(snapshots), OfId(only.id))
      == [AuditRow(Deleted, only.id, c.user, c.node, c.gb, 0.0, -c.gb, true)]
  {
    var rest, c := snapshots[..|snapshots| - 1], snapshots[|snapshots| - 1];
    assert snapshots == rest + [c];
    FilterSnoc(CascadeAudit(rest), AuditOf(Deleted, c.id, c.row, c.row.gb, 0.0, true), OfId(only.id));
    if only == c {
      CascadeOfNone(rest, c.id);
    } else {
      CascadeOfOne(rest, only);
      assert c.id != only.id by {
        var i :| 0 <= i < |rest| && rest[i] == only;
        assert snapshots[i].id != snapshots[|rest|].id;
      }
    }
  }

  lemma {:induction false} ReversedMembers<T(!new)>(s: seq<T>)
    ensures forall x :: x in Reversed(s) <==> x in s
  {
    if s != [] {
      ReversedMembers(s[..|s| - 1]);
      assert s == s[..|s| - 1] + [s[|s| - 1]];
    }
  }

  lemma {:induction false} ReversedUnique(s: seq<Rec<Claim>>)
    requires UniqueIds(s)
    ensures UniqueIds(Reversed(s))
  {
    if s != [] {
      var rest := s[..|s| - 1];
      ReversedUnique(rest);
      ReversedMembers(rest);
      forall c | c in Reversed(rest) ensures c.id != s[|s| - 1].id { assert c in rest; }
    }
  }

  lemma {:induction false} CascadeTold(s: State, u: UserId, id: string)
    requires WellFormed(s) && Accepts(s, DeleteUser(u)) && Told(s, id)
    ensures Told(Commit(s, DeleteUser(u)), id)
  {
    hide Filter, Chained, Unwind, CascadeAudit, Reversed;
    var t, gone, kept := Commit(s, DeleteUser(u)), Filter(s.claims, ClaimsOf(u)), Filter(s.claims, ClaimsNotOf(u));
    var snapshots := Reversed(gone);
    FilterMembers(s.claims, ClaimsOf(u));
    FilterMembers(s.claims, ClaimsNotOf(u));
    FilterKeepsUniqueIds(s.claims, ClaimsOf(u));
    FilterKeepsUniqueIds(s.claims, ClaimsNotOf(u));
    ReversedMembers(gone);
    ReversedUnique(gone);
    FilterConcat(s.audit, CascadeAudit(snapshots), OfId(id));
    var rows := Filter(s.audit, OfId(id));
    if !Has(s.claims, id) {
      forall c | c in s.claims ensures c.id != id { if c.id == id { ClaimFound(s.claims, c); } }
      NoneHas(kept, id);
      CascadeOfNone(snapshots, id);
      assert rows + [] == rows;
    } else {
      var c := s.claims[Find(s.claims, id)];
      assert c in s.claims;
      forall d | d in s.claims && d.id == id ensures d == c { ClaimFound(s.claims, d); }
      if c.row.user == u {
        CascadeOfOne(snapshots, c);
        NoneHas(kept, id);
        ChainOn(rows, AuditRow(Deleted, id, c.row.user, c.row.node, c.row.gb, 0.0, -c.row.gb, true));
      } else {
        ClaimFound(kept, c);
        CascadeOfNone(snapshots, id);
        assert rows + [] == rows;
      }
    }
  }

  lemma {:induction false} StepTold(s: State, r: Request, id: string)
    requires WellFormed(s) && Told(s, id)
    ensures Told(Step(s, r), id)
  {
    hide Told, WellFormed;
    if r.commits && Accepts(s, r.op) {
      match r.op
      case CreateClaim(i, c) => CreateTold(s, i, c, id);
      case UpdateClaim(i, c) => UpdateTold(s, i, c, id);
      case DeleteClaim(i) => DeleteTold(s, i, id);
      case DeleteUser(u) => CascadeTold(s, u, id);
      case _ => SameTrail(s, Commit(s, r.op), id);
    }
  }

  lemma SameTrail(s: State, t: State, id: string)
    requires Told(s, id) && t.audit == s.audit && t.claims == s.claims
    ensures Told(t, id)
  { }

  /** Over every run the rows of a claim id tell its story: amounts follow on from row to row from
      nothing to the amount it has now, or back to nothing; it is created, then updated any number
      of times, then deleted, and may begin again. */
  lemma {:induction false} TrailTellsTheStory(requests: seq<Request>, id: string)
    ensures
      var s := Run(EMPTY, requests);
      var rows := Filter(s.audit, OfId(id));
      Chained(rows) && EndsAt(rows, s.claims, id)
  {
    hide Step, Chained, EndsAt, WellFormed;
    if requests == [] {
      NothingTold(id);
    } else {
      var before := requests[..|requests| - 1];
      TrailTellsTheStory(before, id);
      EmptyIsConsistent();
      RunKeeps(EMPTY, before);
      StepTold(Run(EMPTY, before), requests[|requests| - 1], id);
    }
  }

  lemma NothingTold(id: string)
    ensures Told(EMPTY, id) && Run(EMPTY, []) == EMPTY
  { }
}
