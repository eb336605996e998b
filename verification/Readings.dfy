/** The recomputation under way, as others see it (pocketbase/pb_hooks/lib/storage-balance.js). It
    runs in no transaction: three queries read the ledgers, a fourth the pair rows, which are then
    saved one by one, a fifth the user rows, which are then saved one by one. Anything may commit
    in between. */
module Readings {
  import opened Sums
  import opened Tables
  import opened Ledger
  import opened LedgerInvariant

  /** `seen` holds what has been read so far and `stage` counts the queries. The rows read and
      deleted since are `gonePairs` and `goneUsers`: saving or deleting one of them again changes
      nothing. `stopped` is set by a save that throws. */
  datatype Reading = Reading(seen: State, stage: nat, gonePairs: set<(UserId, NodeId)>, goneUsers: set<UserId>,
                             stopped: bool)

  /** The claims come first. */
  function Started(s: State): Reading {
    Reading(EMPTY.(claims := s.claims), 1, {}, {}, false)
  }

  /** The next query. */
  function ReadOn(r: Reading, s: State): Reading {
    if r.stopped then r
    else if r.stage == 1 then r.(stage := 2, seen := r.seen.(transfers := s.transfers))
    else if r.stage == 2 then r.(stage := 3, seen := r.seen.(buckets := s.buckets))
    else if r.stage == 3 then r.(stage := 4, seen := r.seen.(balances := Balances(s.balances.nodes, map[])))
    else if r.stage == 4 then r.(stage := 5, seen := r.seen.(balances := r.seen.balances.(users := s.balances.users)))
    else r
  }

  /** Each query sees its own table as it is by then, and no other. */
  lemma EachTableAsQueried(first: State, second: State, third: State, fourth: State, fifth: State)
    ensures
      var r := ReadOn(ReadOn(ReadOn(ReadOn(Started(first), second), third), fourth), fifth);
      && r.stage == 5 && !r.stopped
      && r.seen.claims == first.claims && r.seen.transfers == second.transfers && r.seen.buckets == third.buckets
      && r.seen.balances == Balances(fourth.balances.nodes, fifth.balances.users)
  { }

  /** Rows that were read and are no longer there. */
  function Marked(r: Reading, s: State): Reading {
    r.(gonePairs := r.gonePairs + (r.seen.balances.nodes.Keys - s.balances.nodes.Keys),
       goneUsers := r.goneUsers + (r.seen.balances.users.Keys - s.balances.users.Keys))
  }

  predicate IsSave(w: RowWrite) {
    w.SaveNode? || w.SaveUser?
  }

  /** The recomputation has come to this write. */
  predicate Due(r: Reading, w: RowWrite) {
    !r.stopped && r.stage == (if w.SaveNode? || w.DropNode? then 4 else 5) && Planned(r.seen, w)
  }

  /** The query found a row to save or delete. */
  predicate Known(r: Reading, w: RowWrite) {
    if w.SaveNode? || w.DropNode? then (w.user, w.node) in r.seen.balances.nodes else w.user in r.seen.balances.users
  }

  predicate Gone(r: Reading, w: RowWrite) {
    if w.SaveNode? || w.DropNode? then (w.user, w.node) in r.gonePairs else w.user in r.goneUsers
  }

  predicate Present(s: State, w: RowWrite) {
    if w.SaveNode? || w.DropNode? then (w.user, w.node) in s.balances.nodes else w.user in s.balances.users
  }

  /** The save throws: the account is gone, or a row that the query did not find is there by now and
      the unique index refuses a second one. */
  predicate Refused(r: Reading, s: State, w: RowWrite) {
    IsSave(w) && (w.user !in s.users || (!Known(r, w) && Present(s, w)))
  }

  predicate Takes(r: Reading, s: State, w: RowWrite) {
    Due(r, w) && !Refused(r, s, w) && !Gone(r, w)
  }

  function AfterWrite(r: Reading, s: State, w: RowWrite): State {
    if Takes(r, s, w) then s.(balances := WriteRow(r.seen, s.balances, w)) else s
  }

  function Tried(r: Reading, s: State, w: RowWrite): Reading {
    if Due(r, w) && Refused(r, s, w) then r.(stopped := true) else r
  }

  // ---- a row saved from ledgers that moved on -------------------------------------------

  /** The ledgers still say about the row what they said when the recomputation read them. */
  ghost predicate StillTrue(seen: State, s: State, w: RowWrite) {
    match w
    case SaveNode(u, n) => NodeFigures(seen, u, n) == NodeFigures(s, u, n)
    case DropNode(u, n) => (u, n) !in Pairs(s.claims)
    case SaveUser(u, _) => UserFigures(seen, u) == UserFigures(s, u)
    case DropUserRow(u) => UserFigures(s, u) == NO_USER_ROW && forall c :: c in s.claims ==> c.row.user != u
  }

  lemma WriteFits(r: Reading, s: State, w: RowWrite)
    requires WellFormed(s) && RowsFit(s) && Takes(r, s, w)
    requires w.DropNode? ==> (w.user, w.node) !in Pairs(s.claims)
    requires w.DropUserRow? ==> forall c :: c in s.claims ==> c.row.user != w.user
    ensures WellFormed(AfterWrite(r, s, w)) && RowsFit(AfterWrite(r, s, w))
  {
    hide Sum, Filter, Drifts, Refused, Gone;
    if IsSave(w) { SavedHasAccount(r, s, w); }
    forall c | c in s.claims ensures (c.row.user, c.row.node) in Pairs(s.claims) { ClaimHasSlots(s, c); }
  }

  lemma SavedHasAccount(r: Reading, s: State, w: RowWrite)
    requires Takes(r, s, w) && IsSave(w)
    ensures w.user in s.users
  { }

  lemma TrueWriteKeeps(r: Reading, s: State, w: RowWrite)
    requires Consistent(s) && Takes(r, s, w) && StillTrue(r.seen, s, w)
    ensures Consistent(AfterWrite(r, s, w))
  {
    hide Sum, Filter, Slots, Pairs, NodeFigures, UserFigures, WellFormed, RowsFit, Takes;
    var t := AfterWrite(r, s, w);
    WriteFits(r, s, w);
    SameLedgerSameFigures(s, t.balances);
    NoDriftInFigures(s);
    if w.DropNode? { NodeFiguresOutside(s, w.user, w.node); }
    forall u, n ensures NodeAt(t.balances, u, n) == NodeFigures(t, u, n) {
      assert NodeAt(s.balances, u, n) == NodeFigures(s, u, n);
    }
    forall u ensures UserAmounts(t.balances, u) == UserFigures(t, u) {
      assert UserAmounts(s.balances, u) == UserFigures(s, u);
    }
    TrailStays(s, t);
  }

  lemma NoDriftInFigures(s: State)
    ensures forall u :: UserFigures(s, u).lastDrift == 0.0
  { }

  lemma FalseWriteBreaks(r: Reading, s: State, w: RowWrite)
    requires Consistent(s) && Takes(r, s, w) && !StillTrue(r.seen, s, w)
    ensures !Consistent(AfterWrite(r, s, w))
  {
    hide Sum, Filter, Slots, NodeFigures, UserFigures, WellFormed, Takes;
    var t := AfterWrite(r, s, w);
    SameLedgerSameFigures(s, t.balances);
    NoDriftInFigures(r.seen);
    match w
    case SaveNode(u, n) => assert NodeAt(t.balances, u, n) != NodeFigures(t, u, n);
    case DropNode(u, n) =>
      var i :| 0 <= i < |s.claims| && (s.claims[i].row.user, s.claims[i].row.node) == (u, n);
      assert t.claims[i] in t.claims;
    case SaveUser(u, _) => assert UserAmounts(t.balances, u) != UserFigures(t, u);
    case DropUserRow(u) =>
      if c :| c in s.claims && c.row.user == u {
        assert c in t.claims;
      } else {
        assert UserAmounts(t.balances, u) != UserFigures(t, u);
      }
  }

  /** A row the recomputation saves or deletes keeps the balances right if and only if the ledgers
      still say the same about it, whatever else has changed since they were read. */
  lemma {:induction false} StaleRowIff(r: Reading, s: State, w: RowWrite)
    requires Consistent(s)
    ensures Consistent(AfterWrite(r, s, w)) <==> (Takes(r, s, w) ==> StillTrue(r.seen, s, w))
  {
    hide Consistent, StillTrue, Takes, WriteRow;
    if Takes(r, s, w) {
      if StillTrue(r.seen, s, w) { TrueWriteKeeps(r, s, w); } else { FalseWriteBreaks(r, s, w); }
    }
  }

  /** A claim created between the reading and the save of its pair's row is always lost from it,
      a claim of zero GB included. */
  lemma CreateIsLost(r: Reading, s: State, id: string, c: Claim)
    requires Consistent(s) && Accepts(s, CreateClaim(id, c)) && (c.user, c.node) in Pairs(s.claims)
    requires r.seen.claims == s.claims && r.stage == 4 && !r.stopped
    requires (c.user, c.node) in r.seen.balances.nodes.Keys - r.gonePairs
    ensures
      var t := Commit(s, CreateClaim(id, c));
      Takes(r, t, SaveNode(c.user, c.node)) && !Consistent(AfterWrite(r, t, SaveNode(c.user, c.node)))
  {
    hide Sum, Filter, Consistent, Pairs;
    CreateClaimKeeps(s, id, c);
    CountSnoc(s.claims, Rec(id, c), OfPair(c.user, c.node));
    StaleRowIff(r, Commit(s, CreateClaim(id, c)), SaveNode(c.user, c.node));
  }

  /** No row is saved for an account that is gone. */
  lemma WriteOwned(r: Reading, s: State, w: RowWrite)
    requires RowsOwned(s)
    ensures RowsOwned(AfterWrite(r, s, w))
  {
    hide Sum, Filter, Drifts, NodeFigures, UserFigures;
  }
}
