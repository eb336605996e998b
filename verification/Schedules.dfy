/** Every interleaving of requests and recomputations: when balances, trail and administrators
    survive it, and what puts right what did not. */
module Schedules {
  import opened Sums
  import opened Tables
  import opened SignupGate
  import opened Ledger
  import opened LedgerInvariant
  import opened LedgerTheorems
  import opened RebuildSpec
  import opened Overlap
  import opened Stale
  import opened Readings

  /** A request under way: what its hook read, and whether its transaction has run. */
  datatype Flight = Flight(op: Op, seen: Preimage, done: bool)

  datatype World = World(state: State, flights: seq<Flight>, readings: seq<Reading>)

  /** A request begins by reading; its transaction runs later, or throws. A recomputation queries
      and saves step by step, in any order of its rows, and may stop anywhere. */
  datatype Event = Begin(op: Op) | Finish(flight: nat, commits: bool)
                 | Start | Query(reading: nat) | WriteOne(reading: nat, write: RowWrite)

  function Next(w: World, e: Event): World {
    match e
    case Begin(op) => w.(flights := w.flights + [Flight(op, Read(w.state, op), false)])
    case Finish(i, commits) =>
      if i < |w.flights| && !w.flights[i].done then
        var f := w.flights[i];
        Settled(w.(state := StepSeen(w.state, Request(f.op, commits), f.seen),
                   flights := w.flights[i := f.(done := true)]))
      else w
    case Start => w.(readings := w.readings + [Started(w.state)])
    case Query(k) => if k < |w.readings| then w.(readings := w.readings[k := ReadOn(w.readings[k], w.state)]) else w
    case WriteOne(k, write) =>
      if k < |w.readings| then
        var r := w.readings[k];
        Settled(w.(state := AfterWrite(r, w.state, write), readings := w.readings[k := Tried(r, w.state, write)]))
      else w
  }

  /** Each recomputation under way keeps account of the rows that went. */
  function Settled(w: World): World {
    w.(readings := seq(|w.readings|, i requires 0 <= i < |w.readings| => Marked(w.readings[i], w.state)))
  }

  function Play(w: World, schedule: seq<Event>): World {
    if schedule == [] then w else Next(Play(w, schedule[..|schedule| - 1]), schedule[|schedule| - 1])
  }

  /** The event commits the transaction of a request. */
  predicate Commits(w: World, e: Event) {
    && e.Finish? && e.commits && e.flight < |w.flights| && !w.flights[e.flight].done
    && Goes(w.state, w.flights[e.flight].op, w.flights[e.flight].seen)
  }

  /** The event saves or deletes a row for a recomputation. */
  predicate Writes(w: World, e: Event) {
    e.WriteOne? && e.reading < |w.readings| && Takes(w.readings[e.reading], w.state, e.write)
  }

  lemma NextState(w: World, e: Event)
    ensures
      Next(w, e).state ==
        if Commits(w, e) then CommitSeen(w.state, w.flights[e.flight].op, w.flights[e.flight].seen)
        else if Writes(w, e) then AfterWrite(w.readings[e.reading], w.state, e.write)
        else w.state
  {
    hide CommitSeen, Goes, Takes, WriteRow;
  }

  // ---- what every schedule keeps --------------------------------------------------------

  /** Tables as the database lets them be, rows for existing users only, and hooks that remember
      what once was there. */
  ghost predicate Sane(w: World) {
    && WellFormed(w.state) && RowsOwned(w.state)
    && forall f :: f in w.flights ==> Plausible(f.op, f.seen)
  }

  lemma NextSane(w: World, e: Event)
    requires Sane(w)
    ensures Sane(Next(w, e))
  {
    hide WellFormed, RowsOwned, Plausible, CommitSeen, Goes, Takes, Read, WriteRow;
    NextState(w, e);
    if Commits(w, e) {
      CommitWellFormed(w.state, w.flights[e.flight].op, w.flights[e.flight].seen);
      CommitOwned(w.state, w.flights[e.flight].op, w.flights[e.flight].seen);
    } else if Writes(w, e) {
      WriteOwned(w.readings[e.reading], w.state, e.write);
      BalancesDoNotMatter(w.state, Next(w, e).state.balances);
    }
    if e.Begin? { ReadIsPlausible(w.state, e.op); }
  }

  lemma BalancesDoNotMatter(s: State, b: Balances)
    requires WellFormed(s)
    ensures WellFormed(s.(balances := b))
  { }

  /** However requests and recomputations overlap, no balance row outlives its user. */
  lemma {:induction false} RowsNeverOutliveUsers(w: World, schedule: seq<Event>)
    requires Sane(w)
    ensures Sane(Play(w, schedule))
    ensures
      var s := Play(w, schedule).state;
      s.balances.users.Keys <= s.users.Keys && forall p :: p in s.balances.nodes ==> p.0 in s.users
  {
    hide WellFormed, Next, Plausible;
    if schedule != [] {
      RowsNeverOutliveUsers(w, schedule[..|schedule| - 1]);
      NextSane(Play(w, schedule[..|schedule| - 1]), schedule[|schedule| - 1]);
    }
  }

  // ---- when balances and trail stay right -----------------------------------------------

  /** What the event rests on is right where it counts. */
  ghost predicate Current(w: World, e: Event) {
    && (Commits(w, e) ==> Holds(w.state, w.flights[e.flight].op, w.flights[e.flight].seen))
    && (Writes(w, e) ==> StillTrue(w.readings[e.reading].seen, w.state, e.write))
  }

  /** An event keeps balances and trail right if and only if it is current. */
  lemma {:induction false} CurrentIff(w: World, e: Event)
    requires Sane(w) && Consistent(w.state)
    ensures Consistent(Next(w, e).state) <==> Current(w, e)
  {
    hide Consistent, CommitSeen, AfterWrite, Goes, Takes, StillTrue, Holds, WellFormed, Plausible, RowsOwned;
    NextState(w, e);
    if Commits(w, e) {
      assert w.flights[e.flight] in w.flights;
      CommitSeenIff(w.state, w.flights[e.flight].op, w.flights[e.flight].seen);
    } else if Writes(w, e) {
      StaleRowIff(w.readings[e.reading], w.state, e.write);
    }
  }

  ghost predicate Undisturbed(w: World, schedule: seq<Event>) {
    schedule != [] ==>
      && Undisturbed(w, schedule[..|schedule| - 1])
      && Current(Play(w, schedule[..|schedule| - 1]), schedule[|schedule| - 1])
  }

  ghost predicate AlwaysConsistent(w: World, schedule: seq<Event>) {
    && Consistent(Play(w, schedule).state)
    && (schedule != [] ==> AlwaysConsistent(w, schedule[..|schedule| - 1]))
  }

  /** Balances and trail are right all through a schedule if and only if every event of it is
      current. */
  lemma {:induction false} StaysRightIff(w: World, schedule: seq<Event>)
    requires Sane(w) && Consistent(w.state)
    ensures AlwaysConsistent(w, schedule) <==> Undisturbed(w, schedule)
  {
    hide Consistent, Next, Current, Sane;
    if schedule != [] {
      var rest := schedule[..|schedule| - 1];
      StaysRightIff(w, rest);
      if AlwaysConsistent(w, rest) {
        assert Consistent(Play(w, rest).state);
        RowsNeverOutliveUsers(w, rest);
        CurrentIff(Play(w, rest), schedule[|schedule| - 1]);
      }
    }
  }

  /** No row changes between being read and being relied on. */
  ghost predicate Untouched(w: World, schedule: seq<Event>) {
    schedule != [] ==>
      var before, e := Play(w, schedule[..|schedule| - 1]), schedule[|schedule| - 1];
      && Untouched(w, schedule[..|schedule| - 1])
      && (Commits(before, e) ==> before.flights[e.flight].seen == Read(before.state, before.flights[e.flight].op))
      && (Writes(before, e) ==> StillTrue(before.readings[e.reading].seen, before.state, e.write))
  }

  /** In particular however requests and recomputations overlap, as long as no row changes between
      being read and being relied on. */
  lemma {:induction false} UntouchedKeeps(w: World, schedule: seq<Event>)
    requires Sane(w) && Consistent(w.state) && Untouched(w, schedule)
    ensures AlwaysConsistent(w, schedule)
  {
    hide Consistent, Next, Sane, Read, Goes, Takes, StillTrue, Holds;
    if schedule != [] {
      var rest, e := schedule[..|schedule| - 1], schedule[|schedule| - 1];
      UntouchedKeeps(w, rest);
      assert Consistent(Play(w, rest).state);
      RowsNeverOutliveUsers(w, rest);
      UntouchedIsCurrent(Play(w, rest), e);
      CurrentIff(Play(w, rest), e);
    }
  }

  lemma UntouchedIsCurrent(w: World, e: Event)
    requires Sane(w)
    requires Commits(w, e) ==> w.flights[e.flight].seen == Read(w.state, w.flights[e.flight].op)
    requires Writes(w, e) ==> StillTrue(w.readings[e.reading].seen, w.state, e.write)
    ensures Current(w, e)
  {
    hide Read, Goes, Takes, StillTrue, Holds, WellFormed, Plausible, RowsOwned;
    if Commits(w, e) { ReadHolds(w.state, w.flights[e.flight].op); }
  }

  // ---- the trail ------------------------------------------------------------------------

  /** What the schedule leaves out of the trail of the claim `id`, all in all. */
  ghost function AllMissed(w: World, schedule: seq<Event>, id: string): real {
    if schedule == [] then 0.0
    else
      var before, e := Play(w, schedule[..|schedule| - 1]), schedule[|schedule| - 1];
      AllMissed(w, schedule[..|schedule| - 1], id)
      + if Commits(before, e) then Missed(before.state, before.flights[e.flight].op, before.flights[e.flight].seen, id)
        else 0.0
  }

  /** Over every schedule trail and ledger part by exactly what stale pre-images left out, and no
      later request, the recomputation included, brings it back. */
  lemma {:induction false} TrailGapOverSchedules(w: World, schedule: seq<Event>, id: string)
    ensures IdGap(Play(w, schedule).state, id) == IdGap(w.state, id) + AllMissed(w, schedule, id)
  {
    hide CommitSeen, Goes, Missed, Takes, WriteRow, Next;
    if schedule != [] {
      var before, e := Play(w, schedule[..|schedule| - 1]), schedule[|schedule| - 1];
      TrailGapOverSchedules(w, schedule[..|schedule| - 1], id);
      NextState(before, e);
      if Commits(before, e) { GapMoves(before.state, before.flights[e.flight].op, before.flights[e.flight].seen, id); }
    }
  }

  // ---- whatever happened, the balances can be repaired ----------------------------------

  lemma FiguresRebuilt(s: State, b: Balances, report: Report)
    requires WellFormed(s) && Rebuilt(s, b, report)
    ensures
      var t := s.(balances := b);
      && WellFormed(t) && RowsFit(t) && NodesAgree(t) && UsersAgree(t)
      && forall id :: IdGap(t, id) == IdGap(s, id)
  {
    hide Sum, WellFormed, RowsFit, NodesAgree, UsersAgree, Drifts, Recomputed, Rebuilt;
    var noted := map u | u in b.users :: b.users[u].lastDrift;
    RebuiltIsCommit(s, b, report, noted);
    RebuildAgrees(s, noted);
  }

  /** After any schedule at all, a complete undisturbed recomputation puts every figure right,
      whatever drift it notes; the trail it leaves as it is. */
  lemma {:induction false} RebuildRepairs(w: World, schedule: seq<Event>, b: Balances, report: Report)
    requires Sane(w) && Rebuilt(Play(w, schedule).state, b, report)
    ensures
      var t := Play(w, schedule).state.(balances := b);
      && WellFormed(t) && RowsFit(t) && NodesAgree(t) && UsersAgree(t)
      && forall id :: IdGap(t, id) == IdGap(w.state, id) + AllMissed(w, schedule, id)
  {
    hide WellFormed, RowsFit, NodesAgree, UsersAgree, IdGap, Rebuilt, RowsOwned, Plausible;
    var s := Play(w, schedule).state;
    RowsNeverOutliveUsers(w, schedule);
    FiguresRebuilt(s, b, report);
    forall id ensures IdGap(s, id) == IdGap(w.state, id) + AllMissed(w, schedule, id) {
      TrailGapOverSchedules(w, schedule, id);
    }
  }

  // ---- a row that a recomputation does not expect, or expects in vain --------------------

  /** A row that somebody made after the recomputation queried its table stops it: the second row is
      refused, nothing is saved, and nothing more will be. */
  lemma UnexpectedRowStops(w: World, k: nat, write: RowWrite)
    requires k < |w.readings| && !w.readings[k].stopped && Planned(w.readings[k].seen, write)
    requires
      match write
      case SaveNode(u, n) => && w.readings[k].stage == 4 && (u, n) in w.state.balances.nodes
                             && (u, n) !in w.readings[k].seen.balances.nodes
      case SaveUser(u, _) => && w.readings[k].stage == 5 && u in w.state.balances.users
                             && u !in w.readings[k].seen.balances.users
      case _ => false
    ensures
      var t := Next(w, WriteOne(k, write));
      && t.state == w.state && |t.readings| == |w.readings| && t.readings[k].stopped
      && forall later :: Next(t, WriteOne(k, later)).state == w.state
  {
    hide WriteRow, Planned;
  }

  /** A row that the recomputation knew and that is deleted before its turn is not brought back. */
  lemma DeletedRowStaysDeleted(w: World, e: Event, k: nat, write: RowWrite)
    requires k < |w.readings| && Next(w, e).state != w.state
    requires
      match write
      case SaveNode(u, n) => && (u, n) in w.readings[k].seen.balances.nodes
                             && (u, n) !in Next(w, e).state.balances.nodes
      case SaveUser(u, _) => && u in w.readings[k].seen.balances.users
                             && u !in Next(w, e).state.balances.users
      case _ => false
    ensures Next(Next(w, e), WriteOne(k, write)).state == Next(w, e).state
  {
    hide WriteRow, Planned, StepSeen;
  }

  lemma {:induction false} StaysDone(w: World, schedule: seq<Event>, i: nat)
    requires i < |w.flights| && w.flights[i].done
    ensures i < |Play(w, schedule).flights| && Play(w, schedule).flights[i].done
  {
    hide StepSeen, Read, ReadOn, AfterWrite, Tried, Marked;
    if schedule != [] { StaysDone(w, schedule[..|schedule| - 1], i); }
  }

  /** A request runs its transaction once: after it has ended, whatever else happens, it commits
      nothing more. */
  lemma {:induction false} EndsOnce(w: World, i: nat, commits: bool, schedule: seq<Event>, again: bool)
    requires i < |w.flights|
    ensures
      var t := Play(Next(w, Finish(i, commits)), schedule);
      Next(t, Finish(i, again)) == t
  {
    hide StepSeen, Play;
    StaysDone(Next(w, Finish(i, commits)), schedule, i);
  }

  // ---- the last administrator -----------------------------------------------------------

  /** A removal that was let through on an old count commits when one administrator is left. */
  predicate TakesLastAdmin(w: World, e: Event) {
    Commits(w, e) && w.flights[e.flight].op.RemoveAdmin? && |w.state.admins| == 1
  }

  lemma AdminLeftIff(w: World, e: Event)
    requires |w.state.admins| > 0
    ensures |Next(w, e).state.admins| > 0 <==> !TakesLastAdmin(w, e)
  {
    hide Next, Savable, Commit, Accepts;
    NextState(w, e);
    if Commits(w, e) {
      var op, seen := w.flights[e.flight].op, w.flights[e.flight].seen;
      if op.RemoveAdmin? {
        var after := w.state.admins - {op.user};
        assert |w.state.admins| == |after| + 1;
      } else if op.SignUp? {
        var a :| a in w.state.admins;
        assert a in Next(w, e).state.admins;
      } else {
        SameAdmins(w.state, op, seen);
        StepKeepsAdmin(w.state, Request(op, true));
      }
    }
  }

  lemma SameAdmins(s: State, op: Op, seen: Preimage)
    requires Goes(s, op, seen) && !op.RemoveAdmin? && !op.SignUp?
    ensures Accepts(s, op) && CommitSeen(s, op, seen).admins == Commit(s, op).admins
  {
    hide Filter, Unwind, CascadeAudit, Savable, Reversed;
  }

  ghost predicate NeverTakesLast(w: World, schedule: seq<Event>) {
    schedule != [] ==>
      && NeverTakesLast(w, schedule[..|schedule| - 1])
      && !TakesLastAdmin(Play(w, schedule[..|schedule| - 1]), schedule[|schedule| - 1])
  }

  ghost predicate AlwaysAdministered(w: World, schedule: seq<Event>) {
    && |Play(w, schedule).state.admins| > 0
    && (schedule != [] ==> AlwaysAdministered(w, schedule[..|schedule| - 1]))
  }

  /** All through a schedule there is an administrator if and only if no direct removal commits
      while only one is left; deleting the accounts of administrators never does it. */
  lemma {:induction false} AdministeredIff(w: World, schedule: seq<Event>)
    requires |w.state.admins| > 0
    ensures AlwaysAdministered(w, schedule) <==> NeverTakesLast(w, schedule)
  {
    hide Next, TakesLastAdmin;
    if schedule != [] {
      var rest := schedule[..|schedule| - 1];
      AdministeredIff(w, rest);
      if AlwaysAdministered(w, rest) { AdminLeftIff(Play(w, rest), schedule[|schedule| - 1]); }
    }
  }

  /** While there is an administrator every sign-up that begins is judged as one on a claimed
      instance, whenever it commits: only those that began before can still come in through the
      bootstrap window. */
  lemma {:induction false} BootstrapWindowCloses(w: World, schedule: seq<Event>, i: nat)
    requires AlwaysAdministered(w, schedule) && |w.flights| <= i < |Play(w, schedule).flights|
    requires Play(w, schedule).flights[i].op.SignUp?
    ensures
      var f := Play(w, schedule).flights[i];
      && f.seen.OfCount? && f.seen.count > 0
      && DecideSignup(f.op.signup, f.seen.count).reason != UnclaimedInstance
  {
    hide StepSeen, AfterWrite, Tried, ReadOn;
    var rest, e := schedule[..|schedule| - 1], schedule[|schedule| - 1];
    var before := Play(w, rest);
    if i < |before.flights| {
      assert Play(w, schedule).flights[i].(done := true) == before.flights[i].(done := true);
      BootstrapWindowCloses(w, rest, i);
    } else {
      assert e.Begin? && |before.state.admins| > 0;
    }
  }

  /** So on a claimed instance nobody gets in who should not: a sign-up that begins there and commits
      was a superuser's, was made while sign-ups are open, or, in invite mode, was the configured
      owner's or an invited one's. */
  lemma {:induction false} ClaimedInstanceIsGated(w: World, schedule: seq<Event>, e: Event)
    requires AlwaysAdministered(w, schedule) && Commits(Play(w, schedule), e) && |w.flights| <= e.flight
    requires Play(w, schedule).flights[e.flight].op.SignUp?
    ensures
      var signup := Play(w, schedule).flights[e.flight].op.signup;
      || signup.isSuperuser || signup.mode == Open
      || (signup.mode == Invite
          && (signup.hasPendingInvite || (signup.ownerEmail != "" && signup.email == signup.ownerEmail)))
  {
    hide Play;
    BootstrapWindowCloses(w, schedule, e.flight);
  }

  // ---- two overlapping requests ---------------------------------------------------------

  lemma PlayOn(w: World, schedule: seq<Event>, e: Event)
    ensures Play(w, schedule + [e]) == Next(Play(w, schedule), e)
  {
    assert (schedule + [e])[..|schedule|] == schedule;
  }

  function TwoAtOnce(first: Op, second: Op): seq<Event> {
    [Begin(first)] + [Begin(second)] + [Finish(0, true)] + [Finish(1, true)]
  }

  lemma TwoAtOncePlays(s: State, first: Op, second: Op)
    ensures
      var s1 := StepSeen(s, Request(first, true), Read(s, first));
      Play(World(s, [], []), TwoAtOnce(first, second)).state == StepSeen(s1, Request(second, true), Read(s, second))
  {
    hide StepSeen, Read, Play;
    var w := World(s, [], []);
    FirstPlays(w, Begin(first));
    PlayOn(w, [Begin(first)], Begin(second));
    PlayOn(w, [Begin(first)] + [Begin(second)], Finish(0, true));
    PlayOn(w, [Begin(first)] + [Begin(second)] + [Finish(0, true)], Finish(1, true));
  }

  lemma FirstPlays(w: World, e: Event)
    ensures Play(w, [e]) == Next(w, e)
  {
    PlayOn(w, [], e);
    assert [] + [e] == [e];
  }

  /** Two updates of one claim that overlap: the ledger holds the second amount, but the pair's
      balance and the trail are off by what the first one added. */
  lemma OverlappingUpdates(s: State, id: string, first: Claim, second: Claim)
    requires Consistent(s) && Accepts(s, UpdateClaim(id, first)) && Accepts(s, UpdateClaim(id, second))
    requires SamePair(first, Get(s.claims, id)) && SamePair(second, Get(s.claims, id))
    ensures
      var t := Play(World(s, [], []), TwoAtOnce(UpdateClaim(id, first), UpdateClaim(id, second))).state;
      var extra := first.gb - Get(s.claims, id).gb;
      && Has(t.claims, id) && Get(t.claims, id) == second
      && NodeAt(t.balances, second.user, second.node).claimed == Sum(t.claims, PairGb(second.user, second.node)) + extra
      && IdGap(t, id) == extra
  {
    hide Sum, Filter;
    var a, b, stored := UpdateClaim(id, first), UpdateClaim(id, second), Get(s.claims, id);
    TwoAtOncePlays(s, a, b);
    CurrentIsCommit(s, a);
    UpdateClaimKeeps(s, id, first);
    var s1 := Commit(s, a);
    FoundAgain(s.claims, id, first);
    var t := CommitSeen(s1, b, OfClaim(stored));
    FoundAgain(s1.claims, id, second);
    GapMoves(s1, b, OfClaim(stored), id);
    SumReplaced(s1.claims, Find(s1.claims, id), Rec(id, second), PairGb(second.user, second.node));
    assert NodeAt(s1.balances, second.user, second.node) == NodeFigures(s1, second.user, second.node);
    assert IdGap(s1, id) == 0.0;
  }

  lemma FoundAgain(claims: seq<Rec<Claim>>, id: string, c: Claim)
    requires Has(claims, id)
    ensures Has(Replace(claims, id, c), id) && Find(Replace(claims, id, c), id) == Find(claims, id)
    ensures Get(Replace(claims, id, c), id) == c
  {
    var i, after := Find(claims, id), Replace(claims, id, c);
    assert after[i].id == id;
    assert forall j :: 0 <= j < i ==> after[j].id == claims[j].id;
  }
}
