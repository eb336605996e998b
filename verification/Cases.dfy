/** Runs at which the properties that do not hold in general fail: each is a list of requests from
    an empty installation. */
module Cases {
  import opened Sums
  import opened Tables
  import opened SignupGate
  import opened Ledger
  import opened LedgerInvariant
  import opened LedgerTheorems
  import opened RebuildSpec
  import opened Overlap
  import opened Readings
  import opened Schedules

  const NEWCOMER := SignUp("u", Signup(Open, "u@example.org", false, false, ""), false)

  function Go(op: Op): Request {
    Request(op, true)
  }

  lemma RunOn(requests: seq<Request>, r: Request)
    ensures Run(EMPTY, requests + [r]) == Step(Run(EMPTY, requests), r)
  {
    assert (requests + [r])[..|requests|] == requests;
  }

  function Newcomer(): State {
    EMPTY.(users := map["u" := "u@example.org"])
  }

  lemma NewcomerRuns()
    ensures Run(EMPTY, [Go(NEWCOMER)]) == Newcomer()
  {
    assert Run(EMPTY, []) == EMPTY;
    RunOn([], Go(NEWCOMER));
    assert [] + [Go(NEWCOMER)] == [Go(NEWCOMER)];
    assert map[]["u" := "u@example.org"] == map["u" := "u@example.org"];
  }

  /** One user, one claim of `gb` on the node "n". */
  function OneClaim(gb: real): seq<Request> {
    [Go(NEWCOMER), Go(CreateClaim("c", Claim("u", "n", gb)))]
  }

  lemma OneClaimRuns(gb: real)
    ensures
      var s := Run(EMPTY, OneClaim(gb));
      && s.users == map["u" := "u@example.org"]
      && s.claims == [Rec("c", Claim("u", "n", gb))]
      && s.audit == [AuditOf(Created, "c", Claim("u", "n", gb), 0.0, gb, false)]
  {
    var create := CreateClaim("c", Claim("u", "n", gb));
    NewcomerRuns();
    RunOn([Go(NEWCOMER)], Go(create));
    assert [Go(NEWCOMER)] + [Go(create)] == OneClaim(gb);
    assert Accepts(Newcomer(), create);
  }

  /** Re-pointing a claim of 5 GB from the node "n" to the node "m" leaves the trail of the old
      pair 5 GB above its balance. */
  lemma RepointedPair()
    ensures
      var s := Run(EMPTY, OneClaim(5.0) + [Go(UpdateClaim("c", Claim("u", "m", 5.0)))]);
      && Sum(s.audit, PairDelta("u", "n")) == 5.0
      && NodeAt(s.balances, "u", "n").claimed == 0.0
  {
    hide Run;
    var move := UpdateClaim("c", Claim("u", "m", 5.0));
    var s := Run(EMPTY, OneClaim(5.0));
    OneClaimRuns(5.0);
    RunOn(OneClaim(5.0), Go(move));
    assert Accepts(s, move) && Get(s.claims, "c") == Claim("u", "n", 5.0);
    var t := Commit(s, move);
    assert t.claims == [Rec("c", Claim("u", "m", 5.0))];
    OneOf(t.claims[0], PairGb("u", "n"));
    SumSnoc(s.audit, AuditOf(Updated, "c", Claim("u", "m", 5.0), 5.0, 5.0, false), PairDelta("u", "n"));
    OneOf(s.audit[0], PairDelta("u", "n"));
    BalancesEqualLedgers(OneClaim(5.0) + [Go(move)], t);
  }

  lemma OneOf<T(!new)>(x: T, weight: T -> real)
    ensures Sum([x], weight) == weight(x)
  {
    SumSnoc([], x, weight);
    assert [] + [x] == [x];
  }

  /** A user whose one ledger entry is a bucket of 0 GB has no balance row, although the hooks
      missed nothing: the recomputation makes the row and counts it as corrected. */
  lemma ZeroBucketIsCounted()
    ensures
      var s := Run(EMPTY, [Go(NEWCOMER), Go(CreateBucket("k", Bucket("u", 0.0)))]);
      Consistent(s) && Slots(s) - s.balances.users.Keys == {"u"}
  {
    var create := CreateBucket("k", Bucket("u", 0.0));
    NewcomerRuns();
    RunOn([Go(NEWCOMER)], Go(create));
    assert [Go(NEWCOMER)] + [Go(create)] == [Go(NEWCOMER), Go(create)];
    assert Accepts(Newcomer(), create);
    var s := Run(EMPTY, [Go(NEWCOMER), Go(create)]);
    EmptyIsConsistent();
    RunKeeps(EMPTY, [Go(NEWCOMER), Go(create)]);
    assert s.buckets == [Rec("k", Bucket("u", 0.0))] && s.claims == [] && s.transfers == [];
    assert s.buckets[0].row.user == "u";
    assert Slots(s) == {"u"};
  }

  /** Two overlapping updates of a claim of 10 GB, to 15 and to 20: the ledger says 20, balance
      and trail say 25. */
  lemma TwoPatches()
    ensures
      var first, second := UpdateClaim("c", Claim("u", "n", 15.0)), UpdateClaim("c", Claim("u", "n", 20.0));
      var t := Play(World(Run(EMPTY, OneClaim(10.0)), [], []), TwoAtOnce(first, second)).state;
      && Sum(t.claims, PairGb("u", "n")) == 20.0
      && NodeAt(t.balances, "u", "n").claimed == 25.0
      && Sum(t.audit, IdDelta("c")) == 25.0
  {
    hide Run, Play, Accepts, Commit, CommitSeen, Consistent, OneClaim;
    var s, a, b := Run(EMPTY, OneClaim(10.0)), Claim("u", "n", 15.0), Claim("u", "n", 20.0);
    OneClaimRuns(10.0);
    EmptyIsConsistent();
    RunKeeps(EMPTY, OneClaim(10.0));
    PatchAccepted(s, a);
    PatchAccepted(s, b);
    OverlappingUpdates(s, "c", a, b);
    OneClaimLeft(s, a, b);
    OneOf(Rec("c", b), PairGb("u", "n"));
    OneOf(Rec("c", b), IdGb("c"));
  }

  lemma PatchAccepted(s: State, c: Claim)
    requires c.user == "u" && c.node == "n" && "u" in s.users && |s.claims| == 1 && s.claims[0].id == "c"
    ensures Accepts(s, UpdateClaim("c", c))
  { }

  lemma OneClaimLeft(s: State, a: Claim, b: Claim)
    requires WellFormed(s) && |s.claims| == 1 && s.claims[0].id == "c"
    requires SamePair(a, s.claims[0].row) && SamePair(b, s.claims[0].row)
    requires Accepts(s, UpdateClaim("c", a)) && Accepts(s, UpdateClaim("c", b))
    ensures Play(World(s, [], []), TwoAtOnce(UpdateClaim("c", a), UpdateClaim("c", b))).state.claims == [Rec("c", b)]
  {
    hide Play, TwoAtOnce, WellFormed;
    TwoAtOncePlays(s, UpdateClaim("c", a), UpdateClaim("c", b));
    CurrentIsCommit(s, UpdateClaim("c", a));
  }

  // ---- a claim lost from a recomputation -------------------------------------------------

  /** A recomputation queries as far as the pair rows. */
  const QUERIES := [Start] + [Query(0)] + [Query(0)] + [Query(0)]

  function Queried(s: State): Reading {
    Reading(EMPTY.(claims := s.claims, transfers := s.transfers, buckets := s.buckets,
                   balances := Balances(s.balances.nodes, map[])), 4, {}, {}, false)
  }

  lemma QueriesPlay(s: State)
    ensures Play(World(s, [], []), QUERIES) == World(s, [], [Queried(s)])
  {
    hide Play;
    var w := World(s, [], []);
    FirstPlays(w, Start);
    PlayOn(w, [Start], Query(0));
    PlayOn(w, [Start] + [Query(0)], Query(0));
    PlayOn(w, [Start] + [Query(0)] + [Query(0)], Query(0));
  }

  const LATE := CreateClaim("d", Claim("u", "n", 5.0))

  /** A second claim commits after the queries and before the pair's row is saved. */
  function LateClaim(): seq<Event> {
    QUERIES + [Begin(LATE)] + [Finish(0, true)] + [WriteOne(0, SaveNode("u", "n"))]
  }

  lemma LateClaimPlays(s: State)
    ensures
      var t := StepSeen(s, Request(LATE, true), Nothing);
      Play(World(s, [], []), LateClaim()).state == AfterWrite(Marked(Queried(s), t), t, SaveNode("u", "n"))
  {
    hide StepSeen, AfterWrite, Tried, Play, Queried, Marked;
    var w := World(s, [], []);
    QueriesPlay(s);
    PlayOn(w, QUERIES, Begin(LATE));
    PlayOn(w, QUERIES + [Begin(LATE)], Finish(0, true));
    PlayOn(w, QUERIES + [Begin(LATE)] + [Finish(0, true)], WriteOne(0, SaveNode("u", "n")));
  }

  /** The ledger then holds 15 GB for the pair in two claims, its balance row 10 GB in one. */
  lemma LateClaimIsLost()
    ensures
      var t := Play(World(Run(EMPTY, OneClaim(10.0)), [], []), LateClaim()).state;
      && Sum(t.claims, PairGb("u", "n")) == 15.0
      && NodeAt(t.balances, "u", "n") == NodeRow(10.0, 1)
  {
    hide Run, Play, LateClaim, Consistent, OneClaim, Sum, Filter;
    var s := Run(EMPTY, OneClaim(10.0));
    OneClaimRuns(10.0);
    EmptyIsConsistent();
    RunKeeps(EMPTY, OneClaim(10.0));
    LateClaimPlays(s);
    LateClaimWritten(s);
    SumSnoc(s.claims, Rec("d", Claim("u", "n", 5.0)), PairGb("u", "n"));
    OneOf(Rec("c", Claim("u", "n", 10.0)), PairGb("u", "n"));
  }

  lemma LateClaimWritten(s: State)
    requires Consistent(s) && "u" in s.users && s.claims == [Rec("c", Claim("u", "n", 10.0))]
    ensures
      var t := StepSeen(s, Request(LATE, true), Nothing);
      var t' := AfterWrite(Marked(Queried(s), t), t, SaveNode("u", "n"));
      && t'.claims == s.claims + [Rec("d", Claim("u", "n", 5.0))]
      && NodeAt(t'.balances, "u", "n") == NodeRow(10.0, 1)
  {
    hide Sum, TrailAgrees, UsersAgree, NodesAgree;
    assert s.claims[0] in s.claims;
    assert (s.claims[0].row.user, s.claims[0].row.node) in Pairs(s.claims);
    OneOf(s.claims[0], PairGb("u", "n"));
    CountOfOne(s.claims, OfPair("u", "n"));
  }

  lemma CountOfOne<T(!new)>(s: seq<T>, keep: T -> bool)
    requires |s| == 1 && keep(s[0])
    ensures Count(s, keep) == 1
  {
    assert Filter(s[..0], keep) == [];
  }

  // ---- requests that undo each other ------------------------------------------------------

  const SECOND := SignUp("v", Signup(Open, "v@example.org", false, false, ""), false)
  const BOTH := [Go(NEWCOMER)] + [Go(SECOND)]

  lemma TwoUsersRun()
    ensures Run(EMPTY, BOTH) == EMPTY.(users := map["u" := "u@example.org", "v" := "v@example.org"])
  {
    NewcomerRuns();
    RunOn([Go(NEWCOMER)], Go(SECOND));
    assert map["u" := "u@example.org"]["v" := "v@example.org"] == map["u" := "u@example.org", "v" := "v@example.org"];
  }

  lemma AdminAdded(s: State, u: UserId)
    requires u in s.users && u !in s.admins
    ensures Step(s, Go(AddAdmin(u))) == s.(admins := s.admins + {u})
  { }

  lemma AdminRemoved(s: State, u: UserId, count: nat)
    requires u in s.admins && count > 1
    ensures StepSeen(s, Request(RemoveAdmin(u), true), OfCount(count)) == s.(admins := s.admins - {u})
  { }

  /** Two administrators who are removed at the same time leave none. */
  lemma NoAdminLeft()
    ensures
      var s := Run(EMPTY, BOTH + [Go(AddAdmin("u"))] + [Go(AddAdmin("v"))]);
      && s.admins == {"u", "v"}
      && Play(World(s, [], []), TwoAtOnce(RemoveAdmin("u"), RemoveAdmin("v"))).state.admins == {}
  {
    hide Run, Play, TwoAtOnce, Step, StepSeen;
    TwoUsersRun();
    RunOn(BOTH, Go(AddAdmin("u")));
    AdminAdded(Run(EMPTY, BOTH), "u");
    RunOn(BOTH + [Go(AddAdmin("u"))], Go(AddAdmin("v")));
    AdminAdded(Run(EMPTY, BOTH + [Go(AddAdmin("u"))]), "v");
    var s := Run(EMPTY, BOTH + [Go(AddAdmin("u"))] + [Go(AddAdmin("v"))]);
    assert s.admins == {"u", "v"};
    TwoAtOncePlays(s, RemoveAdmin("u"), RemoveAdmin("v"));
    AdminRemoved(s, "u", 2);
    AdminRemoved(s.(admins := s.admins - {"u"}), "v", 2);
  }

  const SEND := CreateTransfer("t", Transfer("u", "v", 5.0))

  lemma SendRuns()
    ensures
      var s := Run(EMPTY, BOTH + [Go(SEND)]);
      && s.users.Keys == {"u", "v"} && s.admins == {} && s.buckets == []
      && s.transfers == [Rec("t", Transfer("u", "v", 5.0))]
  {
    hide Run;
    TwoUsersRun();
    RunOn(BOTH, Go(SEND));
  }

  /** Two users, one of whom sent the other storage, are deleted at the same time: the second
      deletion would save a row for the first account, is refused and rolls back. */
  lemma SecondDeletionFails()
    ensures
      var s := Run(EMPTY, BOTH + [Go(SEND)]);
      var t := Play(World(s, [], []), TwoAtOnce(DeleteUser("u"), DeleteUser("v"))).state;
      t == Step(s, Go(DeleteUser("u"))) && t.users.Keys == {"v"}
  {
    hide Run, Play, TwoAtOnce, StepSeen, Step, Read, Consistent;
    var s := Run(EMPTY, BOTH + [Go(SEND)]);
    SendRuns();
    EmptyIsConsistent();
    RunKeeps(EMPTY, BOTH + [Go(SEND)]);
    TwoAtOncePlays(s, DeleteUser("u"), DeleteUser("v"));
    FirstDeletion(s);
    SecondRefused(s, Step(s, Go(DeleteUser("u"))));
  }

  lemma FirstDeletion(s: State)
    requires Consistent(s) && s.users.Keys == {"u", "v"} && s.admins == {} && s.buckets == []
    ensures StepSeen(s, Request(DeleteUser("u"), true), Read(s, DeleteUser("u"))) == Step(s, Go(DeleteUser("u")))
    ensures Step(s, Go(DeleteUser("u"))).users.Keys == {"v"}
  {
    hide Filter, Unwind, CascadeAudit, Reversed, WellFormed, Goes, CommitSeen;
    CurrentIsCommit(s, DeleteUser("u"));
  }

  lemma SecondRefused(s: State, t: State)
    requires s.transfers == [Rec("t", Transfer("u", "v", 5.0))] && t.users.Keys == {"v"}
    ensures StepSeen(t, Request(DeleteUser("v"), true), Read(s, DeleteUser("v"))) == t
  {
    hide CommitSeen, Accepts, Filter;
    FilterMembers(s.transfers, TransfersOf("v"));
    assert s.transfers[0] in Filter(s.transfers, TransfersOf("v"));
  }

  // ---- two sign-ups in the bootstrap window -----------------------------------------------

  const OWNER := SignUp("u", Signup(Closed, "u@example.org", false, false, "u@example.org"), true)
  const STRANGER := SignUp("v", Signup(Closed, "v@example.org", false, false, "u@example.org"), false)

  /** Closed sign-ups and an empty installation: the owner and a stranger sign up at the same time,
      the owner becomes administrator first, and the stranger's account is created all the same. */
  lemma StrangerSlipsIn()
    ensures
      var t := Play(World(EMPTY, [], []), TwoAtOnce(OWNER, STRANGER)).state;
      && t.admins == {"u"} && t.users.Keys == {"u", "v"}
      && !DecideSignup(STRANGER.signup, |t.admins|).allow
  {
    hide Play, TwoAtOnce;
    TwoAtOncePlays(EMPTY, OWNER, STRANGER);
    assert {} + {"u"} == {"u"};
  }
}
