/** The full recomputation of both balance tables, with its loops (`rebuildAll` in
    pocketbase/pb_hooks/lib/storage-balance.js). Script objects keyed by strings are maps here;
    the order in which their keys come up is left open. */
module Rebuild {
  import opened Sums
  import opened Tables
  import opened Ledger
  import opened LedgerInvariant
  import opened RebuildSpec
  import opened Store

  datatype NodeAgg = NodeAgg(user: UserId, node: NodeId, gb: real, count: int)

  // ---- string keys ----------------------------------------------------------------------

  function PairKey(p: Pair): string {
    p.0 + "::" + p.1
  }

  lemma ShorterUser(p: Pair, q: Pair)
    requires ValidUserId(q.0) && |p.0| < |q.0|
    ensures PairKey(p) != PairKey(q)
  {
    assert PairKey(p)[|p.0|] == ':' && PairKey(q)[|p.0|] == q.0[|p.0|];
  }

  /** Two pairs never share a key, because a record id holds no colon. */
  lemma PairKeyInjective(p: Pair, q: Pair)
    requires ValidUserId(p.0) && ValidUserId(q.0) && PairKey(p) == PairKey(q)
    ensures p == q
  {
    var a, b := PairKey(p), PairKey(q);
    if |p.0| < |q.0| { ShorterUser(p, q); }
    if |q.0| < |p.0| { ShorterUser(q, p); }
    assert p.0 == a[..|p.0|] && q.0 == b[..|q.0|];
    assert p.1 == a[|p.0| + 2..] && q.1 == b[|q.0| + 2..];
  }

  /** Record ids are made of lower-case letters and digits, and of those alone. */
  lemma IdAlphabet(u: UserId)
    ensures ValidUserId(u) <==>
      u != "" && forall ch :: ch in u ==> ch in "abcdefghijklmnopqrstuvwxyz" || ch in "0123456789"
  {
    forall ch: char ensures ch in "abcdefghijklmnopqrstuvwxyz" <==> 'a' <= ch <= 'z' { Letter(ch); }
    forall ch: char ensures ch in "0123456789" <==> '0' <= ch <= '9' { Digit(ch); }
    assert forall i :: 0 <= i < |u| ==> u[i] in u;
  }

  lemma Letter(ch: char)
    ensures ch in "abcdefghijklmnopqrstuvwxyz" <==> 'a' <= ch <= 'z'
  {
    var all := "abcdefghijklmnopqrstuvwxyz";
    assert forall i :: 0 <= i < 26 ==> all[i] as int == 97 + i;
    if 'a' <= ch <= 'z' { assert all[ch as int - 97] == ch; }
  }

  lemma Digit(ch: char)
    ensures ch in "0123456789" <==> '0' <= ch <= '9'
  {
    var all := "0123456789";
    assert forall i :: 0 <= i < 10 ==> all[i] as int == 48 + i;
    if '0' <= ch <= '9' { assert all[ch as int - 48] == ch; }
  }

  // ---- aggregating the ledgers ----------------------------------------------------------

  ghost predicate CleanClaims(claims: seq<Rec<Claim>>) {
    forall c :: c in claims ==> ValidUserId(c.row.user) && c.row.node != ""
  }

  ghost predicate NodesAggregated(agg: map<string, NodeAgg>, claims: seq<Rec<Claim>>) {
    && (forall p :: p in Pairs(claims) ==> PairKey(p) in agg)
    && (forall p :: p in Pairs(claims) ==>
          agg[PairKey(p)] == NodeAgg(p.0, p.1, Sum(claims, PairGb(p.0, p.1)), Count(claims, OfPair(p.0, p.1))))
    && (forall k :: k in agg ==>
          (agg[k].user, agg[k].node) in Pairs(claims) && k == PairKey((agg[k].user, agg[k].node)))
  }

  function Figures(claims: seq<Rec<Claim>>, transfers: seq<Rec<Transfer>>, buckets: seq<Rec<Bucket>>, u: UserId)
    : UserRow
  {
    UserRow(Sum(claims, UserGb(u)), Sum(transfers, SentGb(u)), Sum(transfers, ReceivedGb(u)),
            Sum(buckets, BucketGb(u)), 0.0)
  }

  function Slot(agg: map<UserId, UserRow>, u: UserId): UserRow {
    if u in agg then agg[u] else NO_USER_ROW
  }

  /** Every slot holds its user's figures, and a user without a slot has none. */
  ghost predicate UsersAggregated(agg: map<UserId, UserRow>, claims: seq<Rec<Claim>>, transfers: seq<Rec<Transfer>>,
                                  buckets: seq<Rec<Bucket>>) {
    && agg.Keys == SlotsOf(claims, transfers, buckets)
    && (forall u :: u != "" ==> Slot(agg, u) == Figures(claims, transfers, buckets, u))
  }

  lemma PairsSnoc(claims: seq<Rec<Claim>>, c: Rec<Claim>)
    requires c.row.user != "" && c.row.node != ""
    ensures Pairs(claims + [c]) == Pairs(claims) + {(c.row.user, c.row.node)}
  {
    var more := claims + [c];
    forall p | p in Pairs(claims) ensures p in Pairs(more) {
      var i :| 0 <= i < |claims| && claims[i].row.user != "" && claims[i].row.node != ""
          && (claims[i].row.user, claims[i].row.node) == p;
      assert more[i] == claims[i];
    }
    assert more[|claims|] == c;
    assert (more[|claims|].row.user, more[|claims|].row.node) in Pairs(more);
  }

  lemma OutsidePairs(claims: seq<Rec<Claim>>, u: UserId, n: NodeId)
    requires u != "" && n != "" && (u, n) !in Pairs(claims)
    ensures Sum(claims, PairGb(u, n)) == 0.0 && Count(claims, OfPair(u, n)) == 0
  {
    forall c | c in claims ensures !OfPair(u, n)(c) {
      var i :| 0 <= i < |claims| && claims[i] == c;
    }
    SumZero(claims, PairGb(u, n));
    FilterNone(claims, OfPair(u, n));
  }

  function AddToNode(agg: map<string, NodeAgg>, c: Claim): map<string, NodeAgg> {
    var key := PairKey((c.user, c.node));
    var slot := if key in agg then agg[key] else NodeAgg(c.user, c.node, 0.0, 0);
    agg[key := slot.(gb := slot.gb + c.gb, count := slot.count + 1)]
  }

  lemma PairsAreClean(claims: seq<Rec<Claim>>, p: Pair)
    requires CleanClaims(claims) && p in Pairs(claims)
    ensures ValidUserId(p.0) && p.1 != ""
  {
    var i :| 0 <= i < |claims| && (claims[i].row.user, claims[i].row.node) == p;
    assert claims[i] in claims;
  }

  /** A key that is taken is taken by its own pair. */
  lemma KeyTaken(agg: map<string, NodeAgg>, claims: seq<Rec<Claim>>, q: Pair)
    requires NodesAggregated(agg, claims) && CleanClaims(claims) && ValidUserId(q.0)
    ensures PairKey(q) in agg <==> q in Pairs(claims)
  {
    if PairKey(q) in agg {
      var r := (agg[PairKey(q)].user, agg[PairKey(q)].node);
      PairsAreClean(claims, r);
      PairKeyInjective(q, r);
    }
  }

  lemma AddedToPair(agg: map<string, NodeAgg>, claims: seq<Rec<Claim>>, c: Rec<Claim>, p: Pair)
    requires NodesAggregated(agg, claims) && CleanClaims(claims) && ValidUserId(c.row.user) && c.row.user != ""
    requires c.row.node != ""
    requires p in Pairs(claims) || p == (c.row.user, c.row.node)
    ensures PairKey(p) in AddToNode(agg, c.row)
    ensures AddToNode(agg, c.row)[PairKey(p)]
         == NodeAgg(p.0, p.1, Sum(claims + [c], PairGb(p.0, p.1)), Count(claims + [c], OfPair(p.0, p.1)))
  {
    hide Sum, Filter, Pairs, PairKey, ValidUserId, CleanClaims;
    var q := (c.row.user, c.row.node);
    if p in Pairs(claims) { PairsAreClean(claims, p); }
    if PairKey(p) == PairKey(q) { PairKeyInjective(p, q); }
    SumSnoc(claims, c, PairGb(p.0, p.1));
    FilterSnoc(claims, c, OfPair(p.0, p.1));
    KeyTaken(agg, claims, q);
    if q !in Pairs(claims) { OutsidePairs(claims, q.0, q.1); }
  }

  lemma AddedToNode(agg: map<string, NodeAgg>, claims: seq<Rec<Claim>>, c: Rec<Claim>)
    requires NodesAggregated(agg, claims) && CleanClaims(claims) && ValidUserId(c.row.user) && c.row.user != ""
    requires c.row.node != ""
    ensures NodesAggregated(AddToNode(agg, c.row), claims + [c])
  {
    hide Sum, Filter, Pairs, PairKey, ValidUserId, CleanClaims;
    PairsSnoc(claims, c);
    KeyTaken(agg, claims, (c.row.user, c.row.node));
    forall p | p in Pairs(claims + [c])
      ensures PairKey(p) in AddToNode(agg, c.row)
      ensures AddToNode(agg, c.row)[PairKey(p)]
           == NodeAgg(p.0, p.1, Sum(claims + [c], PairGb(p.0, p.1)), Count(claims + [c], OfPair(p.0, p.1)))
    {
      AddedToPair(agg, claims, c, p);
    }
  }

  function AddToUser(agg: map<UserId, UserRow>, c: Claim): map<UserId, UserRow> {
    agg[c.user := Slot(agg, c.user).(claims := Slot(agg, c.user).claims + c.gb)]
  }

  lemma AddedClaim(agg: map<UserId, UserRow>, claims: seq<Rec<Claim>>, c: Rec<Claim>)
    requires UsersAggregated(agg, claims, [], []) && c.row.user != "" && c.row.node != ""
    ensures UsersAggregated(AddToUser(agg, c.row), claims + [c], [], [])
  {
    hide Sum, Filter;
    var agg' := AddToUser(agg, c.row);
    SlotsAfterClaim(claims, c);
    forall u | u != "" ensures Slot(agg', u) == Figures(claims + [c], [], [], u) {
      SumSnoc(claims, c, UserGb(u));
      assert Slot(agg, u) == Figures(claims, [], [], u);
    }
  }

  lemma SlotsAfterClaim(claims: seq<Rec<Claim>>, c: Rec<Claim>)
    requires c.row.user != "" && c.row.node != ""
    ensures SlotsOf(claims + [c], [], []) == SlotsOf(claims, [], []) + {c.row.user}
  {
    var more := claims + [c];
    forall u | u in SlotsOf(claims, [], []) ensures u in SlotsOf(more, [], []) {
      var i :| 0 <= i < |claims| && claims[i].row.user != "" && claims[i].row.node != "" && claims[i].row.user == u;
      assert more[i] == claims[i];
    }
    assert more[|claims|] == c;
    assert more[|claims|].row.user in SlotsOf(more, [], []);
  }

  function AddTransfer(agg: map<UserId, UserRow>, t: Transfer): map<UserId, UserRow> {
    var mid := if t.from != "" then agg[t.from := Slot(agg, t.from).(sent := Slot(agg, t.from).sent + t.gb)] else agg;
    if t.to != "" then mid[t.to := Slot(mid, t.to).(received := Slot(mid, t.to).received + t.gb)] else mid
  }

  lemma AddedTransfer(agg: map<UserId, UserRow>, claims: seq<Rec<Claim>>, transfers: seq<Rec<Transfer>>,
                      t: Rec<Transfer>)
    requires UsersAggregated(agg, claims, transfers, [])
    ensures UsersAggregated(AddTransfer(agg, t.row), claims, transfers + [t], [])
  {
    hide Sum, Filter, SlotsOf, Figures, Slot;
    SlotsAfterTransfer(claims, transfers, t);
    forall u | u != "" ensures Slot(AddTransfer(agg, t.row), u) == Figures(claims, transfers + [t], [], u) {
      assert Slot(agg, u) == Figures(claims, transfers, [], u);
      AddedTransferAt(agg, claims, transfers, t, u);
    }
  }

  lemma AddedTransferAt(agg: map<UserId, UserRow>, claims: seq<Rec<Claim>>, transfers: seq<Rec<Transfer>>,
                        t: Rec<Transfer>, u: UserId)
    requires u != "" && Slot(agg, u) == Figures(claims, transfers, [], u)
    ensures Slot(AddTransfer(agg, t.row), u) == Figures(claims, transfers + [t], [], u)
  {
    hide Sum;
    SumSnoc(transfers, t, SentGb(u));
    SumSnoc(transfers, t, ReceivedGb(u));
  }

  lemma SlotsAfterTransfer(claims: seq<Rec<Claim>>, transfers: seq<Rec<Transfer>>, t: Rec<Transfer>)
    ensures SlotsOf(claims, transfers + [t], [])
         == SlotsOf(claims, transfers, []) + (if t.row.from != "" then {t.row.from} else {})
             + (if t.row.to != "" then {t.row.to} else {})
  {
    var more := transfers + [t];
    assert more[|transfers|] == t;
    assert forall i :: 0 <= i < |transfers| ==> more[i] == transfers[i];
    var f := set i | 0 <= i < |transfers| && transfers[i].row.from != "" :: transfers[i].row.from;
    var f' := set i | 0 <= i < |more| && more[i].row.from != "" :: more[i].row.from;
    var g := set i | 0 <= i < |transfers| && transfers[i].row.to != "" :: transfers[i].row.to;
    var g' := set i | 0 <= i < |more| && more[i].row.to != "" :: more[i].row.to;
    assert f' == f + (if t.row.from != "" then {t.row.from} else {}) by {
      forall u | u in f ensures u in f' {
        var i :| 0 <= i < |transfers| && transfers[i].row.from == u;
        assert more[i].row.from == u;
      }
      assert t.row.from != "" ==> more[|transfers|].row.from in f';
    }
    assert g' == g + (if t.row.to != "" then {t.row.to} else {}) by {
      forall u | u in g ensures u in g' {
        var i :| 0 <= i < |transfers| && transfers[i].row.to == u;
        assert more[i].row.to == u;
      }
      assert t.row.to != "" ==> more[|transfers|].row.to in g';
    }
  }

  function AddBucket(agg: map<UserId, UserRow>, k: Bucket): map<UserId, UserRow> {
    if k.user != "" then agg[k.user := Slot(agg, k.user).(reserved := Slot(agg, k.user).reserved + k.gb)] else agg
  }

  lemma AddedBucket(agg: map<UserId, UserRow>, claims: seq<Rec<Claim>>, transfers: seq<Rec<Transfer>>,
                    buckets: seq<Rec<Bucket>>, k: Rec<Bucket>)
    requires UsersAggregated(agg, claims, transfers, buckets)
    ensures UsersAggregated(AddBucket(agg, k.row), claims, transfers, buckets + [k])
  {
    hide Sum, Filter;
    var agg' := AddBucket(agg, k.row);
    SlotsAfterBucket(claims, transfers, buckets, k);
    forall u | u != "" ensures Slot(agg', u) == Figures(claims, transfers, buckets + [k], u) {
      SumSnoc(buckets, k, BucketGb(u));
      assert Slot(agg, u) == Figures(claims, transfers, buckets, u);
    }
  }

  lemma SlotsAfterBucket(claims: seq<Rec<Claim>>, transfers: seq<Rec<Transfer>>, buckets: seq<Rec<Bucket>>,
                         k: Rec<Bucket>)
    ensures SlotsOf(claims, transfers, buckets + [k])
        == SlotsOf(claims, transfers, buckets) + (if k.row.user != "" then {k.row.user} else {})
  {
    var more := buckets + [k];
    var f := set i | 0 <= i < |buckets| && buckets[i].row.user != "" :: buckets[i].row.user;
    var f' := set i | 0 <= i < |more| && more[i].row.user != "" :: more[i].row.user;
    assert more[|buckets|] == k;
    assert f' == f + (if k.row.user != "" then {k.row.user} else {}) by {
      forall u | u in f ensures u in f' {
        var i :| 0 <= i < |buckets| && buckets[i].row.user == u;
        assert more[i].row.user == u;
      }
      assert k.row.user != "" ==> more[|buckets|].row.user in f';
    }
  }

  /** `userSlot` gives a user without figures a slot of zeros. */
  method UserSlot(agg: map<UserId, UserRow>, u: UserId) returns (agg': map<UserId, UserRow>)
    ensures agg' == agg[u := Slot(agg, u)]
  {
    agg' := agg;
    if u !in agg' {
      agg' := agg'[u := NO_USER_ROW];
    }
  }

  method AggregateClaims(claims: seq<Rec<Claim>>) returns (nodeAgg: map<string, NodeAgg>, userAgg: map<UserId, UserRow>)
    requires CleanClaims(claims)
    ensures NodesAggregated(nodeAgg, claims)
    ensures UsersAggregated(userAgg, claims, [], [])
  {
    hide Sum, Filter, Pairs, SlotsOf;
    EmptyAggregates();
    nodeAgg, userAgg := map[], map[];
    for i := 0 to |claims|
      invariant NodesAggregated(nodeAgg, claims[..i])
      invariant UsersAggregated(userAgg, claims[..i], [], [])
    {
      var c := claims[i];
      assert claims[..i + 1] == claims[..i] + [c];
      assert CleanClaims(claims[..i]) && c in claims;
      if c.row.user == "" || c.row.node == "" {
        continue;
      }
      AddedToNode(nodeAgg, claims[..i], c);
      AddedClaim(userAgg, claims[..i], c);
      nodeAgg := CountClaim(nodeAgg, c.row);
      userAgg := UserSlot(userAgg, c.row.user);
      userAgg := userAgg[c.row.user := userAgg[c.row.user].(claims := userAgg[c.row.user].claims + c.row.gb)];
    }
    assert claims[..|claims|] == claims;
  }

  method CountClaim(agg: map<string, NodeAgg>, c: Claim) returns (agg': map<string, NodeAgg>)
    ensures agg' == AddToNode(agg, c)
  {
    var key := c.user + "::" + c.node;
    agg' := agg;
    if key !in agg' {
      agg' := agg'[key := NodeAgg(c.user, c.node, 0.0, 0)];
    }
    agg' := agg'[key := agg'[key].(gb := agg'[key].gb + c.gb, count := agg'[key].count + 1)];
  }

  lemma EmptyAggregates()
    ensures NodesAggregated(map[], [])
    ensures UsersAggregated(map[], [], [], [])
  {
  }

  method AggregateTransfers(claims: seq<Rec<Claim>>, transfers: seq<Rec<Transfer>>, agg: map<UserId, UserRow>)
    returns (userAgg: map<UserId, UserRow>)
    requires UsersAggregated(agg, claims, [], [])
    ensures UsersAggregated(userAgg, claims, transfers, [])
  {
    hide Sum, Filter, SlotsOf;
    userAgg := agg;
    for i := 0 to |transfers|
      invariant UsersAggregated(userAgg, claims, transfers[..i], [])
    {
      var t := transfers[i];
      assert transfers[..i + 1] == transfers[..i] + [t];
      AddedTransfer(userAgg, claims, transfers[..i], t);
      ghost var expected := AddTransfer(userAgg, t.row);
      if t.row.from != "" {
        userAgg := UserSlot(userAgg, t.row.from);
        userAgg := userAgg[t.row.from := userAgg[t.row.from].(sent := userAgg[t.row.from].sent + t.row.gb)];
      }
      if t.row.to != "" {
        userAgg := UserSlot(userAgg, t.row.to);
        userAgg := userAgg[t.row.to := userAgg[t.row.to].(received := userAgg[t.row.to].received + t.row.gb)];
      }
      assert userAgg == expected;
    }
    assert transfers[..|transfers|] == transfers;
  }

  method AggregateBuckets(claims: seq<Rec<Claim>>, transfers: seq<Rec<Transfer>>, buckets: seq<Rec<Bucket>>,
                          agg: map<UserId, UserRow>)
    returns (userAgg: map<UserId, UserRow>)
    requires UsersAggregated(agg, claims, transfers, [])
    ensures UsersAggregated(userAgg, claims, transfers, buckets)
  {
    hide Sum, Filter, SlotsOf;
    userAgg := agg;
    for i := 0 to |buckets|
      invariant UsersAggregated(userAgg, claims, transfers, buckets[..i])
    {
      var k := buckets[i];
      assert buckets[..i + 1] == buckets[..i] + [k];
      AddedBucket(userAgg, claims, transfers, buckets[..i], k);
      ghost var expected := AddBucket(userAgg, k.row);
      if k.row.user != "" {
        userAgg := UserSlot(userAgg, k.row.user);
        userAgg := userAgg[k.row.user := userAgg[k.row.user].(reserved := userAgg[k.row.user].reserved + k.row.gb)];
      }
      assert userAgg == expected;
    }
    assert buckets[..|buckets|] == buckets;
  }

  // ---- keeping the worst drift ----------------------------------------------------------

  /** The worst of two groups is the worse of their worsts. */
  lemma WorstMerge(s: State, a: real, pairs: set<Pair>, users: set<UserId>, b: real, pairs': set<Pair>,
                   users': set<UserId>)
    requires WorstOf(s, a, pairs, users) && WorstOf(s, b, pairs', users')
    ensures WorstOf(s, Worse(a, b), pairs + pairs', users + users')
  {
    hide NodeDiff, UserDiff;
    assert Abs(a) <= Abs(Worse(a, b)) && Abs(b) <= Abs(Worse(a, b));
  }

  lemma WorstOfOne(s: State, p: Pair)
    ensures WorstOf(s, NodeDiff(s, p), {p}, {})
    ensures Abs(NodeDiff(s, p)) <= EPSILON ==> WorstOf(s, 0.0, {p}, {})
  {
    hide NodeDiff;
  }

  /** A difference within the tolerance need not be noted. */
  lemma WorstRounded(s: State, drift: real, pairs: set<Pair>, users: set<UserId>)
    requires WorstOf(s, drift, pairs, users) && Abs(drift) <= EPSILON
    ensures WorstOf(s, 0.0, pairs, users)
  {
    hide NodeDiff, UserDiff;
  }

  function OwnDrift(s: State, u: UserId): real {
    Worse(Worse(Worse(Worse(0.0, UserDiff(s, u, Claims)), UserDiff(s, u, Sent)), UserDiff(s, u, Received)),
          UserDiff(s, u, Reserved))
  }

  lemma OwnDriftIsWorst(s: State, u: UserId)
    ensures WorstOf(s, OwnDrift(s, u), {}, {u})
    ensures UserCounted(s, u) <==> Abs(OwnDrift(s, u)) > EPSILON || u !in s.balances.users
  {
    hide UserDiff;
    forall f ensures Abs(UserDiff(s, u, f)) <= Abs(OwnDrift(s, u)) {
      match f case Claims => case Sent => case Received => case Reserved =>
    }
    assert OwnDrift(s, u) == 0.0 || exists f :: OwnDrift(s, u) == UserDiff(s, u, f);
  }

  /** The figure that leads is the drift noted, whatever is no further off comes after. */
  lemma LeaderIsNoted(s: State, u: UserId, nodeDrift: real, f: Figure)
    requires WorstOf(s, nodeDrift, PairsOf(s, u), {}) && Leads(s, u, f)
    ensures Worse(OwnDrift(s, u), nodeDrift) == UserDiff(s, u, f) && Beyond(UserDiff(s, u, f))
  {
    hide UserDiff, NodeDiff;
    assert OwnDrift(s, u) == UserDiff(s, u, f);
    assert Abs(nodeDrift) <= Abs(UserDiff(s, u, f));
  }

  // ---- what the node pass has noted -----------------------------------------------------

  datatype Tally = Tally(corrected: nat, driftGb: real, byUser: map<UserId, real>)

  function NodeDriftOf(t: Tally, u: UserId): real {
    if u in t.byUser then t.byUser[u] else 0.0
  }

  function Note(t: Tally, u: UserId, diff: real): Tally {
    Tally(t.corrected + 1, Worse(t.driftGb, diff), t.byUser[u := Worse(NodeDriftOf(t, u), diff)])
  }

  function Among(pairs: set<Pair>, u: UserId): set<Pair> {
    set p | p in pairs && p.0 == u
  }

  function CountedAmong(s: State, pairs: set<Pair>): set<Pair> {
    set p | p in pairs && NodeCounted(s, p)
  }

  ghost predicate Tallied(s: State, t: Tally, done: set<Pair>) {
    && t.corrected == |CountedAmong(s, done)|
    && WorstOf(s, t.driftGb, done, {})
    && (forall u :: WorstOf(s, NodeDriftOf(t, u), Among(done, u), {}))
  }

  lemma TallyNote(s: State, t: Tally, done: set<Pair>, p: Pair)
    requires Tallied(s, t, done) && p !in done && NodeCounted(s, p)
    ensures Tallied(s, Note(t, p.0, NodeDiff(s, p)), done + {p})
  {
    hide NodeDiff, WorstOf, NodeCounted;
    var t' := Note(t, p.0, NodeDiff(s, p));
    assert CountedAmong(s, done + {p}) == CountedAmong(s, done) + {p};
    WorstOfOne(s, p);
    WorstMerge(s, t.driftGb, done, {}, NodeDiff(s, p), {p}, {});
    forall u ensures WorstOf(s, NodeDriftOf(t', u), Among(done + {p}, u), {}) {
      if u == p.0 {
        WorstMerge(s, NodeDriftOf(t, u), Among(done, u), {}, NodeDiff(s, p), {p}, {});
        assert Among(done + {p}, u) == Among(done, u) + {p};
      } else {
        assert Among(done + {p}, u) == Among(done, u);
      }
    }
  }

  lemma TallySkip(s: State, t: Tally, done: set<Pair>, p: Pair)
    requires Tallied(s, t, done) && p !in done && !NodeCounted(s, p)
    ensures Tallied(s, t, done + {p})
  {
    hide NodeDiff, WorstOf;
    assert CountedAmong(s, done + {p}) == CountedAmong(s, done);
    WorstOfOne(s, p);
    assert forall x :: Worse(x, 0.0) == x;
    var none: set<UserId> := {};
    assert none + none == none;
    WorstMerge(s, t.driftGb, done, none, 0.0, {p}, none);
    forall u ensures WorstOf(s, NodeDriftOf(t, u), Among(done + {p}, u), {}) {
      if u == p.0 {
        WorstMerge(s, NodeDriftOf(t, u), Among(done, u), none, 0.0, {p}, none);
        assert Among(done + {p}, u) == Among(done, u) + {p};
      } else {
        assert Among(done + {p}, u) == Among(done, u);
      }
    }
  }

  // ---- node balances --------------------------------------------------------------------

  ghost predicate CleanRows(rows: map<Pair, NodeRow>) {
    forall p :: p in rows ==> ValidUserId(p.0) && p.1 != ""
  }

  /** `seen` finds every stored row under its string key. */
  ghost predicate Indexed(seen: map<string, Pair>, rows: map<Pair, NodeRow>) {
    && (forall p :: p in rows ==> PairKey(p) in seen && seen[PairKey(p)] == p)
    && (forall k :: k in seen ==> seen[k] in rows && PairKey(seen[k]) == k)
  }

  method IndexRows(rows: map<Pair, NodeRow>) returns (seen: map<string, Pair>)
    requires CleanRows(rows)
    ensures Indexed(seen, rows)
  {
    seen := map[];
    var pending := rows.Keys;
    while pending != {}
      invariant pending <= rows.Keys
      invariant forall p :: p in rows && p !in pending ==> PairKey(p) in seen && seen[PairKey(p)] == p
      invariant forall k :: k in seen ==> seen[k] in rows && PairKey(seen[k]) == k
      decreases pending
    {
      var p :| p in pending;
      forall q | q in rows && PairKey(q) == PairKey(p) ensures q == p { PairKeyInjective(p, q); }
      seen := seen[p.0 + "::" + p.1 := p];
      pending := pending - {p};
    }
  }

  lemma SeenRow(seen: map<string, Pair>, rows: map<Pair, NodeRow>, p: Pair)
    requires Indexed(seen, rows) && CleanRows(rows) && ValidUserId(p.0)
    ensures PairKey(p) in seen <==> p in rows
    ensures PairKey(p) in seen ==> seen[PairKey(p)] == p
  {
    if PairKey(p) in seen { PairKeyInjective(p, seen[PairKey(p)]); }
  }

  /** Give every ledger pair its row, noting what the stored figure was off by. */
  method CorrectPairs(db: Database, nodeAgg: map<string, NodeAgg>, seen: map<string, Pair>, ghost s: State)
    returns (t: Tally)
    requires s == db.Now() && CleanClaims(s.claims) && CleanRows(s.balances.nodes)
    requires NodesAggregated(nodeAgg, s.claims) && Indexed(seen, s.balances.nodes)
    modifies db`nodeRows
    ensures Tallied(s, t, Pairs(s.claims))
    ensures forall p :: p in Pairs(s.claims) ==> p in db.nodeRows && db.nodeRows[p] == NodeFigures(s, p.0, p.1)
    ensures forall p :: p !in Pairs(s.claims) ==> (p in db.nodeRows <==> p in s.balances.nodes)
    ensures forall p :: p !in Pairs(s.claims) && p in db.nodeRows ==> db.nodeRows[p] == s.balances.nodes[p]
  {
    hide Sum, Filter, Pairs, PairKey, WorstOf, ValidUserId, Tallied, Indexed, CleanRows, CleanClaims, Abs;
    var existing := db.nodeRows;
    t := Tally(0, 0.0, map[]);
    TallyEmpty(s);
    ghost var done: set<Pair> := {};
    var pending := nodeAgg.Keys;
    while pending != {}
      invariant pending <= nodeAgg.Keys && done <= Pairs(s.claims)
      invariant forall p :: p in Pairs(s.claims) ==> (p in done <==> PairKey(p) !in pending)
      invariant Tallied(s, t, done)
      invariant forall p :: p in done ==> p in db.nodeRows && db.nodeRows[p] == NodeFigures(s, p.0, p.1)
      invariant forall p :: p !in done ==> (p in db.nodeRows <==> p in existing)
      invariant forall p :: p !in done && p in db.nodeRows ==> db.nodeRows[p] == existing[p]
      decreases pending
    {
      var key :| key in pending;
      var want := nodeAgg[key];
      ghost var p := (want.user, want.node);
      PairsAreClean(s.claims, p);
      SeenRow(seen, existing, p);
      var had := if key in seen then existing[seen[key]].claimed else 0.0;
      var diff := want.gb - had;
      assert diff == NodeDiff(s, p);
      if Abs(diff) > EPSILON || key !in seen {
        TallyNote(s, t, done, p);
        t := Note(t, want.user, diff);
      } else {
        TallySkip(s, t, done, p);
      }
      db.nodeRows := db.nodeRows[(want.user, want.node) := NodeRow(want.gb, want.count)];
      pending := pending - {key};
      done := done + {p};
    }
    assert done == Pairs(s.claims);
  }

  lemma TallyEmpty(s: State)
    ensures Tallied(s, Tally(0, 0.0, map[]), {})
  {
    assert CountedAmong(s, {}) == {};
  }

  /** Drop every row left without ledger entries, noting what it still held. */
  method DropOrphans(db: Database, nodeAgg: map<string, NodeAgg>, seen: map<string, Pair>, existing: map<Pair, NodeRow>,
                     t0: Tally, ghost s: State)
    returns (t: Tally)
    requires existing == s.balances.nodes && CleanClaims(s.claims) && CleanRows(existing)
    requires NodesAggregated(nodeAgg, s.claims) && Indexed(seen, existing)
    requires Tallied(s, t0, Pairs(s.claims))
    requires forall p :: p in Pairs(s.claims) ==> p in db.nodeRows && db.nodeRows[p] == NodeFigures(s, p.0, p.1)
    requires forall p :: p in db.nodeRows ==> p in Pairs(s.claims) || p in existing
    modifies db`nodeRows
    ensures Tallied(s, t, AllPairs(s))
    ensures forall p :: p in db.nodeRows <==> p in Pairs(s.claims)
    ensures forall p :: p in Pairs(s.claims) ==> db.nodeRows[p] == NodeFigures(s, p.0, p.1)
  {
    hide Sum, Filter, Pairs, PairKey, WorstOf, ValidUserId, Tallied;
    t := t0;
    ghost var done := Pairs(s.claims);
    var pending := seen.Keys;
    while pending != {}
      invariant pending <= seen.Keys && Pairs(s.claims) <= done <= AllPairs(s)
      invariant forall p :: p in existing && PairKey(p) !in pending ==> p in done
      invariant forall p :: p in existing && PairKey(p) in pending ==> p in Pairs(s.claims) || p !in done
      invariant Tallied(s, t, done)
      invariant forall p :: p in Pairs(s.claims) ==> p in db.nodeRows && db.nodeRows[p] == NodeFigures(s, p.0, p.1)
      invariant forall p :: p in db.nodeRows ==> p in Pairs(s.claims) || p in existing
      invariant forall p :: p in db.nodeRows && p in done ==> p in Pairs(s.claims)
      decreases pending
    {
      var key :| key in pending;
      var orphan := seen[key];
      KeyTaken(nodeAgg, s.claims, orphan);
      forall q | q in existing && PairKey(q) == key ensures q == orphan { SeenRow(seen, existing, q); }
      if key !in nodeAgg {
        OrphanDiff(s, orphan);
        var had := existing[orphan].claimed;
        if Abs(had) > EPSILON {
          TallyNote(s, t, done, orphan);
          t := Note(t, orphan.0, -had);
        } else {
          TallySkip(s, t, done, orphan);
        }
        db.nodeRows := db.nodeRows - {orphan};
        done := done + {orphan};
      }
      pending := pending - {key};
    }
    assert done == AllPairs(s);
  }

  lemma OrphanDiff(s: State, p: Pair)
    requires p in s.balances.nodes && p !in Pairs(s.claims) && ValidUserId(p.0) && p.1 != ""
    ensures NodeDiff(s, p) == -s.balances.nodes[p].claimed
    ensures NodeCounted(s, p) <==> Abs(s.balances.nodes[p].claimed) > EPSILON
  {
    OutsidePairs(s.claims, p.0, p.1);
  }

  // ---- user balances --------------------------------------------------------------------

  function CountedUsersAmong(s: State, users: set<UserId>): set<UserId> {
    set u | u in users && UserCounted(s, u)
  }

  ghost predicate RowRight(s: State, u: UserId, row: UserRow) {
    && row.(lastDrift := 0.0) == UserFigures(s, u)
    && WorstOf(s, row.lastDrift, PairsOf(s, u), {u})
    && (row.lastDrift == 0.0 || Beyond(row.lastDrift))
    && KeepsFirst(s, u, row.lastDrift)
  }

  /** What the user pass has added to the node pass's report. */
  ghost predicate Totalled(s: State, corrected: nat, driftGb: real, done: set<UserId>) {
    && corrected == |CountedPairs(s)| + |CountedUsersAmong(s, done)|
    && WorstOf(s, driftGb, AllPairs(s), done)
  }

  lemma TotalStart(s: State, t: Tally)
    requires Tallied(s, t, AllPairs(s))
    ensures Totalled(s, t.corrected, t.driftGb, {})
    ensures forall u :: WorstOf(s, NodeDriftOf(t, u), PairsOf(s, u), {})
  {
    hide WorstOf, NodeCounted, UserCounted;
    assert CountedAmong(s, AllPairs(s)) == CountedPairs(s);
    assert CountedUsersAmong(s, {}) == {};
    forall u ensures WorstOf(s, NodeDriftOf(t, u), PairsOf(s, u), {}) {
      assert Among(AllPairs(s), u) == PairsOf(s, u);
    }
  }

  lemma TotalStep(s: State, corrected: nat, driftGb: real, done: set<UserId>, u: UserId)
    requires Totalled(s, corrected, driftGb, done) && u !in done
    ensures UserCounted(s, u) ==> Totalled(s, corrected + 1, Worse(driftGb, OwnDrift(s, u)), done + {u})
    ensures !UserCounted(s, u) ==> Totalled(s, corrected, driftGb, done + {u})
  {
    hide WorstOf, UserCounted, OwnDrift, NodeCounted;
    OwnDriftIsWorst(s, u);
    var none: set<Pair> := {};
    assert AllPairs(s) + none == AllPairs(s);
    if UserCounted(s, u) {
      assert CountedUsersAmong(s, done + {u}) == CountedUsersAmong(s, done) + {u};
      WorstMerge(s, driftGb, AllPairs(s), done, OwnDrift(s, u), none, {u});
    } else {
      assert CountedUsersAmong(s, done + {u}) == CountedUsersAmong(s, done);
      WorstRounded(s, OwnDrift(s, u), none, {u});
      WorstMerge(s, driftGb, AllPairs(s), done, 0.0, none, {u});
      assert Worse(driftGb, 0.0) == driftGb;
    }
  }

  /** The drift kept on a user's row: the worse of their own and their nodes', rounded. */
  lemma {:induction false} RowDriftRight(s: State, u: UserId, nodeDrift: real)
    requires WorstOf(s, nodeDrift, PairsOf(s, u), {})
    ensures var drift := Worse(OwnDrift(s, u), nodeDrift);
      RowRight(s, u, UserFigures(s, u).(lastDrift := if Abs(drift) > EPSILON then drift else 0.0))
  {
    hide WorstOf, OwnDrift, Sum, Slots, Leads;
    var drift := Worse(OwnDrift(s, u), nodeDrift);
    var nobody: set<UserId> := {};
    var noPairs: set<Pair> := {};
    OwnDriftIsWorst(s, u);
    WorstMerge(s, OwnDrift(s, u), noPairs, {u}, nodeDrift, PairsOf(s, u), nobody);
    assert noPairs + PairsOf(s, u) == PairsOf(s, u) && {u} + nobody == {u};
    if Abs(drift) <= EPSILON { WorstRounded(s, drift, PairsOf(s, u), {u}); }
    forall f | Leads(s, u, f) ensures drift == UserDiff(s, u, f) && Beyond(drift) {
      LeaderIsNoted(s, u, nodeDrift, f);
    }
  }

  method CorrectUsers(db: Database, userAgg: map<UserId, UserRow>, t: Tally, ghost s: State)
    returns (corrected: nat, driftGb: real)
    requires db.userRows == s.balances.users && userAgg.Keys == Slots(s)
    requires forall u :: u in userAgg ==> userAgg[u] == UserFigures(s, u)
    requires Tallied(s, t, AllPairs(s))
    modifies db`userRows
    ensures Totalled(s, corrected, driftGb, Slots(s))
    ensures forall u :: u in Slots(s) ==> u in db.userRows && RowRight(s, u, db.userRows[u])
    ensures forall u :: u in db.userRows ==> u in Slots(s) || u in s.balances.users
  {
    hide Sum, Slots, WorstOf, Tallied, Totalled, AllPairs, UserCounted, UserFigures, Worse, Abs, RowRight;
    TotalStart(s, t);
    var existing := db.userRows;
    var nodeDrift := t.byUser;
    corrected, driftGb := t.corrected, t.driftGb;
    var pending := userAgg.Keys;
    assert userAgg.Keys - pending == {};
    while pending != {}
      invariant pending <= userAgg.Keys
      invariant Totalled(s, corrected, driftGb, userAgg.Keys - pending)
      invariant forall u :: u in userAgg && u !in pending ==> u in db.userRows && RowRight(s, u, db.userRows[u])
      invariant forall u :: u in db.userRows ==> u in userAgg || u in existing
      invariant forall u :: u in pending ==> (u in nodeDrift <==> u in t.byUser)
      invariant forall u :: u in pending && u in nodeDrift ==> nodeDrift[u] == t.byUser[u]
      decreases pending
    {
      var u :| u in pending;
      var want := userAgg[u];
      var had := if u in existing then existing[u] else NO_USER_ROW;
      var ownDrift := 0.0;
      ownDrift := Worse(ownDrift, want.claims - had.claims);
      ownDrift := Worse(ownDrift, want.sent - had.sent);
      ownDrift := Worse(ownDrift, want.received - had.received);
      ownDrift := Worse(ownDrift, want.reserved - had.reserved);
      assert ownDrift == OwnDrift(s, u);
      TotalStep(s, corrected, driftGb, userAgg.Keys - pending, u);
      OwnDriftIsWorst(s, u);
      if Abs(ownDrift) > EPSILON || u !in existing {
        corrected := corrected + 1;
        driftGb := Worse(driftGb, ownDrift);
      }
      RowDriftRight(s, u, NodeDriftOf(t, u));
      var rowDrift := Worse(ownDrift, if u in nodeDrift then nodeDrift[u] else 0.0);
      nodeDrift := nodeDrift - {u};
      db.userRows := db.userRows[u := want.(lastDrift := if Abs(rowDrift) > EPSILON then rowDrift else 0.0)];
      assert userAgg.Keys - (pending - {u}) == userAgg.Keys - pending + {u};
      pending := pending - {u};
    }
    assert userAgg.Keys - pending == Slots(s);
  }

  method DropUsers(db: Database, userAgg: map<UserId, UserRow>, existing: map<UserId, UserRow>)
    requires forall u :: u in db.userRows ==> u in userAgg || u in existing
    modifies db`userRows
    ensures db.userRows == map u | u in old(db.userRows) && u in userAgg :: old(db.userRows)[u]
  {
    var pending := existing.Keys;
    while pending != {}
      invariant forall u :: u in db.userRows <==> u in old(db.userRows) && (u in userAgg || u in pending)
      invariant forall u :: u in db.userRows ==> db.userRows[u] == old(db.userRows)[u]
      decreases pending
    {
      var u :| u in pending;
      if u !in userAgg {
        db.userRows := db.userRows - {u};
      }
      pending := pending - {u};
    }
  }

  // ---- the whole recomputation ----------------------------------------------------------

  /** Every reachable state has the clean rows the string keys need. */
  lemma ReachableIsClean(requests: seq<Request>)
    ensures CleanClaims(Run(EMPTY, requests).claims) && CleanRows(Run(EMPTY, requests).balances.nodes)
  {
    hide Run, Sum, Filter;
    EmptyIsConsistent();
    RunKeeps(EMPTY, requests);
    var s := Run(EMPTY, requests);
    forall c | c in s.claims ensures ValidUserId(c.row.user) && c.row.node != "" { assert c.row.user in s.users; }
  }

  method RebuildAll(db: Database) returns (report: Report)
    requires CleanClaims(db.claims) && CleanRows(db.nodeRows)
    modifies db`nodeRows, db`userRows
    ensures Rebuilt(old(db.Now()), db.Now().balances, report)
  {
    hide Sum, SlotsOf, Pairs, WorstOf;
    ghost var s := db.Now();
    var nodeAgg, claimAgg := AggregateClaims(db.claims);
    var transferAgg := AggregateTransfers(db.claims, db.transfers, claimAgg);
    var userAgg := AggregateBuckets(db.claims, db.transfers, db.buckets, transferAgg);
    assert forall u :: u in userAgg ==> userAgg[u] == UserFigures(s, u) by { SlotFigures(s, userAgg); }
    var existing := db.nodeRows;
    var seen := IndexRows(existing);
    var t := CorrectPairs(db, nodeAgg, seen, s);
    t := DropOrphans(db, nodeAgg, seen, existing, t, s);
    var existingUsers := db.userRows;
    var corrected, driftGb := CorrectUsers(db, userAgg, t, s);
    DropUsers(db, userAgg, existingUsers);
    NodeKeys(nodeAgg, s.claims);
    report := Report(|userAgg|, |nodeAgg|, corrected, driftGb);
    RebuiltFrom(s, db.Now().balances, report);
  }

  lemma SlotFigures(s: State, agg: map<UserId, UserRow>)
    requires UsersAggregated(agg, s.claims, s.transfers, s.buckets)
    ensures forall u :: u in agg ==> agg[u] == UserFigures(s, u)
  {
    hide Sum;
    forall u | u in agg ensures agg[u] == UserFigures(s, u) {
      assert u != "" by { assert u in SlotsOf(s.claims, s.transfers, s.buckets); }
      assert Slot(agg, u) == Figures(s.claims, s.transfers, s.buckets, u);
    }
  }

  lemma {:induction false} SameSize<A(!new), B(!new)>(a: set<A>, b: set<B>, f: A -> B)
    requires forall x :: x in a ==> f(x) in b
    requires forall x, y :: x in a && y in a && f(x) == f(y) ==> x == y
    requires forall y :: y in b ==> exists x :: x in a && f(x) == y
    ensures |a| == |b|
    decreases a
  {
    if a == {} {
      assert b == {};
    } else {
      var x :| x in a;
      SameSize(a - {x}, b - {f(x)}, f);
    }
  }

  lemma NodeKeys(agg: map<string, NodeAgg>, claims: seq<Rec<Claim>>)
    requires NodesAggregated(agg, claims) && CleanClaims(claims)
    ensures |agg| == |Pairs(claims)|
  {
    hide Sum, Filter, Pairs, PairKey;
    forall p, q | p in Pairs(claims) && q in Pairs(claims) && PairKey(p) == PairKey(q) ensures p == q { }
    SameSize(Pairs(claims), agg.Keys, p => PairKey(p));
  }

  lemma {:induction false} RebuiltFrom(s: State, b: Balances, report: Report)
    requires forall p :: p in b.nodes <==> p in Pairs(s.claims)
    requires forall p :: p in Pairs(s.claims) ==> b.nodes[p] == NodeFigures(s, p.0, p.1)
    requires b.users.Keys == Slots(s) && forall u :: u in Slots(s) ==> RowRight(s, u, b.users[u])
    requires Totalled(s, report.corrected, report.driftGb, Slots(s))
    requires report.users == |Slots(s)| && report.nodes == |Pairs(s.claims)|
    ensures Rebuilt(s, b, report)
  {
    hide Sum, Filter, Slots, Pairs, WorstOf, UserFigures, NodeFigures, Recomputed, UserCounted, CountedPairs;
    hide AllPairs, PairsOf;
    assert CountedUsersAmong(s, Slots(s)) == CountedUsers(s);
    NodesRecomputed(s, b);
  }

  lemma NodesRecomputed(s: State, b: Balances)
    requires forall p :: p in b.nodes <==> p in Pairs(s.claims)
    requires forall p :: p in Pairs(s.claims) ==> b.nodes[p] == NodeFigures(s, p.0, p.1)
    ensures b.nodes == Recomputed(s).nodes
  {
    hide Pairs, NodeFigures, Slots, UserFigures;
  }
}
