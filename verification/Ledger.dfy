/** The storage ledgers, the balances cached from them and the claim audit trail, as values, and
    what each committed request does to them (pocketbase/pb_hooks/main.pb.js with
    lib/storage-balance.js and lib/claim-audit.js). Amounts are exact reals. */
module Ledger {
  import opened Sums
  import opened Tables
  import opened SignupGate

  type UserId = string
  type NodeId = string

  datatype Claim = Claim(user: UserId, node: NodeId, gb: real)
  datatype Transfer = Transfer(from: UserId, to: UserId, gb: real)
  datatype Bucket = Bucket(user: UserId, gb: real)

  datatype NodeRow = NodeRow(claimed: real, entries: int)
  datatype UserRow = UserRow(claims: real, sent: real, received: real, reserved: real, lastDrift: real)
  datatype Balances = Balances(nodes: map<(UserId, NodeId), NodeRow>, users: map<UserId, UserRow>)

  datatype Action = Created | Updated | Deleted
  datatype AuditRow = AuditRow(action: Action, claimId: string, user: UserId, node: NodeId,
                               previousGb: real, newGb: real, deltaGb: real, cascade: bool)

  datatype State = State(users: map<UserId, string>, admins: set<UserId>,
                         claims: seq<Rec<Claim>>, transfers: seq<Rec<Transfer>>, buckets: seq<Rec<Bucket>>,
                         balances: Balances, audit: seq<AuditRow>)

  const EMPTY := State(map[], {}, [], [], [], Balances(map[], map[]), [])

  /** One write of the recomputation to the balance tables. */
  datatype RowWrite = SaveNode(user: UserId, node: NodeId) | DropNode(user: UserId, node: NodeId)
                    | SaveUser(user: UserId, drift: real) | DropUserRow(user: UserId)

  /** The requests. `Rebuild` is the nightly recomputation, with the drift it notes on the user
      rows, and `StoppedRebuild` one that throws after some of its writes: it runs in no
      transaction, so they stay. The last four come from the sign-up and administrator hooks. */
  datatype Op =
    | CreateClaim(id: string, claim: Claim)
    | UpdateClaim(id: string, claim: Claim)
    | DeleteClaim(id: string)
    | CreateTransfer(id: string, transfer: Transfer)
    | DeleteTransfer(id: string)
    | CreateBucket(id: string, bucket: Bucket)
    | UpdateBucket(id: string, bucket: Bucket)
    | DeleteBucket(id: string)
    | DeleteUser(user: UserId)
    | Rebuild(noted: map<UserId, real>)
    | StoppedRebuild(writes: seq<RowWrite>)
    | SignUp(user: UserId, signup: Signup, promotionSaves: bool)
    | AddAdmin(user: UserId)
    | MoveAdmin(user: UserId, to: UserId)
    | RemoveAdmin(user: UserId)

  // ---- reading a cached figure: a missing row reads as zero -----------------------------

  const NO_NODE_ROW := NodeRow(0.0, 0)
  const NO_USER_ROW := UserRow(0.0, 0.0, 0.0, 0.0, 0.0)

  function NodeAt(b: Balances, u: UserId, n: NodeId): NodeRow {
    if (u, n) in b.nodes then b.nodes[(u, n)] else NO_NODE_ROW
  }

  function UserAt(b: Balances, u: UserId): UserRow {
    if u in b.users then b.users[u] else NO_USER_ROW
  }

  /** A user's four figures, without the drift the last recomputation noted. */
  function UserAmounts(b: Balances, u: UserId): UserRow {
    UserAt(b, u).(lastDrift := 0.0)
  }

  // ---- the ledger figures the cache stands for ------------------------------------------

  function OfPair(u: UserId, n: NodeId): Rec<Claim> -> bool {
    (c: Rec<Claim>) => c.row.user == u && c.row.node == n
  }

  function PairGb(u: UserId, n: NodeId): Rec<Claim> -> real {
    (c: Rec<Claim>) => if c.row.user == u && c.row.node == n then c.row.gb else 0.0
  }

  function UserGb(u: UserId): Rec<Claim> -> real {
    (c: Rec<Claim>) => if c.row.user == u then c.row.gb else 0.0
  }

  function IdGb(id: string): Rec<Claim> -> real {
    (c: Rec<Claim>) => if c.id == id then c.row.gb else 0.0
  }

  function ClaimGb(): Rec<Claim> -> real {
    (c: Rec<Claim>) => c.row.gb
  }

  function SentGb(u: UserId): Rec<Transfer> -> real {
    (t: Rec<Transfer>) => if t.row.from == u then t.row.gb else 0.0
  }

  function ReceivedGb(u: UserId): Rec<Transfer> -> real {
    (t: Rec<Transfer>) => if t.row.to == u then t.row.gb else 0.0
  }

  function BucketGb(u: UserId): Rec<Bucket> -> real {
    (k: Rec<Bucket>) => if k.row.user == u then k.row.gb else 0.0
  }

  function IdDelta(id: string): AuditRow -> real {
    (a: AuditRow) => if a.claimId == id then a.deltaGb else 0.0
  }

  function PairDelta(u: UserId, n: NodeId): AuditRow -> real {
    (a: AuditRow) => if a.user == u && a.node == n then a.deltaGb else 0.0
  }

  function Delta(): AuditRow -> real {
    (a: AuditRow) => a.deltaGb
  }

  // ---- the three delta writers ----------------------------------------------------------

  function ClaimDelta(b: Balances, u: UserId, n: NodeId, gb: real, entries: int): Balances {
    if u == "" || n == "" then b
    else
      var node := NodeAt(b, u, n);
      var user := UserAt(b, u);
      var count := if node.entries + entries < 0 then 0 else node.entries + entries;
      Balances(b.nodes[(u, n) := NodeRow(node.claimed + gb, count)],
               b.users[u := user.(claims := user.claims + gb)])
  }

  function SentDelta(b: Balances, u: UserId, gb: real): Balances {
    if u == "" || gb == 0.0 then b
    else b.(users := b.users[u := UserAt(b, u).(sent := Max(UserAt(b, u).sent + gb, 0.0))])
  }

  function ReceivedDelta(b: Balances, u: UserId, gb: real): Balances {
    if u == "" || gb == 0.0 then b
    else b.(users := b.users[u := UserAt(b, u).(received := Max(UserAt(b, u).received + gb, 0.0))])
  }

  /** An empty id stands for the null party of a cascade: that side is left alone. */
  function TransferDelta(b: Balances, from: UserId, to: UserId, gb: real): Balances {
    ReceivedDelta(SentDelta(b, from, gb), to, gb)
  }

  function AllocationDelta(b: Balances, u: UserId, gb: real): Balances {
    if u == "" || gb == 0.0 then b
    else b.(users := b.users[u := UserAt(b, u).(reserved := Max(UserAt(b, u).reserved + gb, 0.0))])
  }

  function AuditOf(action: Action, id: string, claim: Claim, previousGb: real, newGb: real, cascade: bool): AuditRow {
    AuditRow(action, id, claim.user, claim.node, previousGb, newGb, newGb - previousGb, cascade)
  }

  // ---- what the database itself refuses -------------------------------------------------

  predicate ValidClaim(s: State, c: Claim) {
    c.user in s.users && c.node != ""
  }

  /** The minimum binds an amount that is given; an empty one reads as zero. */
  predicate ValidTransfer(s: State, t: Transfer) {
    t.from in s.users && t.to in s.users && (t.gb == 0.0 || t.gb >= 0.001)
  }

  predicate ValidBucket(s: State, k: Bucket) {
    k.user in s.users && k.gb >= 0.0
  }

  /** A balance row can be saved for the user: its account still exists. Nothing is ever saved for
      an empty id. */
  predicate Stands(users: set<UserId>, u: UserId) {
    u == "" || u in users
  }

  /** Every party other than `u` of a transfer that holds something. */
  predicate PartiesStand(users: set<UserId>, transfers: seq<Rec<Transfer>>, u: UserId) {
    forall t :: t in transfers && t.row.gb != 0.0 ==>
      (t.row.from == u || Stands(users, t.row.from)) && (t.row.to == u || Stands(users, t.row.to))
  }

  /** Record ids match `^[a-z0-9]+$`. */
  predicate ValidUserId(u: UserId) {
    u != "" && forall i :: 0 <= i < |u| ==> 'a' <= u[i] <= 'z' || '0' <= u[i] <= '9'
  }

  predicate OwnsBucket(s: State, u: UserId) {
    exists i :: 0 <= i < |s.buckets| && s.buckets[i].row.user == u
  }

  /** The request goes through: no hook throws and the default handler can save. */
  predicate Accepts(s: State, op: Op) {
    match op
    case CreateClaim(id, c) => !Has(s.claims, id) && ValidClaim(s, c)
    case UpdateClaim(id, c) => Has(s.claims, id) && ValidClaim(s, c)
    case DeleteClaim(id) => Has(s.claims, id)
    case CreateTransfer(id, t) => !Has(s.transfers, id) && ValidTransfer(s, t)
    case DeleteTransfer(id) => Has(s.transfers, id)
    case CreateBucket(id, k) => !Has(s.buckets, id) && ValidBucket(s, k)
    case UpdateBucket(id, k) => Has(s.buckets, id) && ValidBucket(s, k)
    case DeleteBucket(id) => Has(s.buckets, id)
    case DeleteUser(u) => u in s.users && MayLoseAdmin(s.admins, u) && !OwnsBucket(s, u)
    case Rebuild(noted) => forall u :: u in noted && noted[u] != 0.0 ==> Drifts(s, u)
    case StoppedRebuild(writes) => forall w :: w in writes ==> Planned(s, w)
    case SignUp(u, signup, _) =>
      u !in s.users && ValidUserId(u) && DecideSignup(signup, |s.admins|).allow
    case AddAdmin(u) => u in s.users && u !in s.admins
    case MoveAdmin(u, to) => u in s.admins && to in s.users && to !in s.admins
    case RemoveAdmin(u) => u in s.admins && |s.admins| > 1
  }

  /** Both administrator guards: the last one can be removed neither directly nor by deleting the
      account that holds it. */
  predicate MayLoseAdmin(admins: set<UserId>, u: UserId) {
    u in admins ==> |admins| > 1
  }

  // ---- what an accepted request commits -------------------------------------------------

  function Commit(s: State, op: Op): State
    requires Accepts(s, op)
  {
    match op
    case CreateClaim(id, c) =>
      s.(claims := Insert(s.claims, id, c),
         audit := s.audit + [AuditOf(Created, id, c, 0.0, c.gb, false)],
         balances := ClaimDelta(s.balances, c.user, c.node, c.gb, 1))
    case UpdateClaim(id, c) =>
      var was := Get(s.claims, id);
      s.(claims := Replace(s.claims, id, c),
         audit := s.audit + [AuditOf(Updated, id, c, was.gb, c.gb, false)],
         balances := MoveClaim(s.balances, was, c))
    case DeleteClaim(id) =>
      var was := Get(s.claims, id);
      s.(claims := Remove(s.claims, id),
         audit := s.audit + [AuditOf(Deleted, id, was, was.gb, 0.0, false)],
         balances := ClaimDelta(s.balances, was.user, was.node, -was.gb, -1))
    case CreateTransfer(id, t) =>
      s.(transfers := Insert(s.transfers, id, t),
         balances := TransferDelta(s.balances, t.from, t.to, t.gb))
    case DeleteTransfer(id) =>
      var was := Get(s.transfers, id);
      s.(transfers := Remove(s.transfers, id),
         balances := TransferDelta(s.balances, was.from, was.to, -was.gb))
    case CreateBucket(id, k) =>
      s.(buckets := Insert(s.buckets, id, k), balances := AllocationDelta(s.balances, k.user, k.gb))
    case UpdateBucket(id, k) =>
      var was := Get(s.buckets, id);
      s.(buckets := Replace(s.buckets, id, k), balances := MoveBucket(s.balances, was, k))
    case DeleteBucket(id) =>
      var was := Get(s.buckets, id);
      s.(buckets := Remove(s.buckets, id), balances := AllocationDelta(s.balances, was.user, -was.gb))
    case DeleteUser(u) => CascadeUser(s, u)
    case Rebuild(noted) => s.(balances := Annotated(Recomputed(s), noted))
    case StoppedRebuild(writes) => s.(balances := Written(s, s.balances, writes))
    case SignUp(u, signup, promotionSaves) =>
      s.(users := s.users[u := signup.email],
         admins := if promotionSaves && Promotes(s, signup) then s.admins + {u} else s.admins)
    case AddAdmin(u) => s.(admins := s.admins + {u})
    case MoveAdmin(u, to) => s.(admins := s.admins - {u} + {to})
    case RemoveAdmin(u) => s.(admins := s.admins - {u})
  }

  /** The owner promotion fires: the configured address signed up while nobody is administrator. */
  predicate Promotes(s: State, signup: Signup) {
    signup.ownerEmail != "" && signup.email == signup.ownerEmail && |s.admins| == 0
  }

  function MoveClaim(b: Balances, was: Claim, c: Claim): Balances {
    if was.user == c.user && was.node == c.node then ClaimDelta(b, c.user, c.node, c.gb - was.gb, 0)
    else ClaimDelta(ClaimDelta(b, was.user, was.node, -was.gb, -1), c.user, c.node, c.gb, 1)
  }

  function MoveBucket(b: Balances, was: Bucket, k: Bucket): Balances {
    if was.user == k.user then
      if was.gb != k.gb then AllocationDelta(b, k.user, k.gb - was.gb) else b
    else AllocationDelta(AllocationDelta(b, was.user, -was.gb), k.user, k.gb)
  }

  // ---- deleting a user ------------------------------------------------------------------

  function ClaimsOf(u: UserId): Rec<Claim> -> bool {
    (c: Rec<Claim>) => c.row.user == u
  }

  function ClaimsNotOf(u: UserId): Rec<Claim> -> bool {
    (c: Rec<Claim>) => c.row.user != u
  }

  function TransfersOf(u: UserId): Rec<Transfer> -> bool {
    (t: Rec<Transfer>) => t.row.from == u || t.row.to == u
  }

  function TransfersNotOf(u: UserId): Rec<Transfer> -> bool {
    (t: Rec<Transfer>) => t.row.from != u && t.row.to != u
  }

  /** The rows the database drops with the account, and the cached rows with them. */
  function DropUser(s: State, u: UserId): State {
    s.(users := s.users - {u}, admins := s.admins - {u},
       claims := Filter(s.claims, ClaimsNotOf(u)),
       transfers := Filter(s.transfers, TransfersNotOf(u)),
       balances := Balances(map p | p in s.balances.nodes && p.0 != u :: s.balances.nodes[p],
                            s.balances.users - {u}))
  }

  /** Unwind the surviving counterparty of each of the deleted user's transfers. */
  function Unwind(b: Balances, snapshots: seq<Rec<Transfer>>, u: UserId): Balances {
    if snapshots == [] then b
    else
      var t := snapshots[|snapshots| - 1].row;
      TransferDelta(Unwind(b, snapshots[..|snapshots| - 1], u),
                    if t.from == u then "" else t.from, if t.to == u then "" else t.to, -t.gb)
  }

  function CascadeAudit(snapshots: seq<Rec<Claim>>): seq<AuditRow> {
    if snapshots == [] then []
    else
      var c := snapshots[|snapshots| - 1];
      CascadeAudit(snapshots[..|snapshots| - 1]) + [AuditOf(Deleted, c.id, c.row, c.row.gb, 0.0, true)]
  }

  function CascadeUser(s: State, u: UserId): State {
    var dropped := DropUser(s, u);
    dropped.(balances := Unwind(dropped.balances, Filter(s.transfers, TransfersOf(u)), u),
             audit := s.audit + CascadeAudit(Reversed(Filter(s.claims, ClaimsOf(u)))))
  }

  /** The claims are read newest first. */
  function Reversed<T>(s: seq<T>): (r: seq<T>)
    ensures |r| == |s|
  {
    if s == [] then [] else [s[|s| - 1]] + Reversed(s[..|s| - 1])
  }

  // ---- the balances recomputed from the ledgers -----------------------------------------

  function Pairs(claims: seq<Rec<Claim>>): set<(UserId, NodeId)> {
    set i | 0 <= i < |claims| && claims[i].row.user != "" && claims[i].row.node != "" ::
        (claims[i].row.user, claims[i].row.node)
  }

  /** The users with at least one ledger entry. */
  function Slots(s: State): set<UserId> {
    SlotsOf(s.claims, s.transfers, s.buckets)
  }

  function SlotsOf(claims: seq<Rec<Claim>>, transfers: seq<Rec<Transfer>>, buckets: seq<Rec<Bucket>>): set<UserId> {
    (set i | 0 <= i < |claims| && claims[i].row.user != "" && claims[i].row.node != "" :: claims[i].row.user)
    + (set i | 0 <= i < |transfers| && transfers[i].row.from != "" :: transfers[i].row.from)
    + (set i | 0 <= i < |transfers| && transfers[i].row.to != "" :: transfers[i].row.to)
    + (set i | 0 <= i < |buckets| && buckets[i].row.user != "" :: buckets[i].row.user)
  }

  function NodeFigures(s: State, u: UserId, n: NodeId): NodeRow {
    NodeRow(Sum(s.claims, PairGb(u, n)), Count(s.claims, OfPair(u, n)))
  }

  function UserFigures(s: State, u: UserId): UserRow {
    UserRow(Sum(s.claims, UserGb(u)), Sum(s.transfers, SentGb(u)), Sum(s.transfers, ReceivedGb(u)),
            Sum(s.buckets, BucketGb(u)), 0.0)
  }

  function Recomputed(s: State): Balances {
    Balances(map p | p in Pairs(s.claims) :: NodeFigures(s, p.0, p.1),
             map u | u in Slots(s) :: UserFigures(s, u))
  }

  /** The drift noted on each row; a user who is not mentioned has none. */
  function Annotated(b: Balances, noted: map<UserId, real>): Balances {
    b.(users := map u | u in b.users :: b.users[u].(lastDrift := if u in noted then noted[u] else 0.0))
  }

  /** Some cached figure of the user or of one of their pairs is not what the ledgers say: only
      then does a recomputation note a drift on the user's row. */
  predicate Drifts(s: State, u: UserId) {
    || UserAmounts(s.balances, u) != UserFigures(s, u)
    || exists p :: p in Pairs(s.claims) + s.balances.nodes.Keys && p.0 == u
                   && NodeAt(s.balances, p.0, p.1).claimed != NodeFigures(s, p.0, p.1).claimed
  }

  /** A complete recomputation makes this write, before or after the others. */
  predicate Planned(s: State, w: RowWrite) {
    match w
    case SaveNode(u, n) => (u, n) in Pairs(s.claims)
    case DropNode(u, n) => (u, n) in s.balances.nodes && (u, n) !in Pairs(s.claims)
    case SaveUser(u, drift) => u in Slots(s) && (drift != 0.0 ==> Drifts(s, u))
    case DropUserRow(u) => u in s.balances.users && u !in Slots(s)
  }

  /** The write as planned from the ledgers `s`. */
  function WriteRow(s: State, b: Balances, w: RowWrite): Balances {
    match w
    case SaveNode(u, n) => b.(nodes := b.nodes[(u, n) := NodeFigures(s, u, n)])
    case DropNode(u, n) => b.(nodes := b.nodes - {(u, n)})
    case SaveUser(u, drift) => b.(users := b.users[u := UserFigures(s, u).(lastDrift := drift)])
    case DropUserRow(u) => b.(users := b.users - {u})
  }

  function Written(s: State, b: Balances, writes: seq<RowWrite>): Balances {
    if writes == [] then b
    else WriteRow(s, Written(s, b, writes[..|writes| - 1]), writes[|writes| - 1])
  }

  // ---- runs -----------------------------------------------------------------------------

  /** One request: `commits` is false when a write inside its transaction throws, or the first
      write of a recomputation does. */
  datatype Request = Request(op: Op, commits: bool)

  function Step(s: State, r: Request): State {
    if r.commits && Accepts(s, r.op) then Commit(s, r.op) else s
  }

  function Run(s: State, requests: seq<Request>): State {
    if requests == [] then s
    else Step(Run(s, requests[..|requests| - 1]), requests[|requests| - 1])
  }
}
