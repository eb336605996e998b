# Storage ledgers, cluster timeline and metrics history of garage-ware, in Dafny

Two stateful systems of the repository and four smaller protocols around them, as models whose
properties Dafny proves over every input, every run and every interleaving.

**The storage ledgers and their balances.** `Ledger` holds the claim, transfer and bucket ledgers,
the balance rows cached from them, the claim audit trail, the accounts and the administrators as one
value, and says what each committed request does to it. `LedgerInvariant` proves the invariant
(`Consistent`: cached figures equal ledger sums, the trail adds up per claim, rows only for existing
users) through every request, including re-pointed claims, the user-deletion cascade and the nightly
recomputation, complete or stopped anywhere. `LedgerTheorems` draws the conclusions for all runs,
and `AuditTrail` tells from the trail what became of each claim.

Four modules drop the assumption that requests do not overlap. `Overlap`: the hooks read the row
they are about to change before they open the transaction, so a request commits on what it
remembers. `Stale`: for every request the exact condition under which that keeps the invariant.
`Readings`: a recomputation as others see it, five queries and a save for each row, and the exact
condition for each save. `Schedules`: every interleaving of requests and recomputations, the last
administrator included. `Store.Database` is the store as the hooks see it: a class whose methods
take what was read, write and write again, with a fault possible at each save and a rollback of the
enclosing transaction. `RebuildSpec` says what a full recomputation leaves and reports, `Rebuild`
proves the loops of `rebuildAll` against it. `Cases` holds concrete runs at which the properties
that do not hold in general fail.

**The cluster-event detector.** `Observations` gives the diff of two scrapes and the test whether a
condition is still true; `DiffContents` says column by column what the diff holds, `DiffTheorems`
what it means, for one scrape and over runs. `Timeline` gives the reconciliation plan and its
application; `TimelineStep` proves that the whole pipeline of a scrape is a rule that decides each
row on its own (`NextRow`) and appends the events no readable row covers; `ScrapeRule` restates that
rule in terms of the reports; `TimelineTheorems` proves the invariants over unbounded runs of
scrapes with gaps, failed rows, unreadable layouts, recordings cut short by a throw and rows written
by hand in between. `Collector` holds the loops of the source and the class `Monitor`, proved against those
values, with a fault possible at each save of the plan. `ScrapeRuns` follows the stored samples from
scrape to scrape.

**The rest.** `History` and `HistoryTheorems`: bucketing of samples. `Upsert`: the racing
natural-key upsert, any number of processes interleaved at each request, with requests that throw
and responses that are lost. `Weeks`: grouping events by calendar week. `SignupGate`: the sign-up
decision, used by the administrator part of `Ledger`. `Options`, `Sums`, `Tables` and `Sorting`
are shared.

## Where the code does not do what its comments say

- Overlapping requests: a hook's comment says that a claim, its audit row and its balance commit
  together and that the transaction serializes the balance writers. Both hold, but the previous
  amount is read before the transaction opens (pocketbase/pb_hooks/main.pb.js:103-107). Two
  overlapping updates of a 10 GB claim to 15 and to 20 GB leave balance and trail at 25
  (`Cases.TwoPatches`). `Stale.CommitSeenIff` gives the exact condition for every request, the
  deletion cascade included: a claim must be remembered as it is, while the clamps at zero forgive a
  transfer or bucket remembered too large where a figure has nothing left to lose.
  `Schedules.StaysRightIff` carries it over every interleaving. The balances are put right by the
  next undisturbed recomputation, the trail never is (`Schedules.RebuildRepairs`).
- Two users who share a transfer cannot be deleted at the same time: the second deletion would save
  a balance row for the first account and rolls back (`Cases.SecondDeletionFails`).
- The recomputation runs in no transaction (pocketbase/pb_hooks/main.pb.js:369, :400). One that
  throws leaves the rows it saved, and that is harmless. A row it saves keeps the balances right if
  and only if the ledgers still say about it what they said when they were read
  (`Readings.StaleRowIff`); a claim created in between is always lost (`Readings.CreateIsLost`,
  `Cases.LateClaimIsLost`). A row that a hook creates after the query of its table stops it.
- The last-administrator guard counts before the delete and outside any transaction: two overlapping
  removals can leave none (`Cases.NoAdminLeft`). `Schedules.AdministeredIff` says exactly when one
  remains.
- The sign-up gate counts outside any transaction too: a sign-up that began before the first
  administrator was there comes in through the bootstrap window after it closed, closed sign-ups or
  not (`Cases.StrangerSlipsIn`). One that begins later never does
  (`Schedules.BootstrapWindowCloses`).
- The trail per (user, node) pair: an update that re-points a claim records the new pair only, so
  the deltas of a pair stop adding up to its balance (`Cases.RepointedPair`).
  `LedgerTheorems.PairTrailKeptIff` gives the exact condition for one request and
  `LedgerTheorems.PairTrailOverRuns` the exact gap over every run. The trail per claim id and the
  overall total hold without it.
- The upsert: its comment says the loser of the race re-reads the winner's row. The find filter
  drops double quotes from the key while the create keeps them, so for a key with a double quote the
  re-read finds nothing and the process fails, or it finds and overwrites the row of the bare key.
  `Upsert.ConflictsAreAbsorbedIff` and `Upsert.OwnRowIff`: both promises hold in every schedule if
  and only if the key has no double quote. Such a key is possible for the function, not for its
  present callers, which pass four constant keys without quotes
  (webapp/src/lib/garage/cached.ts:51-54).
- A non-zero corrected count need not mean that a hook missed a write: a bucket or a transfer of
  zero GB creates no balance row (a zero delta is skipped) while the recomputation makes a slot for
  its user (`Cases.ZeroBucketIsCounted`). `RebuildSpec.RebuildAfterRun` counts exactly those rows
  and `RebuildSpec.MissingRowsHoldNothing` says whose they are.
- A change of capacity, of tags or of the layout version is recorded only between two scrapes in a
  row that could both read the layout: one that spans an unreadable layout never is
  (`DiffTheorems.SpannedChangeIsLost`, `DiffTheorems.SpannedMoveIsLost`).
  `DiffTheorems.RunReplaysLastMove` says for any run which reading the events lead to.

## Assumptions

- `LedgerInvariant`, `LedgerTheorems` and `RebuildSpec` take requests one after the other: no row
  changes between the hook's read and its transaction, and nothing commits while a recomputation is
  under way. The transactions themselves are serialized by the database. `Overlap`, `Stale`,
  `Readings` and `Schedules` say what happens otherwise.
- The administrator counts of the sign-up and last-administrator hooks are read outside any
  transaction. In the runs of `Ledger` count and change are one step; in `Schedules` the gate and
  the guard on direct removals decide on the count read when the request began. The guard of a
  deleted account runs inside the deletion's transaction, and the owner promotion counts and saves
  in one step with the account.
- One observation per node per scrape, and a clock that moves on: each scrape is later than the last
  one and reads the open rows no later than it stamps them.
- A user who owns a bucket cannot be deleted, since `Buckets.user` is required and not cascading. A
  balance row of an account that is gone is refused by the database, in hooks and recomputation
  alike, and so is a second row of the same user, or of the same user and node.
- Saving a balance row that was loaded before writes every column of it, and changes nothing when
  the row has been deleted since, even if another one of its key has been made; deleting one that is
  gone changes nothing either.
- Record ids match `^[a-z0-9]+$`. Transfer amounts are at least 0.001 or, since the amount is not
  required and an empty one reads as zero, 0; bucket amounts are at least 0. Claim amounts may have
  any sign.
- Lookups of the user-deletion hook that are wrapped in try/catch succeed.
- Amounts, byte ratios and means are exact reals.

## Model

| member | source | states |
|---|---|---|
| `Store.Database.CreateClaim` | pocketbase/pb_hooks/main.pb.js:72-95 | Whatever write throws, the new state is either the committed claim, audit row and balances together or the old state untouched; without faults it goes through exactly when the id is new, the account exists and a node is named, and leaves that claim and the row that says 0 to its amount |
| `Store.Database.UpdateClaim` | pocketbase/pb_hooks/main.pb.js:97-150 | Given the claim as the hook read it and whatever write throws, the first of two deltas included, the new state is the committed one or the old one untouched; without faults it is refused exactly when the claim or its new account is missing or the account it is taken off is gone; the row says remembered to new amount |
| `Store.Database.DeleteClaim` | pocketbase/pb_hooks/main.pb.js:152-175 | The same for a delete |
| `Store.Database.CreateTransfer` | pocketbase/pb_hooks/main.pb.js:283-294 | All-or-nothing: transfer row and both parties' figures, or nothing |
| `Store.Database.DeleteTransfer` | pocketbase/pb_hooks/main.pb.js:296-312 | All-or-nothing inverse of the transfer as the hook read it |
| `Store.Database.CreateBucket` | pocketbase/pb_hooks/main.pb.js:314-325 | All-or-nothing: bucket row and its owner's reserved figure |
| `Store.Database.UpdateBucket` | pocketbase/pb_hooks/main.pb.js:327-350 | All-or-nothing change of size or owner against the bucket as the hook read it; no balance write when neither changes |
| `Store.Database.DeleteBucket` | pocketbase/pb_hooks/main.pb.js:352-361 | All-or-nothing inverse of the bucket as the hook read it |
| `Store.Database.DeleteUser` | pocketbase/pb_hooks/main.pb.js:185-266 | Given the claims and transfers the hook read, the cascade with its unwinding and audit loops is one atomic step; without faults it goes through exactly when the account exists, is not the last administrator, owns no bucket and every counterparty of a transfer that holds something is there; it leaves the others' rows and one audit row for each claim read, amount to 0, marked as cascade; a refusal or a throw at any save leaves everything as it was |
| `Store.Database.Load` | pocketbase/pb_hooks/main.pb.js:97-106 | Reads what each hook remembers; on well-formed tables a request whose row stays as read goes through and commits exactly the undisturbed step |
| `Store.Database.Rollback` | pocketbase/pb_hooks/lib/record-tx.js:36-42 | The enclosing transaction restores every table |
| `Store.Database.ApplyClaimDelta` | pocketbase/pb_hooks/lib/storage-balance.js:78-101 | Pair row and user row move by the same delta, created when missing, entry count clamped at zero; refused when the account is gone |
| `Store.Database.ApplyTransferDelta` | pocketbase/pb_hooks/lib/storage-balance.js:103-123 | Sent and received move, clamped at zero; a zero delta and a null party write nothing; refused when a party's account is gone |
| `Store.Database.ApplyAllocationDelta` | pocketbase/pb_hooks/lib/storage-balance.js:125-135 | Reserved moves, clamped at zero; a zero delta writes nothing; refused when the account is gone |
| `Store.Database.WriteClaimAudit` | pocketbase/pb_hooks/lib/claim-audit.js:131-163 | Appends one row with action, claim, pair, previous and new amount as given, their signed difference and the cascade mark, unless its save throws |
| `Store.Database.SignUp` | pocketbase/pb_hooks/main.pb.js:715-814 | With a new valid id a sign-up goes through exactly for a superuser, on an instance without counted administrators, while sign-ups are open, or in invite mode for the configured owner or an invited address; it promotes only the configured owner and only while there is no administrator |
| `Store.Database.RemoveAdmin` | pocketbase/pb_hooks/main.pb.js:835-853 | Goes through exactly when the count read before it exceeds one and the record is there, and then removes that administrator alone |
| `AuditTrail.RequestAppends` | pocketbase/pb_hooks/lib/claim-audit.js:131-163 | Only claim requests and deletions of accounts add rows: a created claim one from 0, an updated one from the amount it had, a deleted one to 0, each with its own action and pair |
| `AuditTrail.CascadeMarks` | pocketbase/pb_hooks/main.pb.js:185-266 | Over every run the cascade mark stands exactly on the rows a deletion of an account wrote |
| `AuditTrail.TrailTellsTheStory` | pocketbase/pb_hooks/main.pb.js:72-266 | Over every run the rows of a claim id chain: the first starts at 0, each goes on from where the last ended, delta is new less previous, `Created` comes exactly at the start and after a `Deleted`, and the last row ends at the claim's amount and pair, or is a `Deleted` ending at 0 |
| `Overlap.DeletionRemembers` | pocketbase/pb_hooks/main.pb.js:185-240 | The deletion hook reads exactly the user's claims, newest first, and exactly the transfers the user is a party of |
| `SignupGate.RefusalSaysWhy` | pocketbase/pb_hooks/lib/signup-gate.js:44-75 | A refused sign-up names closed sign-ups in closed mode and a missing invitation in invite mode, and never happens to a superuser or on an unclaimed instance |
| `LedgerInvariant.UpdateClaimKeeps` | pocketbase/pb_hooks/main.pb.js:97-150 | Re-pointing a claim to another user or node keeps every cached figure and the trail equal to the ledgers |
| `LedgerInvariant.DeleteUserKeeps` | pocketbase/pb_hooks/main.pb.js:185-266 | So does the deletion cascade: counterparties' figures, the deleted user's missing rows and the cascade audit rows |
| `LedgerInvariant.RunKeeps` | pocketbase/pb_hooks/main.pb.js:72-361 | Every run of committed, failed and refused requests keeps the invariant, recomputations that stop partway included |
| `LedgerInvariant.StoppedRebuildKeeps` | pocketbase/pb_hooks/lib/storage-balance.js:237-315 | A recomputation that throws after any of its row writes leaves rows that all agree |
| `LedgerInvariant.StoppedRebuildNeverHarms` | pocketbase/pb_hooks/lib/storage-balance.js:237-315 | From any stored balances, a stopped recomputation leaves each figure as it was or as the ledgers say, and notes a new drift only on the row of a user for whom something was off |
| `LedgerTheorems.BalancesEqualLedgers` | pocketbase/pb_hooks/lib/storage-balance.js:78-135 | After every run from an empty installation each pair's amount and entry count and each user's four figures are the sums over the remaining ledger rows (a missing row reads as zero), and no row belongs to a deleted user |
| `LedgerTheorems.ClampsNeverBite` | pocketbase/pb_hooks/lib/storage-balance.js:78-135 | On a consistent state every accepted request commits exactly the balances it would commit if no writer clamped at zero, creates, both sides of a re-pointing and every step of a deletion's unwinding included |
| `LedgerTheorems.TrailTelescopes` | pocketbase/pb_hooks/lib/claim-audit.js:131-163 | The deltas recorded for a claim id add up to its current amount, and to zero once it is gone |
| `LedgerTheorems.TrailEqualsTotals` | pocketbase/pb_hooks/main.pb.js:72-175 | All deltas together equal the claim ledger's total and the sum of all users' cached claim figures |
| `LedgerTheorems.PairTrailKeptIff` | pocketbase/pb_hooks/main.pb.js:107-150 | A request keeps the per-pair trail if and only if it does not re-point a claim holding a non-zero amount |
| `LedgerTheorems.PairTrailOverRuns` | pocketbase/pb_hooks/lib/claim-audit.js:131-163 | Over every run each pair's deltas are its cached balance plus what re-pointed claims carried away from it, less what they brought |
| `Cases.RepointedPair` | pocketbase/pb_hooks/main.pb.js:107-150 | A reachable run after which the trail of a pair says 5 GB and its balance 0 |
| `LedgerInvariant.UnwindClamped` | pocketbase/pb_hooks/main.pb.js:240-251 | Unwinding any list of transfers, clamped at zero at every step, takes their sum off once and clamps once |
| `Stale.StaleUpdateIff` | pocketbase/pb_hooks/main.pb.js:97-150 | An update keeps balances and trail right if and only if the claim still is as the hook read it, or the save for a remembered account that is gone is refused |
| `Stale.StaleDeleteIff` | pocketbase/pb_hooks/main.pb.js:152-175 | The same for a delete |
| `Stale.StaleTransferIff` | pocketbase/pb_hooks/main.pb.js:296-312 | A transfer's delete, with any remembered parties and amount, keeps them right if and only if for every user the amount taken off is the stored one, or more while the figure is just the stored one |
| `Stale.StaleBucketIff` | pocketbase/pb_hooks/main.pb.js:327-350 | A bucket's update, with any remembered owner and size and any new ones, keeps them right if and only if the same holds of every owner's reserved figure |
| `Stale.StaleBucketGoneIff` | pocketbase/pb_hooks/main.pb.js:352-361 | The same for a bucket's delete |
| `Stale.StaleCascadeIff` | pocketbase/pb_hooks/main.pb.js:185-266 | The deletion cascade, with any remembered claims and transfers, keeps them right if and only if the remembered claims add up to the current ones id by id and the remembered transfers, survivor by survivor, to the current ones, or to more while the survivor has nothing else |
| `Stale.CommitSeenIff` | pocketbase/pb_hooks/main.pb.js:72-361 | The exact condition for every request, whatever its hook remembers |
| `Schedules.OverlappingUpdates` | pocketbase/pb_hooks/main.pb.js:97-150 | Two overlapping updates of a claim leave the pair's balance and the trail off by exactly what the first one added |
| `Cases.TwoPatches` | pocketbase/pb_hooks/main.pb.js:97-150 | A reachable run: overlapping updates of 10 GB to 15 and 20 leave 20 in the ledger and 25 in balance and trail |
| `Cases.SecondDeletionFails` | pocketbase/pb_hooks/main.pb.js:185-266 | A reachable run: of two overlapping deletions of the parties of a transfer the second rolls back |
| `Readings.StaleRowIff` | pocketbase/pb_hooks/lib/storage-balance.js:154-315 | A row the recomputation saves or deletes keeps the balances right if and only if the ledgers still say about it what they said when they were read |
| `Readings.CreateIsLost` | pocketbase/pb_hooks/lib/storage-balance.js:157-252 | A claim created between the reading and the save of its pair's known row is always lost from it |
| `Readings.EachTableAsQueried` | pocketbase/pb_hooks/lib/storage-balance.js:154-266 | Each query sees its own table as it is by then and no other |
| `Cases.LateClaimIsLost` | pocketbase/pb_hooks/lib/storage-balance.js:157-252 | A reachable run: the ledger holds 15 GB for a pair in two claims, its row 10 GB in one |
| `Schedules.RowsNeverOutliveUsers` | pocketbase/pb_hooks/main.pb.js:72-361 | Over every interleaving no balance row outlives its user |
| `Schedules.CurrentIff` | pocketbase/pb_hooks/main.pb.js:72-361 | Any event of an interleaving keeps balances and trail right if and only if what it rests on is right where it counts |
| `Schedules.StaysRightIff` | pocketbase/pb_hooks/main.pb.js:72-361 | Balances and trail are right all through an interleaving if and only if that holds of each of its events |
| `Schedules.UntouchedKeeps` | pocketbase/pb_hooks/main.pb.js:72-361 | In particular when no row changes between being read and being relied on |
| `Schedules.TrailGapOverSchedules` | pocketbase/pb_hooks/lib/claim-audit.js:131-163 | Over every interleaving trail and ledger part by exactly what stale reads left out, for good |
| `Schedules.RebuildRepairs` | pocketbase/pb_hooks/lib/storage-balance.js:154-323 | After any interleaving a complete undisturbed recomputation puts every figure right, whatever drift it notes, and leaves the trail as it is |
| `Schedules.AdministeredIff` | pocketbase/pb_hooks/main.pb.js:835-881 | All through an interleaving there is an administrator if and only if no direct removal commits while one is left |
| `Cases.NoAdminLeft` | pocketbase/pb_hooks/main.pb.js:835-853 | A reachable run: two overlapping removals leave no administrator |
| `Schedules.BootstrapWindowCloses` | pocketbase/pb_hooks/main.pb.js:715-771 | While there is an administrator every sign-up that begins is judged as one on a claimed instance, whenever it commits |
| `Schedules.ClaimedInstanceIsGated` | pocketbase/pb_hooks/main.pb.js:715-771 | On an instance that keeps an administrator a sign-up that begins and commits was a superuser's, was made while sign-ups are open, or was the owner's or an invited one's in invite mode |
| `Schedules.EndsOnce` | pocketbase/pb_hooks/main.pb.js:72-361 | A request commits at most once, whatever else runs in between |
| `Schedules.UnexpectedRowStops` | pocketbase/pb_hooks/lib/storage-balance.js:229-315 | A recomputation that comes to a row it did not find and that is there by now stops, and writes nothing more |
| `Schedules.DeletedRowStaysDeleted` | pocketbase/pb_hooks/lib/storage-balance.js:229-315 | A row it knew and that was deleted before its turn is not brought back |
| `Cases.StrangerSlipsIn` | pocketbase/pb_hooks/main.pb.js:715-814 | A reachable run: with closed sign-ups a stranger whose sign-up overlaps the owner's gets an account on a claimed instance |
| `LedgerTheorems.AdminsRemain` | pocketbase/pb_hooks/main.pb.js:835-881 | Once there is an administrator every run of requests leaves at least one |
| `LedgerTheorems.AdminCount` | pocketbase/pb_hooks/main.pb.js:790-881 | Every request's effect on the number of administrators, promotion and deleted accounts included |
| `LedgerTheorems.BootstrapCloses` | pocketbase/pb_hooks/lib/signup-gate.js:44-75 | After any such run the unclaimed-instance branch is never taken, nobody is promoted, and closed sign-ups stay closed |
| `LedgerTheorems.PromotedOnce` | pocketbase/pb_hooks/main.pb.js:790-814 | The owner is promoted at most once over every run |
| `Rebuild.PairKeyInjective` | pocketbase/pb_hooks/lib/storage-balance.js:172-195 | Two (user, node) pairs never share a string key, for any node id, since user ids hold no colon |
| `Rebuild.IdAlphabet` | pocketbase/pb_hooks/lib/storage-balance.js:154-195 | The ids that make the string keys safe are those of lower-case letters and digits alone |
| `Rebuild.ReachableIsClean` | pocketbase/pb_hooks/lib/storage-balance.js:172-235 | Every reachable state has the valid ids the string keys need |
| `Rebuild.AggregateClaims` | pocketbase/pb_hooks/lib/storage-balance.js:172-196 | The loop over claims ends with one aggregate per pair and user, each the ledger sum |
| `Rebuild.CorrectPairs` | pocketbase/pb_hooks/lib/storage-balance.js:229-252 | Every ledger pair gets a row holding its sums, and what was off is tallied per pair and per user |
| `Rebuild.DropOrphans` | pocketbase/pb_hooks/lib/storage-balance.js:254-263 | Every other pair's row is deleted, noting what it held |
| `Rebuild.CorrectUsers` | pocketbase/pb_hooks/lib/storage-balance.js:265-310 | Every user with ledger entries gets a row with the four sums and the worse of own and node-level drift |
| `Rebuild.RebuildAll` | pocketbase/pb_hooks/lib/storage-balance.js:154-323 | From any stored balances: exactly one row per ledger pair and per user with entries, each holding the sums, nothing else left; the report counts the differing or missing rows and its drift is the largest single difference up to EPSILON, itself one of the differences or zero |
| `RebuildSpec.RebuiltIsCommit` | pocketbase/pb_hooks/lib/storage-balance.js:154-323 | From any stored rows, what a recomputation leaves is what the request `Rebuild` commits in the runs, drift noted included |
| `RebuildSpec.RebuiltRows` | pocketbase/pb_hooks/lib/storage-balance.js:154-323 | Afterwards a pair has a row exactly when it has a claim, with the sum and number of its claims, and a user exactly when a ledger mentions them, with the four sums |
| `RebuildSpec.CorrectedAreOff` | pocketbase/pb_hooks/lib/storage-balance.js:214-315 | The corrected count is the number of pairs and users whose row was missing or off by more than the tolerance |
| `RebuildSpec.DriftIsADifference` | pocketbase/pb_hooks/lib/storage-balance.js:214-315 | The reported drift is ledger less cache of one pair or figure, with its sign; the drift noted on a user's row is one of that user's, never within the tolerance, and the first figure's where several are as far off |
| `RebuildSpec.WritesMakeRebuild` | pocketbase/pb_hooks/lib/storage-balance.js:237-315 | The row writes of a recomputation, in any order and repeated or not, end where the undivided request does |
| `RebuildSpec.RebuildAfterRun` | pocketbase/pb_hooks/lib/storage-balance.js:198-310 | Straight after any run of the hooks: zero drift, no amount changed, and the corrected count is the number of missing all-zero user rows |
| `RebuildSpec.MissingRowsHoldNothing` | pocketbase/pb_hooks/lib/storage-balance.js:103-135 | On a consistent cache a user with ledger entries but no row owns only buckets and transfers of zero GB, at least one, and every such user without a row is one |
| `Cases.ZeroBucketIsCounted` | pocketbase/pb_hooks/lib/storage-balance.js:125-135 | A reachable run whose recomputation counts a row although no hook missed a write |
| `RebuildSpec.SecondRebuildIsClean` | pocketbase/pb_hooks/lib/storage-balance.js:154-323 | A second recomputation, whatever was stored before the first, corrects nothing, reports no drift and changes no amount |
| `RebuildSpec.NodeDriftNeverCancels` | pocketbase/pb_hooks/lib/storage-balance.js:211-263 | Every pair off by more than EPSILON, orphans included, is covered by the reported drift and by its owner's kept row, whatever else is off |
| `RebuildSpec.UserDriftNeverCancels` | pocketbase/pb_hooks/lib/storage-balance.js:265-315 | The same for each of the four figures of a user with ledger entries |
| `Collector.PairedUsedTotals` | pocketbase/pb_hooks/lib/cluster-events.js:199-212 | The loop computes the bytes before and after over exactly the nodes read in both scrapes |
| `Collector.DiffObservations` | pocketbase/pb_hooks/lib/cluster-events.js:273-574 | The loops over the two scrapes, keyed by node, give the specified diff; what that diff holds is said column by column by `DiffContents.NodeStory`, `DiffContents.VanishedStory` and `DiffContents.LayoutStory` |
| `DiffContents.NodeStory` | pocketbase/pb_hooks/lib/cluster-events.js:273-535 | For a node in both scrapes exactly which events name it, in which order and with which values before and after, column by column |
| `DiffContents.DiskStory` | pocketbase/pb_hooks/lib/cluster-events.js:326-366 | For each axis one `disk_changed` with the two totals exactly when both were read and differ by more than a hundredth of the first, grown or shrunk |
| `DiffContents.NewNodeIsSilent` | pocketbase/pb_hooks/lib/cluster-events.js:296-298 | A node without a previous sample has no event |
| `DiffContents.VanishedStory` | pocketbase/pb_hooks/lib/cluster-events.js:537-571 | A node no longer reported is removed, with the capacity it had, unless its row failed to write; nothing else is said about it |
| `DiffContents.LayoutStory` | pocketbase/pb_hooks/lib/cluster-events.js:273-294 | One layout event, first of all, exactly when both scrapes could read the layout and at different versions |
| `DiffContents.DiffInOrder` | pocketbase/pb_hooks/lib/cluster-events.js:273-574 | The events come in the order of the rows: those of reported nodes as reported, then those of vanished nodes as they were |
| `Observations.DiffOpens` | pocketbase/pb_hooks/lib/cluster-events.js:303-571 | No scrape opens a condition twice, and it opens it exactly when the two scrapes say so: the two removal rules exclude each other |
| `Observations.OpeningIsNotOver` | pocketbase/pb_hooks/lib/cluster-events.js:588-613 | No scrape both opens and closes a condition |
| `DiffTheorems.DiffReplays` | pocketbase/pb_hooks/lib/cluster-events.js:456-538 | Replaying a scrape's events onto a node's previous capacity, tags, zone and version gives the current ones, layout fields whenever both readings are gated, status fields whenever both are reported |
| `DiffTheorems.GatedRunReplays` | pocketbase/pb_hooks/lib/cluster-events.js:456-538 | Over every run of gated readings the recorded events replay a node's first capacity and tags to its last |
| `DiffTheorems.RunReplaysLastMove` | pocketbase/pb_hooks/lib/cluster-events.js:456-538 | Over any run the events replay a node's first capacity and tags to those after the last change between two gated readings |
| `DiffTheorems.SpannedChangeIsLost` | pocketbase/pb_hooks/lib/cluster-events.js:456-538 | Between two gated readings with only ungated ones in between the replay is right if and only if nothing changed |
| `ScrapeRuns.CollectorReplays` | pocketbase/pb_hooks/lib/node-metrics.js:326-515 | Both statements for the comparisons the collector makes from its stored samples |
| `DiffTheorems.UnchangedIsSilent` | pocketbase/pb_hooks/lib/cluster-events.js:273-574 | A scrape identical to the previous one yields no events |
| `DiffTheorems.DuplicateOpensTwice` | pocketbase/pb_hooks/lib/cluster-events.js:303-338 | Why one observation per node is needed: a node listed twice that went down is reported down twice |
| `DiffTheorems.VersionsReplayLastMove` | pocketbase/pb_hooks/lib/cluster-events.js:280-295 | Over any run the version events replay the first version to the one after the last move between two scrapes in a row that could read the layout |
| `DiffTheorems.SpannedMoveIsLost` | pocketbase/pb_hooks/lib/cluster-events.js:280-295 | A move of the layout that spans a scrape which could not read it is never recorded |
| `DiffTheorems.LayoutVersionsChain` | pocketbase/pb_hooks/lib/cluster-events.js:280-295 | When each comparison starts from the version the one before ended with, the version events lead from the first version to the last without a gap |
| `ScrapeRuns.VersionsChain` | pocketbase/pb_hooks/lib/node-metrics.js:326-515 | Over every run of scrapes that could read the layout and follow one another within the window, pruning included, the version events lead from the first version to the last without a gap |
| `Collector.VersionCarried` | pocketbase/pb_hooks/lib/node-metrics.js:480-515 | A gated scrape inside the window hands exactly its version to the next one's diff base |
| `DiffTheorems.PeerSum` | pocketbase/pb_hooks/lib/cluster-events.js:375-418 | Subtracting the node under test from the paired totals leaves the sum over its peers |
| `DiffTheorems.DropFlaggedIff` | pocketbase/pb_hooks/lib/cluster-events.js:375-418 | A node read in both scrapes is flagged exactly once or never, exactly when its loss passes the threshold and its peers together lost less than half that fraction |
| `DiffTheorems.SharedDropIsNotFlagged` | pocketbase/pb_hooks/lib/cluster-events.js:375-418 | A loss of which every peer shared at least half is never flagged, whoever joined or left |
| `DiffTheorems.LoneDropIsFlagged` | pocketbase/pb_hooks/lib/cluster-events.js:375-418 | A loss of at least a tenth above the minimum is always flagged when no peer's bytes fell |
| `Collector.ReconcileOngoing` | pocketbase/pb_hooks/lib/cluster-events.js:647-709 | The loops over open rows and events give the specified plan |
| `Collector.Monitor.ReadOpenConditions` | pocketbase/pb_hooks/lib/cluster-events.js:723-744 | Returns the open and recently closed detector conditions, newest first |
| `Collector.Monitor.RecordEvents` | pocketbase/pb_hooks/lib/cluster-events.js:766-815 | Closes, re-opens and creates exactly the planned rows, in that order, and counts them; when a save throws, exactly the part before it, as many rows as saves went through |
| `Collector.PreviousIsNewest` | pocketbase/pb_hooks/lib/node-metrics.js:480-515 | The diff base holds one row per node, that node's newest sample in the window |
| `Collector.PreviousAreNewest` | pocketbase/pb_hooks/lib/node-metrics.js:480-515 | The diff base is the newest sample in the window of each node that has one there, and no other |
| `Collector.EveryReportCounts` | pocketbase/pb_hooks/lib/node-metrics.js:326-425 | Every report is saved, once and in its turn, or its node counts as failed; what it says makes no difference |
| `Collector.Monitor.ScrapeOnce` | pocketbase/pb_hooks/lib/node-metrics.js:326-466 | One scrape reads the previous samples before writing its own and stores one sample for each report that saves, in order and whatever it says; when detection completes, a node reported up has no open outage, one that was up and is reported down has one, and one that was there and is not reported has an open removal; when the first read throws nothing opens and what is over is still closed; the timeline invariant holds afterwards wherever detection threw |
| `Collector.Monitor.PruneOld` | pocketbase/pb_hooks/lib/node-metrics.js:522-544 | The batched loop keeps exactly the samples no older than the days asked for: 90 when the setting is missing, unreadable or negative, all of them when it is zero |
| `TimelineStep.RouteIs` | pocketbase/pb_hooks/lib/cluster-events.js:681-706 | The loop that removes entries from its map while it runs re-opens each recently closed condition that opens, once, and creates exactly the uncovered events |
| `TimelineStep.ScrapeIs` | pocketbase/pb_hooks/lib/cluster-events.js:647-815 | Reading, planning and writing together equal deciding for each row on its own and appending the uncovered events |
| `TimelineStep.ReadOpenNewestFirst` | pocketbase/pb_hooks/lib/cluster-events.js:723-744 | The open and recently closed rows are read newest first |
| `TimelineStep.RecentEndedLast` | pocketbase/pb_hooks/lib/cluster-events.js:647-680 | Of a condition's closed rows the one that ended last is held for re-opening |
| `ScrapeRule.OutageRowRule` | pocketbase/pb_hooks/lib/cluster-events.js:588-815 | What a scrape does to an outage row, in terms of the reports: closed when its node is reported up, re-opened when it goes down again within half an hour of its end, otherwise left alone |
| `ScrapeRule.RemovalRowRule` | pocketbase/pb_hooks/lib/cluster-events.js:588-815 | The same for a removal row: closed by a readable layout that gives the node capacity, re-opened when it loses its capacity or is no longer reported |
| `ScrapeRule.OtherRowRule` | pocketbase/pb_hooks/lib/cluster-events.js:723-815 | Rows of other kinds and rows written by hand are left alone |
| `ScrapeRule.NewRowRule` | pocketbase/pb_hooks/lib/cluster-events.js:681-812 | Which rows a scrape adds: one for each detected event not already open or ended within half an hour, in order, with its start, end and count |
| `ScrapeRule.FirstScrapeAddsNothing` | pocketbase/pb_hooks/lib/node-metrics.js:428-454 | A scrape without previous samples adds no row |
| `ScrapeRule.WhatHappenedIsOpen` | pocketbase/pb_hooks/lib/cluster-events.js:681-815 | A node that went down, was removed or lost its capacity has an open row afterwards |
| `ScrapeRule.ActivityReadsOff` | pocketbase/pb_hooks/lib/cluster-events.js:576-613 | When a condition is going on, over, or cannot be told, in terms of the reports |
| `TimelineTheorems.RunIsSound` | pocketbase/pb_hooks/lib/cluster-events.js:647-815 | Every run, scrapes whose recording threw anywhere included, keeps the invariant: at most one open row per condition, incidents of a condition separated by more than the flap window, point-in-time rows born closed |
| `TimelineTheorems.PartKeepsSound` | pocketbase/pb_hooks/lib/node-metrics.js:428-454 | The invariant survives any part of a plan that was written before a save threw |
| `TimelineTheorems.IncidentsSeparated` | pocketbase/pb_hooks/lib/cluster-events.js:647-815 | Two rows of one condition: the earlier is closed and ended more than the flap window before the later began |
| `TimelineTheorems.StatusAgrees` | webapp/src/lib/cluster-timeline.ts:128-142 | Over every run detector rows read instant, ongoing or resolved exactly as their history says |
| `TimelineTheorems.UpClosesOutages` | pocketbase/pb_hooks/lib/cluster-events.js:588-599 | After a scrape that records a node up no outage of it is open, with or without a previous sample |
| `TimelineTheorems.CapacityClosesRemovals` | pocketbase/pb_hooks/lib/cluster-events.js:601-610 | After a scrape that records it gated with positive capacity no removal of it is open |
| `TimelineTheorems.OpeningIsRecorded` | pocketbase/pb_hooks/lib/cluster-events.js:681-706 | Every condition a scrape opens has an open row afterwards |
| `TimelineTheorems.OpenOutageIsTrue` | pocketbase/pb_hooks/lib/cluster-events.js:588-599 | Over every run an outage shown as running means the node was down when last heard of, recoveries seen by a scrape whose recording threw left aside |
| `TimelineTheorems.OpenRemovalIsTrue` | pocketbase/pb_hooks/lib/cluster-events.js:601-610 | Over every run a removal shown as running means the last certain word on the node was that it is not listed or holds no capacity, with the same proviso |
| `TimelineTheorems.UndecidedIsKept` | pocketbase/pb_hooks/lib/cluster-events.js:588-613 | A condition the scrape cannot call over and does not open keeps its rows as they were and gets none |
| `TimelineTheorems.FailedNodeIsUntouched` | pocketbase/pb_hooks/lib/node-metrics.js:405-454 | A node whose row failed to write keeps its condition rows exactly, and no new row of any kind names it |
| `TimelineTheorems.UnreadableLayoutClosesNoRemoval` | pocketbase/pb_hooks/lib/cluster-events.js:601-610 | A scrape that could not read the layout closes no removal |
| `TimelineTheorems.StartsNeverMove` | pocketbase/pb_hooks/lib/cluster-events.js:776-785 | Over every run rows keep kind, start and place, and hand-written rows are never touched |
| `TimelineTheorems.CountsAreOpenings` | pocketbase/pb_hooks/lib/cluster-events.js:688-703 | A condition row's occurrence count is the number of times it was created or re-opened |
| `TimelineTheorems.InstantsRecordedOnce` | pocketbase/pb_hooks/lib/cluster-events.js:787-812 | The point-in-time rows are exactly the detected point-in-time events, once each and in order, and of a scrape whose recording threw those written before |
| `TimelineTheorems.StoppedKeepsFirst` | pocketbase/pb_hooks/lib/cluster-events.js:787-812 | Those are the first of the scrape's point-in-time events |
| `History.FillBuckets` | pocketbase/pb_hooks/lib/node-metrics.js:129-196 | The loop over the samples ends with nested maps that hold, for each node and bucket with a usable sample, exactly its counts and gated readings, and the latest label |
| `History.BucketHistory` | pocketbase/pb_hooks/lib/node-metrics.js:129-226 | The points are in strict order of time and then node, one for each node and bucket with a usable sample; the nodes are sorted, each with the label of its newest sample |
| `HistoryTheorems.OnePointPerSample` | pocketbase/pb_hooks/lib/node-metrics.js:133-176 | Every sample with a time and a node is covered by exactly one point, from bucket start up to start plus width |
| `HistoryTheorems.SamplesConserved` | pocketbase/pb_hooks/lib/node-metrics.js:133-176 | The points' sample counts add up to the number of such samples |
| `HistoryTheorems.MeanOfGatedReadings` | pocketbase/pb_hooks/lib/node-metrics.js:92-97 | A mean is null exactly when no covered sample passed its gate; otherwise it is their average and lies between two of the readings |
| `HistoryTheorems.MeansAreOfTheirColumns` | pocketbase/pb_hooks/lib/node-metrics.js:129-223 | Each of the nine means is that of its own column over the covered samples that pass its own gate, and null exactly when none does |
| `HistoryTheorems.CountsAreOfTheirSamples` | pocketbase/pb_hooks/lib/node-metrics.js:133-223 | A point counts the samples it covers, gives the share of them that were up, and starts at a multiple of the width |
| `HistoryTheorems.LabelsAreNewest` | pocketbase/pb_hooks/lib/node-metrics.js:129-226 | Every node that has a sample is labelled, with the zone of its newest sample, the first of several |
| `Sorting.LexByFirstDifference` | pocketbase/pb_hooks/lib/node-metrics.js:198-226 | The order of the node ids is decided by the first character that differs |
| `HistoryTheorems.UptimeIsAShare` | pocketbase/pb_hooks/lib/node-metrics.js:198-223 | Uptime is in 0..100, 100 exactly when every covered sample was up and 0 exactly when none was |
| `HistoryTheorems.CoarseRefinesFine` | pocketbase/pb_hooks/lib/node-metrics.js:155-223 | When the fine width divides the coarse one, each coarse point's count, uptime and means are the weighted sums over the fine points inside it |
| `HistoryTheorems.HistoryIsUnique` | pocketbase/pb_hooks/lib/node-metrics.js:198-226 | Samples and width determine the points, whatever order the maps were walked in |
| `Upsert.RunKeeps` | shared/src/mutators/garage-cluster-cache.ts:54-77 | Every schedule keeps the protocol's invariant, with requests that throw and responses that are lost anywhere |
| `Upsert.OneRowPerKey` | shared/src/mutators/garage-cluster-cache.ts:54-77 | Never two rows with one key |
| `Upsert.LastWriteWins` | shared/src/mutators/garage-cluster-cache.ts:54-77 | Each row holds payload and timestamp of one process, that of the last write to it, which has finished unless the response to that write was lost |
| `Upsert.FinishedIffWroteOnce` | shared/src/mutators/garage-cluster-cache.ts:54-77 | Exactly the finished processes have an acknowledged write, one each and nothing after it; a process writes at most twice, and twice only after a lost response |
| `Upsert.FinishedHasItsRow` | shared/src/mutators/garage-cluster-cache.ts:59-76 | A process that finishes with a quote-free key leaves a row of that key |
| `Upsert.FourTurnsSuffice` | shared/src/mutators/garage-cluster-cache.ts:54-77 | Four requests of its own end a process, whatever runs in between |
| `Upsert.AloneOutcome` | shared/src/mutators/garage-cluster-cache.ts:54-77 | What the call does when nobody else runs, in all three cases |
| `Upsert.ConflictsAreAbsorbedIff` | shared/src/mutators/garage-cluster-cache.ts:10-13 | No schedule fails a process by the unique index if and only if the key has no double quote |
| `Upsert.OwnRowIff` | shared/src/mutators/garage-cluster-cache.ts:40-43 | Every write goes to the key's own row if and only if the key has no double quote |
| `Upsert.QuotedIsTheRest` | shared/src/mutators/garage-cluster-cache.ts:11-13 | The find filter's spelling of a key drops its double quotes and nothing else |
| `Upsert.Collection.UpsertByKey` | shared/src/mutators/garage-cluster-cache.ts:54-77 | The call as written, with any requests of others before each of its own and any of its own throwing or losing its response, is the protocol's run of at most four requests and ends stored or failed: stored only when its last request works, and after a single request exactly when that one throws |
| `Weeks.StartOfWeekIsTheMonday` | webapp/src/lib/cluster-timeline.ts:186-193 | The start of a week is the one Monday midnight no later than the instant and less than seven days before it, at most six calendar days back |
| `Weeks.LabelCountsWeeks` | webapp/src/lib/cluster-timeline.ts:195-206 | This week and last week mean the calendar week of now and the one before; any other week is named by its own Monday |
| `Weeks.BucketsReadOff` | webapp/src/lib/cluster-timeline.ts:186-262 | In plain milliseconds: every bucket starts on a Monday midnight, later ones first, holds exactly the events of its seven days that lie in the window, and is titled by how long ago that is |
| `Weeks.GroupEventsByWeek` | webapp/src/lib/cluster-timeline.ts:228-262 | The map loop and the sort give one bucket per week with an event in the window, strictly newest first, items in input order |
| `Weeks.EachEventInItsWeek` | webapp/src/lib/cluster-timeline.ts:240-257 | An event is in a bucket exactly when it is in the window and of that week, and every event in the window has its bucket |
| `Weeks.NothingLostOrInvented` | webapp/src/lib/cluster-timeline.ts:228-262 | The buckets joined are a permutation of the events in the window, and the same list when the input is newest first |

## Left out

- LedgerTheorems.BalancesEqualLedgers: requests that overlap are in `Schedules`.
- LedgerTheorems.AdminsRemain: overlapping removals are in `Schedules.AdministeredIff`, not in the runs.
- Overlap.Read: a request for a row that another request deleted in between is taken to be refused.
- Store.Database.Rollback: takes the database's rollback as given; that re-assigning the hook's app makes the record save join the transaction is not modelled.
- Store.Database.WriteClaimAudit: the acting user, e-mail addresses, notes and label fields.
- Store.Database.CreateTransfer: a transfer edited by a superuser fires no hook, since the collection has none for updates and its closed update rule does not bind superusers; the balances then drift until the next recomputation.
- Store.Database.DeleteUser: `GuardedDelete` drops the dependent rows in one step; which of the two refusals comes first is not modelled.
- TimelineTheorems.RunIsSound: scrapes with two observations of one node are excluded; `DiffTheorems.DuplicateOpensTwice` shows that such a scrape reports one outage twice.
- TimelineTheorems.StatusAgrees: rows that an administrator closes or edits through the API; one closed at its own start would read as instant.
- TimelineTheorems.UpClosesOutages: a scrape whose detection threw may leave the outage open until the next one; `TimelineTheorems.PartKeepsSound` covers what holds then.
- RebuildSpec.UserDriftNeverCancels: user rows without any ledger entry are deleted without being counted, as in the code, so the claim does not cover them.
- Collector.CloseOver: the closes are a set; the order in which rows are closed is not modelled, since each close touches its own row.
- Upsert.Quoted: how the database parses the filter string beyond the quotes (a trailing backslash, say) is not part of this model.
- Weeks.GroupEventsByWeek: local time zones and daylight saving; every day has the same length here.
- History.BucketHistory: numeric strings, missing fields reading as zero and floating-point rounding of the means.
- Node host names and zones on balance rows and `recomputed_at` stamps: copied labels that decide nothing.
- Event titles, details, severities and byte formatting.
- The HTTP calls to the Garage admin API, the parsing of its answers, the cron entry, mail, templates and logging.
- `parseSignupMode`, `refusalMessage`, the invite lookup (an input of the decision) and the claim capacity check.
- The layout planner, the poll hook of the web application and the list helpers of the mutators.
