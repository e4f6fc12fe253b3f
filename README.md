# Compensation engine of a referral network, in Dafny

This project models the core of a multi-level compensation engine. Every account sits in two
ancestor trees:

- the placement tree, built from `parent`, `parents` and `treeDepth`;
- the referral tree, built from `referredBy` and `sponsorTree`.

Each account also sits on one leg of its referrer, given by `node` (0 for team A, 1 for team B).

When an account buys a pack, the purchase pipeline runs these steps in order:

1. the buyer's individual income rises by the price;
2. every affected ancestor is credited with the price on one leg;
3. the buyer's referrer is paid the direct sponsor bonus;
4. every ancestor whose two legs both hold unmatched volume is paid the binary matching bonus, and may also earn an override;
5. the rank step, which returns at once.

A daily job then caps the held matching bonuses, releases them and credits them to the
withdrawable balance.

The project also models:

- registration;
- the purchase guards;
- the referral-code lookup;
- the descendant walk along either tree;
- the leg-count recount.

## Modules

| file | module | what it holds |
|---|---|---|
| `entities.dfy` | `Entities` | the records (`User`, `Rank`, `Pack`, `PackBought`, `BusinessEntry`, `BonusEntry`), `Option`/`Result` and the error kinds |
| `tree.dfy` | `Tree` | the records registration builds, the tree invariant `WellFormed`, the affected-ancestor list of a purchase, the referral-code lookup and the descendant walk as a function |
| `volume.dfy` | `Volume` | volume propagation and the buyer's individual income |
| `matching.dfy` | `Matching` | binary matching, the override and the two kinds of matching ledger rows |
| `direct.dfy` | `Direct` | the direct sponsor bonus gate and amount, and the ledger row with its claim |
| `rank.dfy` | `Ranks` | the rank decision |
| `reconcile.dfy` | `Reconcile` | the daily job: the corrected version and the version as written |
| `recount.dfy` | `Recount` | the leg-count recount as a function, with its counting property |
| `store.dfy` | `Engine` | the step functions of a purchase, the loops as methods, and the class `Store` whose methods change the stored state |

### Data model

- Amounts are exact `real`s. Ids and counts are `int`s.
- The store holds:
  - an account map from address to `User`;
  - `order`, the addresses in registration order, which the model takes as the order in which a query without an ordering clause returns rows;
  - the rank table as a sequence;
  - the packs;
  - the wallet balances;
  - the purchase log;
  - the business log;
  - the bonus ledger.
- `Store.Valid()` is the stored invariant, `Engine.Sound`. It holds two things:
  - the trees are well formed: every ancestor list is the parent's list plus the parent, and every parent was registered earlier;
  - on every account, no leg's matched volume (its "delta") exceeds the volume it received.
- Each state-changing method is specified by a pure step function. For example, `Store.BuyPack` is specified by `Engine.Purchase`. The step functions' properties are proved as lemmas.

### Ordering of table reads

The queries fix some orders and leave others to the database. The model makes one choice for each open order (see "## Left out"):

- The affected ancestors are the buyer's `parents` followed by its `sponsorTree`, without duplicates and in first-occurrence order (a JavaScript `Set`). Addresses the table does not hold are dropped. The query orders by ascending `treeDepth` only; the model breaks ties by keeping the first-occurrence order (a stable sort).
- The matching step reads the same addresses again with no ordering clause. The model returns them in registration order (`Tree.TableOrder`). The step uses the records as they stand after the direct bonus.
- The descendant walk lists children in registration order. The recount visits accounts in registration order.

### Behaviour of the code worth noting

- **Direct bonus gate.** Only a sponsor that has a referrer and whose last pack id is negative or exactly 1 is refused (`Direct.Gated`). A root sponsor is always paid, and so is a sponsor with no purchase (id 0).
- **Held team rows.** Every processed team row is marked `canClaim`, held or not, so a held row is never looked at again.
- **Failures in the daily job.** One `try`/`catch` surrounds the whole loop, so the first failure ends the run. `Store.CronForBinaryIncomeUpdate` takes the position of that failure as a parameter.

## Model

| member | source | states |
|---|---|---|
| Tree.NodeFor | src/app/modules/users/users.service.ts:252-256 | the new account is on leg B (1) exactly when the code given is the referrer's second code or team B is asked for, otherwise on leg A (0) |
| Tree.WellFormedRegister | src/app/modules/users/users.service.ts:242-277 | adding the record register builds keeps both trees well formed: `parents` is the parent's list plus the parent, `sponsorTree` is the referrer's list plus the referrer, and the depth is the parent's plus one |
| Tree.AncestorsPrefixClosed | src/app/modules/users/users.service.ts:242-250 | every ancestor in either list is registered, and the ancestor at index m has the first m entries as its own list |
| Tree.NotOwnAncestor | src/app/modules/users/users.service.ts:242-250 | no account is in its own ancestor list, along either tree |
| Tree.AncestorOfAncestor | src/app/modules/users/users.service.ts:242-250 | an ancestor of an ancestor is an ancestor along the same tree |
| Tree.LinkIsAncestor | src/app/modules/users/users.service.ts:244-249 | the placement parent is in `parents` and the referrer is in `sponsorTree` (the last entry of each) |
| Tree.DepthIsAncestorCount | src/app/modules/users/users.service.ts:277 | an account's `treeDepth` equals the length of its `parents` list |
| Tree.FindByCode | src/app/modules/users/users.service.ts:428-437 | the first account found owns the code as its first or second code, and no result means no account owns it |
| Tree.DetailsBasedOnCode | src/app/modules/users/users.service.ts:425-442 | the owner of the code is found exactly when one exists, and the team reported is "A" exactly when the code is the owner's first code, "B" otherwise |
| Tree.Dedup | src/app/modules/users/users.service.ts:597-599 | the merged ancestor list without repetitions, holding the same addresses |
| Tree.Present | src/app/modules/users/users.service.ts:600-615 | an `In(...)` read keeps exactly the listed addresses the table holds |
| Tree.SortByDepth | src/app/modules/users/users.service.ts:616-618 | the read sorted by ascending depth, as a permutation of its input |
| Tree.AffectedSpec | src/app/modules/users/users.service.ts:597-619 | the affected list has no repetition, is sorted by ascending depth, and holds exactly the registered accounts in the buyer's `parents` or `sponsorTree` |
| Tree.TableOrder | src/app/modules/users/users.service.ts:637-642 | the second read holds exactly the registered addresses of the list, without repetition, in registration order |
| Tree.ChildPositions | src/app/modules/users/bonus/bonus.service.ts:541-549 | the children query returns every account from the given position on whose placement parent (or referrer) is the account, and only those |
| Tree.ChildrenAfter | src/app/modules/users/bonus/bonus.service.ts:541-549 | under the tree invariant every child is registered after its parent, so the walk that only looks forward sees all the children |
| Tree.DescendantsHaveAncestor | src/app/modules/users/bonus/bonus.service.ts:527-561 | every account the walk lists has the walked account among its ancestors |
| Tree.AncestorIsListed | src/app/modules/users/bonus/bonus.service.ts:527-561 | every account that has the walked account among its ancestors is listed by the walk |
| Tree.DescendantsExactly | src/app/modules/users/users.service.ts:727-759 | the walk lists exactly the transitive descendants of the account along the chosen tree |
| Volume.Credit | src/app/modules/users/bonus/bonus.service.ts:61-91 | one ancestor's new record: business income rises by the price; on exactly one leg the volume, the rank bucket and the count rise by the price, the price and 1; the other leg and every other field are unchanged; delta ≤ volume is kept for a non-negative price |
| Volume.SponsorsIncome | src/app/modules/users/bonus/bonus.service.ts:61-91 | every ancestor at index i is credited on leg A exactly when the next ancestor in the list (or the buyer, for the last) has `node` 0 |
| Volume.SponsorsIncomeAddsVolume | src/app/modules/users/bonus/bonus.service.ts:61-91 | a purchase adds its price once to the total leg volume of every affected ancestor |
| Volume.BusinessEntries | src/app/modules/users/bonus/bonus.service.ts:46-58 | one business row per affected ancestor, with the price, the buyer, and leg 0 exactly when the ancestor was credited on leg A |
| Volume.IndividualIncome | src/app/modules/users/bonus/bonus.service.ts:99-110 | the buyer's individual income rises by exactly the price, and nothing else changes |
| Matching.MatchSponsor | src/app/modules/users/bonus/bonus.service.ts:129-194 | there is no match exactly when either leg's unmatched volume is ≤ 0; otherwise matched = min of the two, team bonus = 7% of it, both deltas rise by it, one leg is left with nothing unmatched and the other with the difference, delta ≤ volume is kept, and the override is non-zero only for a referral ancestor that is not the buyer's own referrer |
| Matching.MatchAll | src/app/modules/users/bonus/bonus.service.ts:125-196 | the outcomes kept are exactly those of the ancestors that match |
| Matching.Updated | src/app/modules/users/bonus/bonus.service.ts:176-196 | the records saved are the matched ancestors' new records, in order |
| Matching.TeamEntries | src/app/modules/users/bonus/bonus.service.ts:198-214 | every matched ancestor whose cumulative matching bonus is positive gets a `team` row with amount = team bonus, not claimable, nothing flushed; every row comes from such an ancestor |
| Matching.OverrideEntries | src/app/modules/users/bonus/bonus.service.ts:216-232 | a `teamDirect` row exists exactly for each ancestor with a positive override, with the override as its amount and the rank's percentage |
| Matching.SkippedLeavesNoTrace | src/app/modules/users/bonus/bonus.service.ts:142-196 | an ancestor with no unmatched volume on a leg gets no new record and no ledger row |
| Direct.DirectBonus | src/app/modules/users/bonus/bonus.service.ts:250-262 | nothing is paid exactly when there is no registered sponsor, or the sponsor has a referrer and its last pack id is negative or 1; otherwise the bonus is price × rank percentage / 100 |
| Direct.DirectBonusExample | src/app/modules/users/bonus/bonus.service.ts:250-262 | at 10% on a pack of 200, an ungated sponsor is paid 20 |
| Direct.Claim | src/app/modules/users/bonus/bonus.service.ts:513-524 | the withdrawable balance rises by the amount exactly when the row is claimable, and nothing else changes |
| Ranks.Candidate | src/app/modules/users/bonus/bonus.service.ts:350-366 | the candidate is a rank whose threshold is at most one of the two rank buckets, with the highest such threshold; there is none exactly when no rank qualifies |
| Ranks.StarCount | src/app/modules/users/bonus/bonus.service.ts:411-424 | the star count on a leg is exactly the number of positions of the descendant list whose account is registered, has a rank id at most the star id and has `node` equal to the leg; it never exceeds the number of descendants |
| Ranks.CurrentLevel | src/app/modules/users/bonus/bonus.service.ts:342-481 | the result is the current rank or one above it; with a candidate, the rank changes exactly when the candidate passes every check in order (positive threshold, above the current rank, enough direct partners, the 2:1 or 1:1 ratio, the stars on the placement descendants with both leg counts ≥ 1); with none, the result is undefined exactly when the 1:1 ratio holds |
| Reconcile.CappedTeamRow | src/app/modules/users/bonus/bonus.service.ts:672-691 | a team row above the last pack price is cut to that price with the excess flushed, any other row keeps its amount; the row is marked claimable, with its hold set unless both leg counts are ≥ 1 |
| Reconcile.SettleTeam | src/app/modules/users/bonus/bonus.service.ts:686-719 | corrected: a released team row pays its capped amount when positive, never more than the row's amount or the last pack price |
| Reconcile.SettleTeamAsWritten | src/app/modules/users/bonus/bonus.service.ts:680-719 | as written: a team row pays something exactly when it is released, above the last pack price and that price is positive, and then it pays that price |
| Reconcile.SettleTeamDirect | src/app/modules/users/bonus/bonus.service.ts:727-747 | a `teamDirect` row pays its whole amount and becomes claimable |
| Reconcile.Settle | src/app/modules/users/bonus/bonus.service.ts:670-748 | only unclaimed team and `teamDirect` rows of an account with a last pack are processed; every processed row becomes claimable; all other rows are left alone and pay nothing |
| Reconcile.Run | src/app/modules/users/bonus/bonus.service.ts:670-750 | corrected job after k rows: each account's balance rises by the sum of what its rows pay, the first k rows are settled, the rest are untouched |
| Reconcile.RunAsWritten | src/app/modules/users/bonus/bonus.service.ts:670-750 | the job as written after k rows: an account no processed row writes keeps its balance; otherwise its balance is the balance loaded before the run plus the credit of the last row that writes it (last write wins); the first k rows are settled by `SettleAsWritten` and the rest are untouched |
| Reconcile.LastWriteStep | src/app/modules/users/bonus/bonus.service.ts:709-741 | one more row either becomes the last writer of its account, replacing the earlier write, or leaves every balance as it was |
| Reconcile.UnflushedTeamRowIsLost | src/app/modules/users/bonus/bonus.service.ts:680-719 | as written, a released team row within the last pack price is marked claimable and pays nothing; the corrected job pays it in full |
| Reconcile.SecondRowOverwritesFirst | src/app/modules/users/bonus/bonus.service.ts:727-741 | as written, of two `teamDirect` rows for one account only the second reaches the balance; the corrected job credits both |
| Recount.ListOf | src/app/modules/users/users.service.ts:960-971 | the list the recount walks for an account holds only registered accounts |
| Recount.SightingStep | src/app/modules/users/users.service.ts:982-999 | one more sighting: a new ancestor starts at (1, 1); a known one gains 1 on team A when the next record has node 0 and on team B otherwise, which keeps the counting property |
| Recount.TallyListCounts | src/app/modules/users/users.service.ts:973-1001 | walking one account's list keeps the counting property: each tallied ancestor's team A count is 1 plus its later sightings with node 0 next, its team B count 1 plus its other later sightings |
| Recount.TallyCounts | src/app/modules/users/users.service.ts:951-1006 | the tally holds exactly the ancestors sighted in any account's list; for each, team A is 1 plus the later sightings whose next record has node 0, and team B 1 plus the later sightings whose next record has any other node |
| Recount.Marks | src/app/modules/users/users.service.ts:973-978 | the i-th sighting of one account's list is its i-th ancestor with the node of the next record, or of the account itself for the last |
| Recount.LaterSplit | src/app/modules/users/users.service.ts:982-999 | every sighting of an ancestor after its first is counted on exactly one leg |
| Recount.CountsSum | src/app/modules/users/users.service.ts:982-999 | a tally with the counting property has both counts ≥ 1, summing to one more than the number of sightings |
| Engine.SaveAll | src/app/modules/users/bonus/bonus.service.ts:93-96 | a batch save changes exactly the saved addresses |
| Engine.SaveAllExact | src/app/modules/users/bonus/bonus.service.ts:93-96 | with one record per address, every record saved is stored as given |
| Engine.VolumeStepSound | src/app/modules/users/bonus/bonus.service.ts:61-96 | volume propagation keeps the tree invariant and delta ≤ volume |
| Engine.VolumeStepEffect | src/app/modules/users/bonus/bonus.service.ts:61-96 | volume propagation credits exactly the affected ancestors, each on the leg of the next record, and leaves every other account alone |
| Engine.DirectStepSound | src/app/modules/users/bonus/bonus.service.ts:267-287 | the direct bonus keeps the tree invariant and delta ≤ volume |
| Engine.DirectStepPays | src/app/modules/users/bonus/bonus.service.ts:250-287 | when the gate lets the sponsor through, the buyer has a registered referrer, whose record gains the bonus as direct bonus and then as withdrawable balance, and exactly one claimable `direct` row is written for it |
| Engine.MatchingStepSound | src/app/modules/users/bonus/bonus.service.ts:176-238 | matching keeps the tree invariant and delta ≤ volume |
| Engine.MatchingStepElsewhere | src/app/modules/users/bonus/bonus.service.ts:234-238 | matching rewrites only the ancestors it was given |
| Engine.AfterRecording | src/app/modules/users/users.service.ts:558-569 | the buyer's last pack becomes the pack, and its price follows unless the pack was already the last one; nothing else changes |
| Engine.Recorded | src/app/modules/users/users.service.ts:558-569 | recording a purchase changes only the buyer's record |
| Engine.Steps | src/app/modules/users/users.service.ts:592-651 | the bonus steps keep the set of accounts |
| Engine.Purchase | src/app/modules/users/users.service.ts:546-651 | a whole non-legacy purchase keeps the set of accounts |
| Engine.PurchaseBuyerRecord | src/app/modules/users/users.service.ts:546-651 | a purchase changes the buyer's own record only by the recording and the individual income: the buyer is never its own ancestor, referrer or matched ancestor |
| Engine.WalkFrom | src/app/modules/users/bonus/bonus.service.ts:527-561 | the recursive walk returns the children, then each child's descendants in turn |
| Engine.WalkChildren | src/app/modules/users/bonus/bonus.service.ts:556-559 | the loop appends each child's walk in order |
| Engine.ChildPartners | src/app/modules/users/users.service.ts:727-759 | the walk along either tree returns exactly the accounts that have the given account among their ancestors |
| Engine.TallyAccount | src/app/modules/users/users.service.ts:973-1001 | the inner loop over one account's affected list produces the tally of that list |
| Engine.TeamCounts | src/app/modules/users/users.service.ts:959-1004 | the outer loop over every account produces the tally, which has the counting property of `Recount.TallyCounts` (leg A for a later sighting followed by node 0, leg B otherwise) and counts summing to sightings plus one |
| Engine.RunRows | src/app/modules/users/bonus/bonus.service.ts:670-750 | the job's loop over its first rows produces the corrected run |
| Engine.RunSound | src/app/modules/users/bonus/bonus.service.ts:670-750 | the job changes only balances, so it keeps the store invariant |
| Engine.Store.Register | src/app/modules/users/users.service.ts:202-342 | fails exactly when the parent or the referrer is unknown, changing nothing; otherwise adds the new account, keeps the invariant, and raises the referrer's direct partner count by exactly 1 |
| Engine.Store.UpdateUserIndividualIncome | src/app/modules/users/bonus/bonus.service.ts:99-115 | the buyer's individual income rises by the recorded pack price; nothing else changes |
| Engine.Store.UpdateSponsorsIncome | src/app/modules/users/bonus/bonus.service.ts:42-97 | the ancestors are credited as `Volume.SponsorsIncome` says and their business rows are appended; the invariant is kept |
| Engine.Store.MakeEntryInBonus | src/app/modules/users/bonus/bonus.service.ts:483-525 | appends one ledger row with the beneficiary's current rank, and credits its balance exactly when the row is claimable |
| Engine.Store.UpdateDirectSponsorBonus | src/app/modules/users/bonus/bonus.service.ts:241-290 | when the gate lets the referrer through, its direct bonus and balance rise by the bonus and one claimable row is appended; otherwise nothing changes |
| Engine.Store.UpdateTeamMatchingSponsorBonus | src/app/modules/users/bonus/bonus.service.ts:117-239 | the matched ancestors' new records are saved and their team rows, then override rows, are appended; the invariant is kept |
| Engine.Store.BuyPack | src/app/modules/users/users.service.ts:493-666 | rejects an unknown buyer, then an unknown pack, then a short wallet balance (unless the purchase is legacy or paid by NFT or bonus), then a smaller pack than the last one (unless legacy), each exactly in its case and changing nothing; it succeeds exactly when every guard passes, and then records the purchase as NFT-distributed or paid, stops there for a legacy import, and else debits the wallet (unless bonus-funded) and applies `Engine.Purchase` |
| Engine.Store.PaidPurchase | src/app/modules/users/users.service.ts:546-651 | a non-legacy purchase past the guards: the purchase is appended as NFT-distributed when bonus-funded and as paid otherwise, the wallet is debited by the price unless bonus-funded, and the accounts, business rows and ledger rows become those of `Engine.Purchase` on the accounts before the recording |
| Engine.Store.RecordPurchase | src/app/modules/users/users.service.ts:546-569 | appends the purchase with its status and records the pack on the buyer |
| Engine.Store.BonusSteps | src/app/modules/users/users.service.ts:592-651 | the four bonus steps in order produce the accounts and the rows of `Engine.Purchase` |
| Engine.Store.VolumeSteps | src/app/modules/users/users.service.ts:592-626 | steps 1 and 2: individual income, then volume over the affected list |
| Engine.Store.RewardSteps | src/app/modules/users/users.service.ts:628-651 | steps 3 and 4: the direct bonus, then matching over the ancestors read again in registration order |
| Engine.Store.CronForBinaryIncomeUpdate | src/app/modules/users/bonus/bonus.service.ts:654-755 | the accounts and the ledger become the corrected run over the rows before the first failure; the invariant is kept |
| Engine.Store.GetChildPartnersUsers | src/app/modules/users/bonus/bonus.service.ts:527-561 | returns exactly the descendants of the account along the chosen tree; the same method serves the referral walk of `src/app/modules/users/users.service.ts:727-759` |
| Engine.Store.UpdateUserTeamAAndBCount | src/app/modules/users/users.service.ts:951-1007 | returns the leg tally, with the counting property and the sum of sightings plus one per ancestor; nothing is stored |

## Left out

- The database, its repositories and its query operators are not modelled as such. They become map lookups, filters and the ordering rules above.
- The wallet service is an abstract balance map. `Engine.BalanceShort` is the balance check and `Engine.Debit` the deduction. Registration takes the account address the wallet service creates as a parameter.
- Mail, tokens, password hashing, signature checks, `Logger` and `console.log` are left out. They are I/O or foreign libraries.
- The random referral-code generators are left out. The two generated codes are parameters of `Store.Register`.
- Engine.Store.Register: the code finds the parent (users.service.ts:91-109) and the referrer (users.service.ts:205-223) by `accountAddress` or by `walletAddress`, in every registration; `oldImport` only decides which of the two is tried first. The model has no `walletAddress` field and matches by account address only, so a parent or referrer given by its wallet address is refused with `ParentOrReferrerNotFound` where the code accepts it.
- The e-mail check, `userName`, `level`, `isActive`, `password` and the optional counters taken from the request are left out. They are I/O or request data. A new account's counters all start at 0.
- Engine.Store.Register: requires that the new address is not yet registered. The wallet service hands out fresh addresses, which is outside the model.
- Engine.Store.BuyPack: the legacy lookup of the buyer by wallet address is modelled as a lookup by account address.
- Engine.Store.BuyPack: the rank step `updateUserProfileAndRankBonus` returns at its first line and changes nothing, so it is not called. `Ranks.CurrentLevel` is the rank decision on its own.
- Engine.Store.BuyPack: the later steps read the buyer as loaded before the purchase, as the code does. The fields they read (`parents`, `sponsorTree`, `node`, `referredBy`) are not changed by a purchase.
- Direct.Gated: the model reads the stored referrer of the sponsor. The code reads `referredBy` of a relation loaded without that nested relation. Whether the ORM fills it is outside the model.
- Ranks.CurrentLevel: the stars are counted on the stored `node` of each descendant. The code's walk selects only id, address and creation time. Whether `node` is present there is outside the model.
- Ranks.CurrentLevel: the star requirement string `"N_id"` is modelled as a parsed pair, `StarRequirement`.
- Engine.Store.CronForBinaryIncomeUpdate: uses the corrected job, `Reconcile.Run`. The code as written is `Reconcile.RunAsWritten` (see Findings). The scheduling and the `getDisableCron` switch are left out.
- Engine.Store.CronForBinaryIncomeUpdate: only a failure between two rows is modelled, by the `failAt` parameter: the rows before it are settled and the rest are untouched. Each row first writes the balance (bonus.service.ts:709-718 and 732-741) and then the row itself (721-724 and 742-747). A failure between those two writes leaves the row credited but still not claimable, so the next run credits it again. That half-done row is not modelled.
- Tree.SortByDepth: ancestors of equal `treeDepth` are kept in first-occurrence order (`parents` before `sponsorTree`). The query orders by depth only and leaves ties to the database. This is a modelling choice with an effect: the record after an ancestor (`sponsors[index + 1]`) decides the leg credited by `Volume.SponsorsIncome` and the leg counted by the recount, so another tie order can credit or count a different leg.
- Tree.TableOrder: a read without an ordering clause (the matching step's second read, the children queries of the descendant walk, the recount's list of accounts, the daily job's query for unclaimed rows at bonus.service.ts:663-668) is taken in registration order, or for the ledger in the order rows were appended. Likewise `Ranks.Candidate` takes the first rank in table order among ranks of equal threshold, while the query at bonus.service.ts:350-366 orders by threshold only. A database may return another order. For matching, each ancestor is matched on its own record, so the order decides only the order of the saves and of the ledger rows; for the walk, only the order of the list; for the recount, which sighting of an ancestor is its first, and so which leg each later sighting raises; for the daily job as written (`Reconcile.RunAsWritten`), which row is the last writer of an account; for the rank decision, which of several ranks with the same threshold is the candidate.
- Engine.Store.Register and Engine.Store.GetChildPartnersUsers: addresses are compared exactly. The code stores `accountAddress` in lower case, and both descendant walks compare `LOWER(...)` with the lower-cased input. The model assumes every address is already lower case; case folding is not modelled.
- Engine.Store.GetChildPartnersUsers: requires a registered account. For an unknown address the code queries the children of an undefined id (bonus.service.ts:530-549, users.service.ts:730-747); that case is not modelled. The rank decision, its caller in the core, always passes a registered account.
- Engine.Store.Valid: assumes every pack price is at least 0, as does the constructor that establishes it. Nothing in the code enforces this; the delta ≤ volume invariant depends on it, since a negative price would lower a leg's volume below its matched delta.
- The concurrent writes of `Promise.all` are modelled as sequential saves, in list order.
- JavaScript floating point is modelled by exact reals, so rounding is not modelled.
- The read-only and administrative endpoints are not part of this model. These are listings, pagination, the parent and sponsor tree views, `details`, login, passwords, e-mail changes, pack status changes and the backdoor.

## Findings

| source | as written | input that shows it | evidently intended | confidence | as-written member | corrected member |
|---|---|---|---|---|---|---|
| src/app/modules/users/bonus/bonus.service.ts:680-719 | the credit test reads `dataToUpdateForBonus.amount`, which is set only when something was flushed | a released team row of amount 20 for an account whose last pack price is 100 and whose both leg counts are ≥ 1: the row is marked claimable, and the balance is not credited | a released team row pays its (capped) amount | not executed | Reconcile.UnflushedTeamRowIsLost | Reconcile.SettleTeam |
| src/app/modules/users/bonus/bonus.service.ts:709-741 | each balance write is the balance loaded with the row before the run plus that row's amount | two unclaimed `teamDirect` rows of 5 and 7 for one account in one run: the balance rises by 7, not 12 | every released row adds to the balance | not executed | Reconcile.SecondRowOverwritesFirst | Reconcile.Run |
