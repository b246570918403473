# Finix core models

Dafny models of the parts of the Finix backend and chaincode that hold state or do arithmetic
without I/O, with proofs of what they keep. `dafny verify dfyconfig.toml` checks everything.

| part | modules | main results |
|---|---|---|
| fraud graph | `FraudRisk`, `FraudScores`, `FraudCache`, `FraudGraph` | the path-dependent search equals a plain recurrence over walks; a score is exactly the worth of the best chain to a flagged node, follows its length and rises under marking; the forward maps, the reverse index and the generation-stamped cache agree with the value graph after every operation; concurrent score calls are linearizable |
| debt | `Amortisation`, `Prepayment`, `Waterfall` | a schedule repays to the last paisa and drifts from the exact one by a bounded amount; paying more or earlier never costs; month by month the waterfall dominates every loan on its own, and exactly when its interest and length stay within the schedules |
| tokens | `Tokens`, `Sessions`, `Rotation` | over all interleavings, rotation happens once per token and one token per login is live, each exactly under a stated bound on stalls; revoked tokens never verify, exactly up to a bound on the verification itself |
| ledger | `EventChain`, `MerkleTree`, `ChainRules`, `Ledger` | what head hash and Merkle root pin, and exactly when; every reachable chain is intact and lawful |
| outbox | `Outbox`, `OutboxRuns` | at most three attempts, at most one success, no loss, and a bound on the ticks until an event is settled |
| goals | `Goals` | conservation of money over whole runs, one debit per idempotency key, and exactly when a key is answered with another goal |
| limiter | `RateLimit`, `LimiterClock` | the lazy sweep is invisible, clients are independent and the bound of a sliding window holds, each exactly when the clock does not run back |
| score | `Diversification` | the Herfindahl index by Cauchy-Schwarz, and exactly when the score is 100 or 15 |

Conventions. Code that updates fields, arrays or slices in place is a class or a method with loops,
proved equal to a function of the old state; the theorems are about those functions and about runs of
them. Paise are `int`; rates, weights and scores are `real`. Recipients, token ids, clients and
categories are wrapped in one-constructor datatypes. Clock readings, fresh ids, hash values and the
results of publishing are parameters, so the theorems hold for all of them. SHA-256 is any function
whose results have 64 characters without `|`; that it has no collision is assumed only of the strings
the chains at hand hash.

## What the proofs show about the code

These are places where the code differs from its comments, or where a property holds only under a
condition. Each names the lemma that says exactly when it holds, and the one with the failing input.

- Refreshing. Write stall for the time between the revocation check and the claim of a refresh, and wait
  for the time between a clock reading and holding the lock. That no token is rotated twice, that no
  revoked token is rotated, and that one login never has two live tokens each hold in every run exactly
  when stall is at most one second or stall + wait is at most the 1200 seconds that a revocation entry
  lives (`Rotation.SafeExactlyWhenTight`). Otherwise a revocation whose clock reading is old overwrites the
  entry of a rotation, the entry is pruned too early, and a stalled refresh rotates the token again
  (`Rotation.DoubleRotation`).
- Verifying. Whatever those two bounds are, no revoked token is accepted exactly when a verification takes
  at most 301 seconds between its expiry check and its revocation check (`Rotation.VerifySafeExactly`); at
  302 seconds the entry can be pruned in between (`Rotation.SlowVerification`).
- Refresh age. The limit of one day on a token's age is meant to stop old tokens from being refreshed for
  ever. It never decides about a token this manager issued (`Tokens.DayNeverDecides`), and a session that is
  refreshed in time has no end (`Sessions.SessionOutlives`).
- Event hashes. The fields are joined without escaping. The hash input of an event belongs to one user and
  one content exactly when neither its user id nor its action contains the separator, which `RecordEvent`
  does not check (`EventChain.UserPinnedExactly`); two users at the same point of their chains get the same
  hash for the same payload and instant exactly when user id and action join to the same string
  (`Ledger.SameHashExactly`).
- Merkle roots. A root fixes the list of hashes exactly when the number of leaves is known
  (`MerkleTree.RootPinsExactly`): for any two numbers there are lists with the same root
  (`MerkleTree.SameRootAt`).
- Cooling off. `VerifyCoolingOff` scans the category transaction only, while the rule looks at all
  categories; `ChainRules.ReportAgreesWithRule` says exactly when the two agree, and
  `Ledger.AuditBlockIsOverlooked` is a committed history where they do not. The categories
  account_aggregator and data_export that the consent rule names are not accepted by `RecordEvent`, so there
  the rule acts through its action names alone (`ChainRules.ReadsDataByAction`).
- Pruning is described as removing nodes not updated for 30 days, but a node's timestamp is written only
  when it is created: a full graph drops a node exactly when it is unflagged and was created more than 30
  days ago, whatever it did since (`FraudGraph.AgeDecides`), even if its own payment has just filled the
  graph (`FraudGraph.PayerIsForgotten`).
- Goals. Money is kept exactly unless a goal that holds some is dissolved for a user without accounts
  (`Goals.ConservedExactly`).
- Idempotency keys of contributions are joined without escaping. The ids the service draws have no colon,
  so keys of existing goals never clash (`Goals.IdemKeyPinsParts`), but the goal id in a request is whatever
  the client sends: a contribution is answered with a goal it did not name exactly when its key is already
  known and the id it sent contains a colon (`Goals.ForeignAnswerExactly`,
  `Goals.UnknownGoalIsAnswered`). No money moves in that case.
- Rate limiting. The source reads the clock before it takes the lock, so a request can be stamped before
  one that was served earlier. While none is, any interval of the window's length admits at most 2·max − 1
  requests of a client, and max if the window is a single nanosecond; both are reached
  (`RateLimit.WindowIsBounded`, `RateLimit.BoundIsReached`). For every limit, each of these holds for all
  requests exactly when no stamp runs back, and a nanosecond is enough to break it: that bound
  (`LimiterClock.WindowHeldExactly`, failing in `LimiterClock.TwoBucketsPass`), that the sweep changes no answer
  (`LimiterClock.SweepHiddenExactly`, `LimiterClock.LateArrivalDiffers`), and that clients are independent
  (`LimiterClock.IsolatedExactly`, same requests). That a refused client made max requests less than a window
  ago holds exactly then or when max is one (`LimiterClock.EarnedExactly`, `LimiterClock.EarlyFillRefused`).
- Prepayment. The clamps of `PrepaymentImpact` are not only for rounding: they hide a difference exactly
  when the lump sum of the first month makes a loan repayable that was abandoned before, because its empty
  baseline counts as zero interest and zero months (`Prepayment.ImpactIsExact`, `Prepayment.ClampsFire`).
- Waterfall. A loan whose EMI does not cover its interest has an empty schedule, but costs interest in the
  waterfall. At rates that are not negative the waterfall's interest is within the schedules for every
  budget exactly when each loan's EMI covers its first interest or that interest is zero, and its length
  exactly when all EMIs cover it or the limit of months is the bound anyway
  (`Waterfall.WaterfallNeverWorseExactly`). The failing budget there is negative; the service sends positive
  ones, and for a single loan the condition decides for each of them (`Waterfall.OneLoanNeverWorseExactly`).

## Model

| member | source | states |
|---|---|---|
| FraudRisk.SearchIsWalk | backend/internal/domain/fraud/gnn.go:236-294 | For every graph with weights in [0.1, 1], start node and hop budget, the depth-limited search with a visited set returns the value of the recurrence over all walks, with no visited set. |
| FraudRisk.WalkOrShortcut | backend/internal/domain/fraud/gnn.go:236-294 | The loop removal behind it: the search that hides any set of nodes already reaches the walk value, or some hidden node reaches at least 1/0.6 of it with one hop less. |
| FraudRisk.SearchBelowWalk | backend/internal/domain/fraud/gnn.go:243-248 | Hiding nodes never raises a value. |
| FraudRisk.WalkMonotoneInHops | backend/internal/domain/fraud/gnn.go:236-240 | A larger hop budget never lowers the walk value. |
| FraudRisk.WalkOrigin | backend/internal/domain/fraud/gnn.go:250-291 | A positive value is exactly the offer of one flagged sender, flagged successor or unflagged successor. |
| FraudScores.ScoreReflectsDistance | backend/internal/domain/fraud/gnn.go:236-294 | An unflagged node whose shortest chain to a flagged node has d edges within the budget scores between 0.8·0.06^d and 0.6^d. |
| FraudScores.ScoreZeroIffIsolated | backend/internal/domain/fraud/gnn.go:236-294 | It scores 0 if and only if no chain to a flagged node fits in the budget. |
| FraudScores.ScoreIsBestChain | backend/internal/domain/fraud/gnn.go:236-294 | An unflagged node scores exactly the worth of its best chain within the budget, or 0 without any: 1 for fraud or 0.8 for a mule at its end, times 0.6 for each edge, times the product of the edge weights. |
| FraudScores.ChainBelowWalk | backend/internal/domain/fraud/gnn.go:250-291 | No chain within the budget is worth more than the walk value. |
| FraudScores.WalkIsChain | backend/internal/domain/fraud/gnn.go:250-291 | A positive walk value is what some chain within the budget is worth. |
| FraudScores.ScoreRanks | backend/internal/domain/fraud/gnn.go:189-230 | Scores lie in [0, 1]; 1 means fraud and nothing else does; above 0.6 means flagged and nothing else does. |
| FraudScores.MarkingNeverLowersScores | backend/internal/domain/fraud/gnn.go:159-180 | Marking any node as fraud or mule lowers the score of no node in the graph, for every graph shape. |
| FraudScores.WalkRisesUnderMarking | backend/internal/domain/fraud/gnn.go:159-180 | The same for the risk passed on to any node with any budget. |
| FraudScores.MarkingFlags | backend/internal/domain/fraud/gnn.go:218-224 | A marked node scores at least the risk of its mark. |
| FraudCache.CallsAreLinearizable | backend/internal/domain/fraud/gnn.go:189-230 | In every interleaving of critical sections, a score call returns the uncached answer of one single state between its start and its end. |
| FraudCache.RunIsSound | backend/internal/domain/fraud/gnn.go:192-228 | In every reachable state, an entry stamped with the current generation belongs to a present node and holds its recomputed score. |
| FraudCache.NextKeepsSound | backend/internal/domain/fraud/gnn.go:192-228 | Each kind of critical section keeps that invariant. |
| FraudCache.StoredIsFound | backend/internal/domain/fraud/gnn.go:200-228 | A computed score is found by the next call's read-locked section while nothing mutates the graph. |
| FraudGraph.StructuringWeight | backend/internal/domain/fraud/gnn.go:58-74 | The weight is at most 1, at least 0.1 after a transfer, and exactly 1 from ten transfers or ten lakh rupees on. |
| FraudGraph.WeightReaches | backend/internal/domain/fraud/gnn.go:58-74 | The weight reaches a level between 0 and 1 exactly when the count in tens, the total in ten lakh rupees, or from two transfers on the transfers a day in tens does, an hour being the shortest time. |
| FraudGraph.WrapMeans | backend/internal/domain/fraud/gnn.go:149-149 | A wrapped sum is the 64-bit number that differs by a multiple of 2^64. |
| FraudGraph.TransactionKeepsWeights | backend/internal/domain/fraud/gnn.go:118-156 | A transaction keeps all edge weights in [0.1, 1]. |
| FraudGraph.PruneKeepsFlagged | backend/internal/domain/fraud/gnn.go:402-432 | No flagged node is ever pruned or changed by pruning. |
| FraudGraph.PruneMeans | backend/internal/domain/fraud/gnn.go:120-126 | A transaction on 10000 nodes or more keeps exactly the flagged nodes and those created in the last 30 days, with the edges among them, unchanged; on fewer it keeps all. |
| FraudGraph.TransactionMeans | backend/internal/domain/fraud/gnn.go:127-156 | After the prune exactly the two endpoints and one edge are added or updated, field by field: count, wrapped total, first and last instant, weight; everything else stays. |
| FraudGraph.MarkingMeans | backend/internal/domain/fraud/gnn.go:159-180 | A marking changes one node: its flag, and its stored risk to 1, or to at least 0.8 without ever lowering it. |
| FraudGraph.SeedingMeans | backend/internal/domain/fraud/gnn.go:365-397 | The seeded nodes are exactly the known ids with the risks 1 and 0.8, and an id in both lists is a mule. |
| FraudGraph.EdgeAccumulates | backend/internal/domain/fraud/gnn.go:148-154 | In every run in which both ends stay, an edge counts each transfer, adds up the amounts modulo 2^64 and keeps its first instant. |
| FraudGraph.UncachedAnswers | backend/internal/domain/fraud/gnn.go:189-230 | The uncached answer is the prior for an unknown recipient, 1 for fraud, 0.8 for a mule, and otherwise the worth of the best chain of at most three edges. |
| FraudGraph.StampLasts | backend/internal/domain/fraud/gnn.go:351-362 | Over every run of transactions and markings that never prunes it, a node keeps the timestamp of its creation. |
| FraudGraph.AgeDecides | backend/internal/domain/fraud/gnn.go:402-432 | After any such run, the next transaction on a full graph drops the node if and only if it is unflagged and was created before the cutoff. |
| FraudGraph.PayerIsForgotten | backend/internal/domain/fraud/gnn.go:118-156 | An old node whose payment fills the graph is dropped by the prune of the next transaction. |
| FraudGraph.FraudGraph.constructor | backend/internal/domain/fraud/gnn.go:98-109 | The seeded graph: known fraud ids, then known mule ids, and the indexes agree. |
| FraudGraph.FraudGraph.Seed | backend/internal/domain/fraud/gnn.go:365-397 | A loop over known ids stores the seed state under each, the last writer winning. |
| FraudGraph.FraudGraph.GetOrCreateNode | backend/internal/domain/fraud/gnn.go:351-362 | Adds a clean node when missing, and otherwise changes nothing. |
| FraudGraph.FraudGraph.GetOrCreateEdge | backend/internal/domain/fraud/gnn.go:130-147 | A new edge record is put into both maps, an old one is found; both maps hold the same record. |
| FraudGraph.FraudGraph.RecordTransfer | backend/internal/domain/fraud/gnn.go:148-154 | One transfer changes exactly one edge: count, wrapped total, last instant, weight. |
| FraudGraph.FraudGraph.AddTransaction | backend/internal/domain/fraud/gnn.go:118-156 | The new value graph is prune-if-full, then both nodes, then one transfer; forward maps, reverse index, weights and cache stay valid, and the generation rises. |
| FraudGraph.FraudGraph.MarkAsFraud | backend/internal/domain/fraud/gnn.go:159-168 | Exactly one node is created or flagged, its stored risk becomes 1, everything stays valid, and no cached score survives. |
| FraudGraph.FraudGraph.MarkAsMule | backend/internal/domain/fraud/gnn.go:171-180 | The same for mules, where the stored risk never falls. |
| FraudGraph.FraudGraph.PruneOldNodes | backend/internal/domain/fraud/gnn.go:402-432 | Removes exactly the unflagged nodes dated before the cutoff and the edges at them, and the generation rises if any went. |
| FraudGraph.FraudGraph.PruneNode | backend/internal/domain/fraud/gnn.go:408-427 | Removing one node removes its edges from both indexes, empty inner maps included, and its cache entry. |
| FraudGraph.FraudGraph.UnlinkTargets | backend/internal/domain/fraud/gnn.go:411-418 | The loop over targets leaves the reverse index without the node's outbound edges. |
| FraudGraph.FraudGraph.UnlinkSenders | backend/internal/domain/fraud/gnn.go:419-424 | The loop over senders leaves the forward maps without the node's inbound edges. |
| FraudGraph.FraudGraph.ComputeNHopRisk | backend/internal/domain/fraud/gnn.go:236-294 | The search over the mutable maps returns the specified search value and restores the visited set. |
| FraudGraph.FraudGraph.OutboundRisk | backend/internal/domain/fraud/gnn.go:250-272 | The loop over neighbours is the best of their offers. |
| FraudGraph.FraudGraph.InboundRisk | backend/internal/domain/fraud/gnn.go:274-291 | The loop over the reverse index is the best offer of the flagged senders. |
| FraudGraph.FraudGraph.LookUp | backend/internal/domain/fraud/gnn.go:192-204 | The read-locked section answers only with the uncached answer of the present state. |
| FraudGraph.FraudGraph.ComputeAndStore | backend/internal/domain/fraud/gnn.go:206-229 | The write-locked section answers with the uncached score and keeps the cache sound. |
| FraudGraph.FraudGraph.GetRiskScore | backend/internal/domain/fraud/gnn.go:189-230 | An undisturbed call returns the prior for an unknown recipient, 1 for fraud, 0.8 for a mule, and otherwise the worth of the best chain of at most three edges, or 0 without any. |
| Amortisation.RoundWithinHalf | backend/internal/domain/debt/amortisation.go:27-32 | Rounding moves a value by at most half a paisa and never across zero. |
| Amortisation.RoundMeans | backend/internal/domain/debt/amortisation.go:27-32 | Rounding is symmetric, commutes with whole paise, and sends half a paisa away from zero. |
| Amortisation.RateMeans | backend/internal/domain/debt/amortisation.go:23-25 | The monthly rate is a twelfth of a hundredth of the annual percentage. |
| Amortisation.EMINearExact | backend/internal/domain/debt/amortisation.go:40-52 | The EMI is the exact instalment to half a paisa. |
| Amortisation.ScheduleNilExactly | backend/internal/domain/debt/amortisation.go:63-82 | At rates that are not negative, a schedule is nil if and only if term, principal or EMI is not positive, or the rate is positive and the EMI is at most the first month's rounded interest. |
| Amortisation.ScheduleExists | backend/internal/domain/debt/amortisation.go:63-102 | A loan of at least what one paisa a month grows to over its term has a schedule, at every rate that is not negative. |
| Amortisation.ExactEMIExceeds | backend/internal/domain/debt/amortisation.go:40-52 | The excess of the exact instalment over the exact first interest grows to exactly the principal. |
| Amortisation.InterestFreeExactly | backend/internal/domain/debt/amortisation.go:44-46 | Without interest there is a schedule if and only if half a paisa a month is owed. |
| Amortisation.Schedule | backend/internal/domain/debt/amortisation.go:63-102 | The loop computes the specified rows, with every early return. |
| Amortisation.ScheduleRepays | backend/internal/domain/debt/amortisation.go:63-102 | A schedule that is not nil has at most `months` rows, strictly falling balances that stay non-negative and end at 0, non-rising interest, pays exactly the EMI in every row but the last, and repays exactly the principal. |
| Amortisation.ScheduleDrift | backend/internal/domain/debt/amortisation.go:40-102 | While it runs, the balance after m months is within ((1+r)^m − 1)/r paise of the exact balance (m when r = 0), and the last instalment is that close to the EMI. |
| Amortisation.GrowthClosedForm | backend/internal/domain/debt/amortisation.go:40-52 | The bound of the drift in closed form. |
| Amortisation.ExactBalanceEndsAtZero | backend/internal/domain/debt/amortisation.go:40-52 | The unrounded EMI formula clears the unrounded loan exactly at the last month. |
| Amortisation.ExactBalanceNonNegative | backend/internal/domain/debt/amortisation.go:40-52 | It overpays at no month before. |
| Amortisation.DriftStep | backend/internal/domain/debt/amortisation.go:83-99 | One month of rounded interest and EMI turns an error d into at most (1+r)d + 1. |
| Amortisation.TotalInterest | backend/internal/domain/debt/amortisation.go:105-111 | The loop sums the interest of all rows. |
| Amortisation.TotalPrincipal | backend/internal/domain/debt/amortisation.go:114-120 | The loop sums the principal of all rows. |
| Prepayment.PrepaySchedule | backend/internal/domain/debt/optimise.go:35-67 | The loop with its prepayments, closing row and bail-out computes the specified rows. |
| Prepayment.RowsFollow | backend/internal/domain/debt/optimise.go:35-67 | Row by row: the month's extra is taken off, rounded interest is paid and the rest of the EMI repaid, or the extra closes the loan; and the rows stop exactly when nothing is owed, after 1200 months, or where the EMI does not cover the interest. |
| Prepayment.BalancesLead | backend/internal/domain/debt/optimise.go:35-67 | Month for month the balance under the plan ahead is lower by its whole lead, or cleared. |
| Prepayment.LumpCounts | backend/internal/domain/debt/optimise.go:35-67 | From its month on a lump sum lowers the balance by at least itself, or the loan is cleared. |
| Prepayment.AheadIsCheaper | backend/internal/domain/debt/optimise.go:35-67 | From any month on, at a rate that is not negative and an EMI that covers the interest on both balances: a balance that is no higher and a plan that is never behind pay no more interest and need no more rows. |
| Prepayment.EarlierAndMoreIsCheaper | backend/internal/domain/debt/optimise.go:35-67 | When the EMI covers the first interest at a rate that is not negative, for any two prepayment plans: if one has put in at least as much by every month, it costs no more interest and no more months. |
| Prepayment.LumpAhead | backend/internal/domain/debt/optimise.go:92-99 | A larger or earlier lump sum is such a plan. |
| Prepayment.PrepaymentImpact | backend/internal/domain/debt/optimise.go:86-115 | With the given EMI or the derived one, the method reports rows and interest of the schedule without and with the lump sum in its month, month 1 at the earliest, their differences but never below 0, and whether both end at 0. |
| Prepayment.ImpactIsExact | backend/internal/domain/debt/optimise.go:86-115 | At rates that are not negative, the clamps stay idle if and only if the lump sum does not make an abandoned loan repayable; when the EMI covers the first interest, savings are never negative. |
| Prepayment.AbandonedRows | backend/internal/domain/debt/optimise.go:54-58 | An abandoned loan has no rows, with a lump sum either, unless that is paid in the first month and leaves nothing or a balance whose interest the EMI covers. |
| Prepayment.ClampsFire | backend/internal/domain/debt/optimise.go:104-112 | A loan of 1000 rupees at 120 percent with an EMI of 100, paid off in month 1: one month more than the baseline is reported as none less. |
| Prepayment.ImpactIsMonotone | backend/internal/domain/debt/optimise.go:86-115 | For any loan at a rate that is not negative: a larger lump sum, or the same one earlier, saves at least as much interest and tenure. |
| Waterfall.PickTarget | backend/internal/domain/debt/optimise.go:327-348 | The loop picks the specified loan. |
| Waterfall.TargetIsPriority | backend/internal/domain/debt/optimise.go:327-348 | That loan is active, no active loan goes before it under the strategy, and among equals it is the first. |
| Waterfall.PayEmis | backend/internal/domain/debt/optimise.go:276-293 | One pass over the accounts accrues interest and repays each EMI's principal part in place. |
| Waterfall.SimulateMonth | backend/internal/domain/debt/optimise.go:274-311 | In place: every EMI is paid, then the budget and the EMIs of closed loans go to the loan that comes first, as far as it takes them, and no other loan changes; the interest is that of all open balances. |
| Waterfall.MonthMeans | backend/internal/domain/debt/optimise.go:274-311 | The same of the function the loop is proved equal to: highest rate first for avalanche, lowest balance for snowball, the first of a tie. |
| Waterfall.SimulateMeans | backend/internal/domain/debt/optimise.go:267-315 | The simulation goes on exactly while something is owed, for at most its cap, and its interest is the sum over its months. |
| Waterfall.OpenedInOrder | backend/internal/domain/debt/optimise.go:254-264 | Loans are opened in their order with balance, rate and given or derived EMI. |
| Waterfall.OneLoanIsPrepaid | backend/internal/domain/debt/optimise.go:253-315 | For one loan whose EMI covers its interest and a positive budget, the waterfall costs the interest of the prepayment schedule with the budget as an extra in every month from the second on, and takes its months, but for a row that only closes the loan. |
| Waterfall.SimulateWaterfall | backend/internal/domain/debt/optimise.go:253-315 | The whole loop computes the specified totals, month count and convergence. |
| Waterfall.MonthDominates | backend/internal/domain/debt/optimise.go:274-311 | At rates that are not negative and whatever the EMIs, one month brings every loan at least as low as its EMI alone. |
| Waterfall.TogetherBelowAlone | backend/internal/domain/debt/optimise.go:253-315 | At rates that are not negative and whatever the EMIs: at every month, for either strategy and any budget, each loan's balance is at most its balance without the waterfall. |
| Waterfall.AloneIsSchedule | backend/internal/domain/debt/optimise.go:35-67 | For a loan whose EMI covers the interest, standing alone is the schedule without prepayment: same balances, interest and length. |
| Waterfall.LoanStuck | backend/internal/domain/debt/optimise.go:54-58 | For one whose EMI does not, the schedule is empty while the account is charged the first month's interest in every month. |
| Waterfall.BalanceBelowSchedule | backend/internal/domain/debt/optimise.go:253-315 | So a loan in the waterfall whose EMI covers its interest, whatever the others are, owes month by month no more than the row of its own schedule says, and nothing once that schedule is over. |
| Waterfall.SimulateIsTogether | backend/internal/domain/debt/optimise.go:253-315 | The accounts the simulation ends with are those after its last month. |
| Waterfall.SimulateBelowAlone | backend/internal/domain/debt/optimise.go:253-315 | From any state at rates that are not negative, and whatever the EMIs, the waterfall's interest and months are bounded by what the accounts take alone. |
| Waterfall.NothingPoured | backend/internal/domain/debt/optimise.go:295-311 | With a budget that takes back all freed EMIs, these bounds are reached. |
| Waterfall.WaterfallNeverWorse | backend/internal/domain/debt/optimise.go:253-315 | When every EMI covers its first interest at a rate that is not negative: total interest is at most the sum of the stand-alone interests, and the month count at most the longest stand-alone schedule. |
| Waterfall.WaterfallNeverWorseExactly | backend/internal/domain/debt/optimise.go:253-315 | At rates that are not negative, the interest is so bounded for every budget and strategy if and only if each EMI covers its first interest or that is zero; the months if and only if each EMI does or the bound is the limit of months. |
| Waterfall.OneLoanNeverWorseExactly | backend/internal/domain/debt/optimise.go:253-315 | For a single loan that condition decides for each budget and strategy. |
| Tokens.JWTManager.IssueToken | backend/internal/domain/security/jwt.go:124-142 | A token for a named user is issued now, lives 900 seconds and keeps user, device and id; its role is the given one, and customer exactly when that is blank. |
| Tokens.JWTManager.VerifyToken | backend/internal/domain/security/jwt.go:146-165 | Accepts exactly the well-formed, unexpired, unrevoked tokens whose device matches; each of the four errors is returned exactly when its check is the first to fail. |
| Tokens.JWTManager.RefreshToken | backend/internal/domain/security/jwt.go:169-198 | An undisturbed refresh succeeds exactly for well-formed, unrevoked tokens young enough on the right device, and leaves the old one revoked; claims without a subject or expiry are invalid, as parse has it, and change nothing. |
| Tokens.JWTManager.RevokeToken | backend/internal/domain/security/jwt.go:201-214 | Enters the token for 20 minutes from the clock reading, then prunes; the empty id is ignored. |
| Tokens.JWTManager.ClaimForRotation | backend/internal/domain/security/jwt.go:230-248 | True for the first caller only, which revokes in the same step. |
| Tokens.JWTManager.PruneLocked | backend/internal/domain/security/jwt.go:285-292 | Drops exactly the entries that are over. |
| Tokens.RefreshableMeans | backend/internal/domain/security/jwt.go:180-189 | A token may be refreshed until five minutes past its expiry and one day past its issue. |
| Tokens.DayNeverDecides | backend/internal/domain/security/jwt.go:184-189 | For tokens this manager issued the day never decides: they may be refreshed for 1200 seconds. |
| Sessions.SessionKeepsIdentity | backend/internal/domain/security/jwt.go:124-198 | In every run of logins and refreshes, each token carries the user and device of the login it descends from, and its role, or customer when none was given. |
| Sessions.SessionOutlives | backend/internal/domain/security/jwt.go:169-198 | A session refreshed in time lasts for any number of refreshes. |
| Rotation.WinnerIsFresh | backend/internal/domain/security/jwt.go:230-248 | Under the stall bound, a claim wins only for a token that was never revoked or claimed before, even if its entry is pruned. |
| Rotation.InvStep | backend/internal/domain/security/jwt.go:169-248 | Under the stall bound, every critical section and clock reading of every call keeps the protocol invariant. |
| Rotation.RunTokensOk | backend/internal/domain/security/jwt.go:146-292 | In every run, however slow its calls, each revoked or claimed token is remembered or was forgotten only when its entry was over, and each unfinished call saw what it must have seen. |
| Rotation.RunInv | backend/internal/domain/security/jwt.go:146-292 | Under the stall bound, the whole invariant, with one line of tokens per login, holds in every state of every run. |
| Rotation.NeverAgain | backend/internal/domain/security/jwt.go:169-248 | Under the stall bound, a token revoked or rotated at some step is not rotated at any later step. |
| Rotation.RotatedAtMostOnce | backend/internal/domain/security/jwt.go:169-248 | Under the stall bound, each token is rotated at most once in a run. |
| Rotation.OneLiveTokenPerLogin | backend/internal/domain/security/jwt.go:146-198 | Under the stall bound, at every instant at most one token descended from one login would verify. |
| Rotation.RevokedNeverVerifies | backend/internal/domain/security/jwt.go:146-165 | In every run, however slow other calls are, a verification that takes at most 301 seconds between its two checks never accepts a revoked token. |
| Rotation.SlowVerification | backend/internal/domain/security/jwt.go:146-165 | For every bound on the other calls there is a run in which one that takes 302 seconds does. |
| Rotation.VerifySafeExactly | backend/internal/domain/security/jwt.go:146-165 | So for every bound on the other calls, verification is safe if and only if it takes at most 301 seconds. |
| Rotation.DoubleRotation | backend/internal/domain/security/jwt.go:169-248 | Whenever the stall bound is broken there is a run that rotates one token twice, the second time after a revocation too, and ends with two live tokens of one login. |
| Rotation.SafeExactlyWhenTight | backend/internal/domain/security/jwt.go:169-248 | Three equivalences: no rotation of a revoked or rotated token, no second rotation, and no two live tokens of a login, each in every run, if and only if the stall bound holds. |
| EventChain.HeadPinsChain | chaincode/finix/main.go:268-299 | Two chains that pass the proof's checks and end in the same hash have the same length and the same hashes. |
| EventChain.HeadPinsContent | chaincode/finix/main.go:268-299 | For one user they also agree on every hashed field of every event. |
| EventChain.PreimagePinsContent | chaincode/finix/main.go:554-564 | For one user, equal hash inputs mean equal fields, even if names contain the separator. |
| EventChain.PreimagePinsDoer | chaincode/finix/main.go:554-564 | Equal hash inputs agree on everything but where the joined string of user and action is cut. |
| EventChain.UserPinnedExactly | chaincode/finix/main.go:554-564 | The hash input of an event belongs to one user and one content if and only if neither its user id nor its action contains the separator. |
| EventChain.DigitsInjective | chaincode/finix/main.go:558-560 | Different sequence numbers print differently. |
| EventChain.DigitsRoundTrip | chaincode/finix/main.go:560-560 | Printing a sequence number and reading it as decimal gives the number. |
| EventChain.PreimageIsJoined | chaincode/finix/main.go:554-564 | What is hashed is the join of the seven fields in their order. |
| MerkleTree.MerkleRoot | chaincode/finix/main.go:566-584 | The nested loops compute the recursive root, an odd last hash paired with itself. |
| MerkleTree.RootOfHalves | chaincode/finix/main.go:566-584 | A tree of two full halves hashes the root of the left one followed by that of the right one. |
| MerkleTree.RootPinsList | chaincode/finix/main.go:566-584 | Two lists of digests of equal length with the same root are equal. |
| MerkleTree.OddListKeepsRoot | chaincode/finix/main.go:575-577 | Repeating the last hash of any odd list keeps the root. |
| MerkleTree.SameRootAt | chaincode/finix/main.go:566-584 | For any two positive lengths there are lists of digests with the same root, without any collision. |
| MerkleTree.RootPinsExactly | chaincode/finix/main.go:566-584 | Equal roots mean equal lists if and only if the lengths are equal. |
| ChainRules.CoolingOffRule | chaincode/finix/main.go:382-398 | Rejects exactly the money moves less than the window after some blocked event of the user. |
| ChainRules.CoolingOffState | chaincode/finix/main.go:452-470 | Active exactly when some dated blocked event is within the window, with the time left after the latest. |
| ChainRules.ReportAgreesWithRule | chaincode/finix/main.go:303-321 | The report and the rule agree at every instant if and only if each blocked event the report overlooks has a visible one at least as late. |
| ChainRules.ConsentRevocationRule | chaincode/finix/main.go:401-428 | Rejects exactly the data reads whose last earlier consent event is a revocation. |
| ChainRules.ConsentGoneMeans | chaincode/finix/main.go:408-427 | Consent is gone exactly when the last of the user's consent events before that instant is a revocation. |
| ChainRules.ReadsDataByAction | chaincode/finix/main.go:401-410 | For every category that can be recorded, an event reads data exactly by its action name. |
| ChainRules.DoubleSpendRule | chaincode/finix/main.go:431-447 | Rejects exactly the initiations whose payload was initiated at another instant. |
| ChainRules.EnforceRules | chaincode/finix/main.go:359-377 | Accepts exactly the events that pass all three rules, and names a rule that fails. |
| ChainRules.CommitKeepsLawful | chaincode/finix/main.go:359-447 | Committing an accepted event keeps: money moves at least the window after every earlier block, one instant per payload, no read without consent. |
| Ledger.Ledger.RecordEvent | chaincode/finix/main.go:129-216 | Commits exactly the well-formed requests that pass the rules, with the trimmed user, action and category, the payload, or an empty object, and its hash, and the instant, as event n+1 of the user's chain; each input error exactly for its input; a double spend is refused only for a payload initiated at another instant, a cooling-off only for a move of money too soon after a block, a read only after a revocation; a refused request changes nothing. |
| Ledger.Ledger.Commit | chaincode/finix/main.go:199-204 | Storing the event and the head keeps them in step with the chain. |
| Text.TrimMeans | chaincode/finix/main.go:139-141 | Trimming takes white space away at both ends, and all of it. |
| Ledger.Ledger.QueryByPartial | chaincode/finix/main.go:526-549 | Whatever order the scan has, sorting rebuilds the user's chain, or its part in one category, exactly. |
| Ledger.Ledger.SortedScan | chaincode/finix/main.go:526-549 | The reason: numbers are distinct across categories. |
| Ledger.AscendingUnique | chaincode/finix/main.go:544-547 | An ascending list is determined by its members. |
| Ledger.Ledger.GetProof | chaincode/finix/main.go:268-299 | In every reachable ledger the proof says intact, with the chain's length, head and Merkle root. |
| Ledger.CheckChain | chaincode/finix/main.go:276-298 | Over any list of events it says intact exactly when the chain is, and otherwise reports the longest intact part. |
| Ledger.SameHashExactly | chaincode/finix/main.go:554-564 | Two users at the same point of their chains get the same event hash for the same payload, category and instant if and only if user id and action join to the same string. |
| Ledger.AuditBlockIsOverlooked | chaincode/finix/main.go:303-321 | A block recorded under category audit is accepted and committed, holds money back, and is not reported. |
| Ledger.Ledger.VerifyCoolingOff | chaincode/finix/main.go:303-321 | Reports exactly the visible blocked events within the window, and the time left after the latest. |
| Ledger.Ledger.SetCoolingOffWindow | chaincode/finix/main.go:327-335 | Only a positive window is stored; chains stay lawful for the shortest window ever in force. |
| Outbox.Outbox.Enqueue | backend/internal/domain/platform/infrastructure.go:120-129 | Appends one pending event. |
| Outbox.Outbox.Dequeue | backend/internal/domain/platform/infrastructure.go:131-141 | Returns the first pending events in order. |
| Outbox.Outbox.MarkProcessed | backend/internal/domain/platform/infrastructure.go:143-152 | Settles the event with this id and nothing else. |
| Outbox.Outbox.MarkFailed | backend/internal/domain/platform/infrastructure.go:154-166 | Counts a failure on the event with this id, and settles it at the third. |
| Outbox.Outbox.Purge | backend/internal/domain/platform/infrastructure.go:182-194 | Drops exactly the settled events that are old enough, in place and in order. |
| Outbox.Outbox.Tick | backend/internal/domain/platform/service.go:994-1020 | One tick, with enqueues between all its steps, equals one attempt on each of the first 50 pending events, then the arrivals, then the purge. |
| Outbox.AttemptNext | backend/internal/domain/platform/service.go:1004-1017 | Recording a result by id hits the event that was attempted, whatever arrived meanwhile. |
| OutboxRuns.DeliveryIsBounded | backend/internal/domain/platform/service.go:994-1020 | In every run each event is attempted at most three times and published at most once, and is gone only after a success or three failures. |
| OutboxRuns.RunKeepsInv | backend/internal/domain/platform/infrastructure.go:143-194 | The account of each event, its counters against the history of attempts, stays right in every run. |
| OutboxRuns.BatchIsFirst | backend/internal/domain/platform/infrastructure.go:131-141 | A batch is the first of all pending events in the order they were enqueued. |
| OutboxRuns.BatchHasFifty | backend/internal/domain/platform/service.go:1003-1004 | A tick attempts fifty, or all that are pending. |
| OutboxRuns.FrontOrBehind | backend/internal/domain/platform/infrastructure.go:131-141 | A pending event is in the batch exactly when fewer than 50 are ahead; otherwise the whole batch is ahead of it. |
| OutboxRuns.QueueAdvances | backend/internal/domain/platform/service.go:994-1020 | Three ticks move a waiting event at least 50 places. |
| OutboxRuns.SettledInTime | backend/internal/domain/platform/service.go:994-1020 | An event with q pending events ahead is settled within 3·(⌊q/50⌋+1) ticks, for all outcomes and arrivals. |
| Goals.Service.TotalBalance | backend/internal/domain/platform/service.go:3628-3636 | Sums the positive balances. |
| Goals.Service.ApplyDebit | backend/internal/domain/platform/service.go:3642-3668 | Refused exactly when funds are short; otherwise the accounts are drained in order; other users keep theirs. |
| Goals.DebitTakesAmount | backend/internal/domain/platform/service.go:3642-3668 | A covered debit takes exactly its amount, raises no account and overdraws none. |
| Goals.DebitDrainsInOrder | backend/internal/domain/platform/service.go:3650-3666 | When a later account is touched, every earlier one with money is empty. |
| Goals.AvailableIsPositivePart | backend/internal/domain/platform/service.go:3628-3636 | What is available is the sum with overdrawn accounts counted as empty. |
| Goals.AppliedMeans | backend/internal/domain/platform/service.go:2311-2375 | An operation changes one goal and what it says of it: savings and completion at the target, status, or savings returned to the first account; every other goal and account stays, and a refused one changes nothing. |
| Goals.RefusalMeans | backend/internal/domain/platform/service.go:2325-2345 | Each refusal is given exactly for its reason, in the order of the checks. |
| Goals.ContributionMeans | backend/internal/domain/platform/service.go:2315-2355 | White space around a client key does not matter and a blank one is none; a known key is answered from memory without touching money; anything else is made and remembered unless refused. |
| Goals.Service.ContributeGoal | backend/internal/domain/platform/service.go:2311-2361 | New money, remembered answer and result follow from the old ones, for every refusal and for a key seen before. |
| Goals.Service.PauseGoal | backend/internal/domain/platform/service.go:3844-3859 | Pauses an active goal, and otherwise changes nothing and says why. |
| Goals.Service.ResumeGoal | backend/internal/domain/platform/service.go:3861-3876 | Resumes a paused goal, and otherwise changes nothing and says why. |
| Goals.Service.CloseGoal | backend/internal/domain/platform/service.go:2363-2375 | Closes a goal; its savings stay in it. |
| Goals.Service.DissolveGoal | backend/internal/domain/platform/service.go:3814-3842 | Returns the savings to the first account and empties the goal, once. |
| Goals.ConservedExactly | backend/internal/domain/platform/service.go:2311-2375 | One operation keeps accounts plus savings plus paid-out debits if and only if it does not dissolve a funded goal of a user without accounts. |
| Goals.StaysInOrder | backend/internal/domain/platform/service.go:3814-3876 | No operation makes a balance or savings negative, and dissolved goals are empty. |
| Goals.RunConserves | backend/internal/domain/platform/service.go:2311-2375 | For a user with an account both hold over every run. |
| Goals.AnswersLast | backend/internal/domain/platform/service.go:2317-2322 | A remembered answer is never replaced in any run. |
| Goals.KeyDebitsOnce | backend/internal/domain/platform/service.go:2315-2355 | After a keyed contribution was answered, the same key never takes money again in any run. |
| Goals.IdemKeyPinsParts | backend/internal/domain/platform/service.go:2318-2318 | For ids without a colon, as all ids the service draws are, a key stands for one user, goal and client key. |
| Goals.RunKeepsRecorded | backend/internal/domain/platform/service.go:2315-2355 | In every run, whatever goal ids and keys callers send, each remembered answer is that of the goal it was recorded for. |
| Goals.ForeignAnswerExactly | backend/internal/domain/platform/service.go:2315-2322 | A contribution is answered with a goal it did not name if and only if its key is already known and the goal id it sent contains a colon. |
| Goals.UnknownGoalIsAnswered | backend/internal/domain/platform/service.go:2315-2322 | After a contribution under such a key, a request that names no goal is answered with the first goal, though without a key it is refused as not found. |
| RateLimit.SweepIsInvisible | backend/internal/api/middleware/rate_limit.go:37-52 | With a clock that does not run back, the swept limiter answers every list of requests as one that never sweeps. |
| LimiterClock.LateArrivalDiffers | backend/internal/api/middleware/rate_limit.go:35-46 | For every limit, a full bucket, a sweep by another client and a request stamped one nanosecond earlier are answered differently. |
| LimiterClock.SweepHiddenExactly | backend/internal/api/middleware/rate_limit.go:35-52 | For every limit, the sweep changes no answer to requests with a given skew if and only if the skew is zero. |
| LimiterClock.TwoBucketsPass | backend/internal/api/middleware/rate_limit.go:35-58 | For every limit, 2·max requests of one client in one window pass when a sweep by another client and stamps one nanosecond earlier come between. |
| LimiterClock.WindowHeldExactly | backend/internal/api/middleware/rate_limit.go:35-58 | For every limit, the bound on admissions holds for all requests with a given skew if and only if the skew is zero. |
| LimiterClock.IsolatedExactly | backend/internal/api/middleware/rate_limit.go:33-53 | For every limit, clients are answered as if alone, for all requests with a given skew, if and only if the skew is zero. |
| LimiterClock.RefusalNeedsOpening | backend/internal/api/middleware/rate_limit.go:47-58 | Whatever the stamps, a refused client opened its bucket less than a window ago. |
| LimiterClock.EarlyFillRefused | backend/internal/api/middleware/rate_limit.go:47-58 | For every limit, stamps one nanosecond early fill a bucket so that a client is refused after one request in the last window. |
| LimiterClock.EarnedExactly | backend/internal/api/middleware/rate_limit.go:47-58 | For every limit, a refused client made max requests less than a window ago, for all requests with a given skew, if and only if the skew is zero or max is one. |
| RateLimit.ClientsAreIndependent | backend/internal/api/middleware/rate_limit.go:33-53 | While no stamp runs back, a client is answered as if it were alone, although anyone's request may sweep. |
| RateLimit.WindowIsBounded | backend/internal/api/middleware/rate_limit.go:47-58 | While no stamp runs back, any half-open interval of the window's length lets at most 2·max − 1 requests of a client through, and at most max when the window is one nanosecond. |
| RateLimit.BoundIsReached | backend/internal/api/middleware/rate_limit.go:47-58 | For every limit, the one-nanosecond window included, this bound is reached. |
| RateLimit.RefusedOnlyWhenBusy | backend/internal/api/middleware/rate_limit.go:47-58 | While no stamp runs back, a refused client made at least max requests less than a window ago. |
| RateLimit.Limiter.constructor | backend/internal/api/middleware/rate_limit.go:14-26 | Non-positive settings become 60 requests and one minute. |
| RateLimit.Limiter.Sweep | backend/internal/api/middleware/rate_limit.go:40-45 | Drops exactly the buckets whose window is over. |
| RateLimit.Limiter.Allow | backend/internal/api/middleware/rate_limit.go:32-61 | One request updates the buckets as specified and is let through exactly when its count is within the limit. |
| RateLimit.Limiter.Serve | backend/internal/api/middleware/rate_limit.go:31-61 | Serving requests in turn gives the answers the theorems are about. |
| Diversification.GroupByClass | backend/internal/domain/healthscore/derive.go:220-232 | The loop computes the value held in each class, skipping non-positive holdings and naming blank classes. |
| Diversification.Concentration | backend/internal/domain/healthscore/derive.go:237-241 | The loop computes the Herfindahl index in whatever order the map is visited. |
| Diversification.Diversification | backend/internal/domain/healthscore/derive.go:219-252 | The result is the score of the class totals. |
| Diversification.CauchySchwarz | backend/internal/domain/healthscore/derive.go:237-241 | n times the sum of squares is at least the square of the sum, with equality exactly for equal totals. |
| Diversification.HerfindahlRange | backend/internal/domain/healthscore/derive.go:212-217 | The index of n classes lies between 1/n and 1, is 1/n exactly for equal totals, and is below 1 for two classes or more. |
| Diversification.EvennessRange | backend/internal/domain/healthscore/derive.go:242-247 | For two classes or more evenness lies in (0, 1] and is 1 exactly for equal totals. |
| Diversification.OuterClampIdle | backend/internal/domain/healthscore/derive.go:251-251 | The outer clamp never changes a score, which is at least 15 for any portfolio of value. |
| Diversification.FullMarksIff | backend/internal/domain/healthscore/derive.go:248-251 | The score is 100 exactly for four classes or more held in equal totals. |
| Diversification.OneClassIff | backend/internal/domain/healthscore/derive.go:210-218 | Five funds in one class score as one: 15, and nothing else scores 15. |
| Diversification.EqualTotalsScore | backend/internal/domain/healthscore/derive.go:242-251 | One class, or two, three, or four and more in equal totals score 15, 70, 85 and 100. |
| Diversification.TwoClassesScore | backend/internal/domain/healthscore/derive.go:237-251 | Two classes score 30 and 160 times the product of their shares. |
| Diversification.MovingRaisesScore | backend/internal/domain/healthscore/derive.go:237-251 | Moving value from a larger class to a smaller one, short of changing places, raises the score. |
| Diversification.TotalsAddUp | backend/internal/domain/healthscore/derive.go:220-232 | Class totals add up to all positive holdings. |
| Diversification.BlankIsOther | backend/internal/domain/healthscore/derive.go:226-229 | Holdings without a category count with those of category other. |

## Left out

- FraudGraph.FraudGraph.GetOrCreateEdge: edge objects are records in a store reached by address, held by both maps, not heap objects; sharing is modelled, aliasing with outside holders is not.
- FraudGraph.FraudGraph.AddTransaction: takes hashed endpoints and one clock reading; hashing of recipients, several readings within a call and saturation of very long durations are not modelled, and the generation counter does not wrap.
- FraudGraph.FraudGraph.ComputeAndStore: the pattern-based prior of unknown recipients is a parameter.
- Amortisation.Schedule: floating point is real arithmetic with explicit rounding to paise; overflow of int64 is not modelled in the debt modules.
- Prepayment.ImpactIsExact: the convergence flag is computed as the source does, but no claim is made that it detects loans that never amortise.
- Waterfall.WaterfallNeverWorseExactly: the failing budget is negative, and which loan lists fail for a given positive budget is stated for one loan only. The comparison is with no prepayment; the source does not optimise, so nothing is claimed about avalanche against snowball.
- Tokens.JWTManager.VerifyToken: signatures, the decoding of tokens and the persistence and lookup hooks for revocations are not modelled.
- Rotation.DoubleRotation: the time between winning a claim and issuing the new token is not bounded, and in the run with two live tokens it is as long as the stall.
- Rotation.RunInv: user, role and device checks do not appear in the protocol; a call that fails them is an abandoned one.
- EventChain.HeadPinsContent: takes all events of a chain to be one user's, as in the ledger, and needs payload hash and category free of the separator, which hashing and the category list ensure in the ledger.
- Ledger.Ledger.RecordEvent: Fabric stub errors, JSON encoding, transaction ids, the rule result stored with the event and the emitted event are not modelled; white space is ASCII.
- Ledger.Ledger.SetCoolingOffWindow: parsing of the duration is not modelled.
- Outbox.Outbox.Tick: events are values addressed by unique ids; topics, payloads and the publishing itself are the set of ids that succeed.
- OutboxRuns.SettledInTime: counts ticks, not seconds.
- Goals.Service.ContributeGoal: goal progress, audit entries, ledger events and overflow of balance sums are not modelled.
- Goals.Service.DissolveGoal: overflow when savings are added to the first account is not modelled.
- RateLimit.Limiter.Allow: client address detection and the HTTP answer are not modelled.
- Diversification.Diversification: class totals do not overflow.
- SolveTenure, Softmax, foreclosure and repo-rate decisions, strategy recommendation, graph statistics: no property beyond one body, or logarithms and exponentials.
- CircuitBreaker, SecretsManager, the in-memory ledger, the other health score components, accounting entries and transaction statuses: not modelled.
- HTTP, databases, message brokers, market and model clients: I/O.
