# Concurrent bidding, verified

A model of an auction service that implements one bid protocol three times over PostgreSQL: with no protection
(*unsafe*), with a row lock (*pessimistic*), and with a version check and retries (*optimistic*). It also has pure auction
rules that say what a bid should do, and an independent checker that inspects committed rows. The project models all of
them and proves how they relate, for any number of calls, auctions and steps and for every interleaving of statements.

## How it is built

| module | content |
|---|---|
| `Models`, `Rules` | domain values with the conditions of their constructors; the pure rules, which are the sequential specification |
| `Checker` | the checker's loop, a specification of its report, and the proof that it accepts exactly the sequential states |
| `Transactions` | the state machine: one step per SQL statement of any call, a clock tick, a new call, or a fault |
| `LocalSteps` | the program of one call by itself, given what its statement sees |
| `BaseInvariant`, `Preservation`, `Progress` | the inductive invariant of every run of any mix of strategies; isolation; what an abort leaves |
| `SafeRefinement` | runs of the two safe strategies refine the pure rules |
| `RunSteps` | the steps of a run at which calls insert and commit |
| `Linearizability` | runs of pessimistic calls are linearizable, outcome by outcome |
| `UnsharedRuns`, `MixedLinearizability` | runs of any mix of strategies without a shared version, which safe runs are, are linearizable up to counts, but for calls that gave up and misjudged duplicates |
| `NoHistory` | lost updates and misjudged duplicates have no place in any sequential history; exactly which runs are linearizable |
| `Outcomes`, `Lookups`, `Rejections` | attempts and conflicts, accepted outcomes against committed bids, when a call is answered from a committed bid, where rejections come from |
| `Answers`, `Faults` | how every answer was decided and counted, why a call raises, what a fault becomes |
| `Contention`, `Retries` | why an update misses, how prices move, what exhaustion and rejections mean |
| `Anomaly`, `CheckedRuns` | what the checker sees after any run: shared versions, time bounds, schema constraints |
| `Deadlock` | the waits-for relation: where a circle of waits must pass, and when some call can step |
| `Witnesses`, `LostUpdates` | runs that show where a stronger claim would be false |
| `DatabaseObject`, `Strategies` | the imperative form: a database object updated in place, and the three `place_bid` methods with their retry loop and handlers, each proved to be a run of the state machine |

A `State` holds the committed tables, a clock that never goes back, the owner of each row lock, the owner of each
uncommitted entry of the unique index on request ids, the connections in use of a pool of any positive size, and for each
call its program counter with its locals. A transaction's own writes stay in its locals until COMMIT. A `Run` is a finite
sequence of states and actions from an initial state; `History(log, a)` is the commits on auction `a` in commit order.
A theorem about `run.states[i]` speaks of every reachable state. Every statement is a function of `Transactions`, whose
contract is a frame: it changes its own call only, the tables only at COMMIT, takes no lock but its auction's and only where
it reads for update or updates, and says where rows, times and misses come from. `LocalSteps` says what it makes of its call,
and the methods of `Database` make the same steps in place.

The rules taken from PostgreSQL (READ COMMITTED, sections 13.2.1 and 13.3.2 of its documentation):

- every statement sees the latest committed tables; `FOR UPDATE` waits for the row lock and returns the newest row;
- the default of `accepted_at` is evaluated before the insert waits for the unique index. The insert then fails if a bid
  with the request id is committed, waits while another transaction has an uncommitted entry, and otherwise proceeds.
  `INSERT` is therefore two steps;
- the optimistic `UPDATE` reads its clock and evaluates its WHERE on the row it finds, then waits for the lock, then
  evaluates the WHERE again on the newest row with the same clock value. It is therefore two steps;
- COMMIT publishes both writes, releases everything and returns in one step. Leaving a block that wrote nothing that
  lasts is one step and cannot fail;
- lock timeouts, statement timeouts, pool timeouts and deadlock detection are a fault that may hit any unfinished call at
  any statement, so nothing is assumed about when they strike. A bid identifier is any value never drawn before.

Auctions are those created before the run, all without bids. Time, prices and identifiers are unbounded integers; the
money bound is written out, and `GuardAgreesWithRule` shows that the sum in the SQL condition fits a signed 64-bit integer.
`Strip` removes the white space Python's `str.strip` removes.

## What the proofs found

- **Pessimistic bids can be stamped too late.** The strategy validates at a clock read under the lock
  (`src/bidding/db/strategies.py:190`), while `accepted_at` is a later clock read (`src/bidding/db/sql/001_initial_schema.sql:48`).
  `PessimisticBidMayBeStampedLate` builds, for every auction, acceptable bid and late moment, a run in which the checker
  reports a correct strategy. `ReportsAreLateInserts` gives the exact condition: after any safe run the checker reports
  something if and only if some committed pessimistic call issued its insert at a clock at or past the end.
- **An optimistic duplicate is not always replayed.** The test at `tests/integration/test_strategies.py:109-124` expects one
  accepted and one replayed outcome. `OptimisticDuplicateMayBeTooLow` gives a run with one accepted and one `BID_TOO_LOW`,
  because the request id is looked up before the auction is read and never again in that attempt, and
  `OptimisticDuplicateHasNoHistory` shows that no sequential order explains it. The exact condition is
  `RepliesAreWhatLastLooksFound`: a completed call is replayed, or told that its id was reused, if and only if its last look
  for the request id found a committed bid.
- **Lost updates and misjudged duplicates are all that breaks linearizability.** A call is misjudged if the rules rejected it
  on a row it read after its request id was committed. `UnsharedRunsAreLinearizable` puts every completed call of any mix of
  strategies without a shared version into a sequential history, but for calls that gave up and misjudged ones.
  `ExactlyLinearizable` makes it exact: when calls that share a request id name one auction, a history of all calls that did
  not give up exists if and only if no two commits share a version and no call was misjudged. Safe calls never share a
  version; pessimistic calls, and calls whose request id no other call shares, are never misjudged.
- **The two locking orders meet at a shared request id.** A pessimistic call takes the row lock before the index entry, the
  others after. `CirclesCross` shows that every circle of waits passes through a pessimistic insert that waits for a call of
  another kind with the same request id; `SeparateRequestsAreAcyclic` and `SeparateRequestsCanStep` follow for every mix in
  which those do not share one, and `MixedRunMayDeadlock` shows a deadlock for every other strategy when they do.
- **Two code paths are dead.** The error at `src/bidding/db/strategies.py:59` is never raised (`DuplicatesAlwaysResolve`), and the
  return at lines 252-256 is never reached (`OptimisticBidStrategy.Retry` ends its loop with `assert false`).
- **The lost update is exactly a shared version.** `LostUpdatesAreSharedVersions` holds of every mix of strategies, not
  only of unsafe runs, and `SharedVersionHasNoHistory` shows that a shared version has no place in any sequential history.

## Model

| member | source | states |
|---|---|---|
| Models.StripRemovesEnds | src/bidding/domain/models.py:103-109 | stripping removes exactly the white space at the two ends, and leaves none there |
| Models.StripIsIdempotent | src/bidding/domain/models.py:103-109 | a stored bidder id, stripped once, is unchanged by any later strip, so a replay compares like with like |
| Models.ConstructorAgreesWithChecks | src/bidding/db/sql/001_initial_schema.sql:15-38 | a snapshot is one its constructor takes iff its row passes every CHECK of the auctions table on prices, times, version and bid state |
| Rules.GuardAgreesWithRule | src/bidding/db/strategies.py:307-316 | for every valid row, legal amount and time, the SQL window and price conditions hold iff the pure rule accepts; the pure minimum overflows iff the SQL price condition fails for every legal amount; the sum fits 64 bits |
| Rules.AcceptanceMeans | src/bidding/domain/rules.py:78-93 | a bid is accepted iff its amount is legal, the time is in the half-open window and the amount reaches the required price; the evaluation then reports an open auction and that price; applying succeeds iff accepted, sets price, winner and next version and nothing else, and raises the required price |
| Rules.RefusalMeans | src/bidding/domain/rules.py:37-75 | the reason and the state tell which side of the window the time lies on or that the amount is short; the quoted minimum is the required price and the exact threshold of acceptance for every legal amount and every time in the window; applying fails with that reason |
| Rules.ErrorMeans | src/bidding/domain/rules.py:28-50 | evaluation raises for the amount iff it is illegal, and for overflow iff it is legal and no legal amount can ever be accepted on the row, whatever the time, closed auctions included; that is iff the required price exceeds the money bound; applying raises the same |
| Checker.Highest | src/bidding/verification/invariants.py:97 | the first bid with the greatest amount |
| Checker.FindWinner | src/bidding/verification/invariants.py:98-101 | the first bid carrying the stored winner's id, or none iff there is none |
| Checker.CheckWinner | src/bidding/verification/invariants.py:97-124 | the winner part of the report: missing, price mismatch, not highest |
| Checker.CheckHistory | src/bidding/verification/invariants.py:74-95 | the loop adds exactly: non_monotonic_bid with id, amount and required price for each bid below what its predecessor, or the start, calls for, and accepted_outside_window with id and time for each bid stamped outside the half-open window |
| Checker.ReportSaysWhatIsDeserved | src/bidding/verification/invariants.py:32-125 | every code is in the report iff row and listing deserve it in plain comparisons, with exactly its fields: versions, version count, prices, times, winner missing, price mismatch, winner not highest; none twice, in the order of the checks, history in listing order; missing auctions and empty listings as the code says |
| Checker.CheckAuctionInvariants | src/bidding/verification/invariants.py:30-125 | the method gives that report for a missing auction, an empty listing and any listing |
| Checker.HistoryClean | src/bidding/verification/invariants.py:74-95 | the loop reports nothing on a prefix iff each bid reaches the price its predecessor sets and lies in the window |
| Checker.RisingMeansLastIsHighest | src/bidding/verification/invariants.py:74-97 | when all price checks pass, amounts strictly rise, so the last bid is the only highest |
| Checker.WinnerCodes | src/bidding/verification/invariants.py:97-124 | on a rising listing the winner checks pass iff the row carries the last bid's id and amount |
| Checker.ReplayCharacterised | src/bidding/domain/rules.py:78-93 | replaying a prefix through the rules at the acceptance times succeeds iff versions count up, prices rise and times lie in the window; no step of a passing prefix overflows, and the row reached is known |
| Checker.CheckerSoundAndComplete | src/bidding/verification/invariants.py:30-125 | for money-valid bids with distinct ids the report is empty iff replaying the listing from the fresh auction succeeds, assigns exactly the listed versions and ends in exactly the stored row |
| Transactions.ExtendedIsRun | src/bidding/db/strategies.py:178-333 | a run followed by an enabled action is a run ending in that action's result |
| LocalSteps.ExecuteIsNext | src/bidding/db/strategies.py:119-368 | what a statement makes of its own call depends only on the call's locals, the committed bid with its request id, its auction's newest row, the clock and the id it draws; the order of statements is that of the three strategies |
| Answers.DecideFollowsTheRules | src/bidding/db/strategies.py:194-206 | the evaluation inside an attempt in plain comparisons: raise on overflow whatever the time, else not started, closed or too low with the price called for, the attempt and no conflicts, else go on to the insert |
| Answers.DecideAfterMissFollowsTheRules | src/bidding/db/strategies.py:349-368 | the same after a miss, with as many conflicts as attempts; an acceptable bid is tried again below the limit and given up at it |
| Answers.DecisionsFollowTheRules | src/bidding/db/strategies.py:277-288 | every evaluation of every run decides so, at the clock just read, or under the lock at the time held |
| Answers.UpdatesFollowTheGuard | src/bidding/db/strategies.py:297-328 | every optimistic update goes on iff version, window and price hold in plain comparisons, first on the row it finds and then, at the same time, on the newest row, else misses; the others always go on; what they will write is the price, the winner and the next version, counted from the row read in the unsafe strategy |
| Answers.AnswersAreCounted | src/bidding/db/strategies.py:239-368 | every answer was given at one identified statement, which fixes its counts: acceptance (attempt, misses) at the commit; reply (attempt, misses) at a look and (1, 0) on a later connection; rejection or unknown auction (attempt, 0) inside the attempt and (misses, misses) after a miss; giving up (misses, misses) |
| Answers.OverflowMeansNoRoom | src/bidding/domain/rules.py:28-34 | in any run a call raises for overflow only after reading a row on which no legal amount is ever accepted, at a clock value met after it, inside the attempt or after a miss |
| Answers.RoomMeansNoOverflow | src/bidding/domain/rules.py:28-34 | while the required price of its auction stays within the money bound no call raises for overflow |
| Answers.SafeRoomMeansNoOverflow | src/bidding/domain/rules.py:28-34 | in safe runs it is enough that the price is within the bound now |
| Faults.FaultsAreMapped | src/bidding/db/strategies.py:226-250 | every fault that strikes a call gives StrategyBusyError iff the call is inside its attempt, not on a later connection, and is pessimistic with an expired lock wait or a cancelled statement, or optimistic with a cancelled statement; otherwise the database's own error |
| Faults.FailuresAreExplained | src/bidding/db/strategies.py:226-250 | every raise of every run is one of these: a fault that struck the call, mapped so, or overflow on a row without room; there is no other |
| Preservation.RunKeepsInv | src/bidding/db/sql/001_initial_schema.sql:13-65 | the base invariant in every reachable state: every lock, index entry and connection owned by exactly the calls at the program points that own it, every held row really committed earlier, every commit checked in its window, every row its auction's latest commit |
| RunSteps.LoggedCallCommitted | src/bidding/db/strategies.py:329-333 | every bid in the log was put there by an identified commit step of the call it is attributed to |
| RunSteps.CommitEndsCall | src/bidding/db/strategies.py:329-333 | after its commit step a call stays accepted with the bid it committed |
| RunSteps.CommitWasIssued | src/bidding/db/sql/001_initial_schema.sql:48 | the accepted_at of every committed bid is the clock at the one step at which its call issued the insert that drew its id |
| Preservation.PendingRowIsValid | src/bidding/domain/models.py:61-93 | a row about to be committed is one the snapshot constructor takes |
| Progress.RunGrows | src/bidding/db/strategies.py:119-333 | over any run the log and clock only grow, calls keep command and strategy, and finished calls keep their result |
| Progress.StepIsIsolated | src/bidding/db/strategies.py:215-224 | a step on one auction never changes another auction's row or bids, unsafe runs included |
| Progress.ClosedBlockHoldsNothing | src/bidding/db/strategies.py:239-256 | leaving a block that wrote nothing that lasts, whatever the exit (an answer, a missed update, a unique violation, a retry, an error), changes no table, and the call then owns no connection, row lock or index entry |
| Progress.AbortHasNoEffect | tests/integration/test_schema.py:108-139 | a call ended by a fault at any statement changes no table; once its block is closed it owns nothing and its error is final |
| Progress.FinishedHoldsNothing | src/bidding/db/strategies.py:181-182 | a call that returned or raised owns nothing |
| Progress.PoolIsNeverExceeded | src/bidding/db/strategies.py:181 | in no reachable state are more connections taken than the pool has, and exactly the calls at work hold one |
| SafeRefinement.CommitFollowsRule | src/bidding/db/strategies.py:215-225 | when a safe call commits, the row it read is the newest row, and the rule at its validation time gives exactly the row and version it writes |
| SafeRefinement.CommitOnNewestRow | src/bidding/db/strategies.py:215-225 | a commit of any strategy that was checked against the row still newest when it commits writes exactly the row and version the rule gives at its validation time |
| SafeRefinement.ReplayMeans | src/bidding/domain/rules.py:28-34 | a history that replays has versions 1..n, rising in-range amounts with the k-th at least start plus k-1 increments, validation times in the window, and ends in its last bid |
| SafeRefinement.ReplayRises | src/bidding/domain/rules.py:28-34 | amounts along a replayed history strictly rise |
| SafeRefinement.SafeRunsRefineSequentialAuction | src/bidding/db/strategies.py:186-225 | in every reachable state of any mix of pessimistic and optimistic calls, each row equals the fold of apply_accepted_bid over its commits at their validation times; versions are exactly 1..n, the row version is n, the last bid is winner and unique highest |
| SafeRefinement.AcceptedBidsAreBounded | src/bidding/domain/rules.py:28-34 | in safe runs the k-th bid is at least start plus k-1 increments; the number of bids and the row version are at most 1 + (MAX_MONEY_CENTS - start) / increment |
| Linearizability.CommitIsServed | src/bidding/db/strategies.py:215-225 | the commit of a safe call answers and changes the tables exactly as the sequential object does with its bid at its validation time |
| Linearizability.EventIsServed | src/bidding/db/strategies.py:183-225 | a pessimistic statement where a call takes effect answers and changes the tables exactly as the sequential object does |
| Linearizability.EventsAreServed | src/bidding/db/strategies.py:183-225 | all effects of a pessimistic run, in order, take the sequential object from the initial to the current tables |
| Linearizability.RunKeepsEvents | src/bidding/db/strategies.py:183-225 | every completed call took effect exactly once with its own outcome; a call that raised or is undecided accepted nothing |
| Linearizability.EventsAreTimed | src/bidding/db/strategies.py:190 | the time an effect is judged at is a clock value between the beginning of its call and the effect |
| Linearizability.PessimisticRunsAreLinearizable | src/bidding/db/strategies.py:178-229 | every run of pessimistic calls has a history the sequential object serves, ending in the committed tables, where every completed call appears exactly once with its command and outcome, inside the call; unfinished, busy and raised calls do not appear |
| UnsharedRuns.SafeIsUnshared | src/bidding/db/strategies.py:178-333 | in a run of pessimistic and optimistic calls no two commits on an auction share a version |
| UnsharedRuns.CommitChecksNewestRow | src/bidding/db/strategies.py:127-168 | in any mix of strategies, a commit after which no two commits share a version was checked against the row that is newest when it commits |
| UnsharedRuns.CommittedBidsAreOutbid | src/bidding/domain/rules.py:28-34 | without a shared version every committed bid is below what the rules require next on its auction |
| MixedLinearizability.LockedReadIsEarly | src/bidding/db/strategies.py:186-193 | a pessimistic call that is not answered from a bid with its request id had no such bid committed when it read its row, whatever committed elsewhere meanwhile |
| MixedLinearizability.CompletedHasVerdict | src/bidding/db/strategies.py:258-288 | every completed call that was not accepted, did not give up and was not misjudged has a statement of its own at which, at a clock value met inside the call, the sequential object gives its answer and leaves the tables alone |
| MixedLinearizability.EffectsAreServed | src/bidding/db/strategies.py:119-333 | all effects of a run without a shared version, in order, take the sequential object from the initial to the current tables |
| MixedLinearizability.UnsharedRunsAreLinearizable | src/bidding/db/strategies.py:119-368 | every run of any mix of strategies in which no two commits on an auction share a version has a history the sequential object serves, ending in the committed tables, where every completed call except those that gave up and misjudged duplicates appears exactly once, with its command and outcome up to counts, at a statement and with a clock value inside the call; whatever appears is completed and appears once |
| MixedLinearizability.SafeRunsAreLinearizable | src/bidding/db/strategies.py:178-368 | in particular every run of any mix of pessimistic and optimistic calls has |
| MixedLinearizability.UnsharedRequestIsNotMisjudged | src/bidding/db/strategies.py:259-271 | a completed call whose request id no other call shares is not misjudged |
| MixedLinearizability.PessimisticIsNotMisjudged | src/bidding/db/strategies.py:190-193 | a completed pessimistic call is not misjudged, whoever shares its request id |
| MixedLinearizability.DistinctRequestsAreLinearizable | src/bidding/db/strategies.py:258-368 | in safe runs where no two calls share a request id, every completed call that did not give up is in the history |
| NoHistory.MisjudgedHasNoHistory | src/bidding/db/strategies.py:259-288 | in a run without a shared version where calls that share a request id name one auction, no sequence of events, in any order and with any times, in which the accepted calls and a misjudged one appear with their outcomes is served |
| NoHistory.ExactlyLinearizable | src/bidding/db/strategies.py:119-368 | for every run of any mix of strategies in which calls that share a request id name one auction: a history that accounts for every completed call but those that gave up exists if and only if no two commits on an auction share a version and no call was rejected by the rules on a row it read after its request id was committed |
| NoHistory.SharedVersionHasNoHistory | src/bidding/db/strategies.py:119-169 | in any mix of strategies, once two commits on an auction share a version no sequence of events in which the accepted calls appear with their outcomes is served, in any order and with any times |
| Outcomes.RunKeepsOutcomes | src/bidding/db/strategies.py:239-368 | the invariant behind all outcome results, for any mix of strategies |
| Outcomes.CommitsAreDistinct | src/bidding/db/sql/001_initial_schema.sql:42-51 | no two commits share a request id, a bid id or a call, across auctions |
| Outcomes.AcceptedOutcomesAreTheCommits | src/bidding/db/strategies.py:119-333 | accepted outcomes and committed bids are in bijection in every reachable state of any mix of strategies |
| Outcomes.OutcomesCountAttempts | src/bidding/db/strategies.py:239-256 | conflicts <= attempts <= max_attempts; an accepted outcome has conflicts = attempts - 1 = its rolled-back attempts; exhaustion counts the whole limit |
| Outcomes.RepliesAreFaithful | src/bidding/db/strategies.py:45-52 | a replayed outcome carries a committed bid with the call's request id, auction, stripped bidder and amount; request_id_reused means a committed bid has the id and another payload; a rejection quotes a minimum iff its reason is not started, closed or too low |
| Outcomes.AcceptancesAreFaithful | src/bidding/db/strategies.py:78-104 | an accepted outcome carries a committed bid of this call with its request id, auction, stripped bidder and amount, under an id this call drew, one version after the row it was checked against |
| Outcomes.DuplicatesAlwaysResolve | src/bidding/db/strategies.py:55-60 | a call resolving a unique violation always finds a committed bid; the error for an unresolved duplicate is never raised |
| Outcomes.ExistingBidStays | src/bidding/db/strategies.py:37-42 | a committed request id stays bound to the same bid for the rest of the run |
| Outcomes.LaterCallsReplay | src/bidding/db/strategies.py:183-185 | a call of any strategy begun after its request id was committed can only return that bid replayed, report the id as reused, both in one attempt, or be ended by a fault of the database |
| Lookups.RepliesAreWhatLastLooksFound | src/bidding/db/strategies.py:260-270 | in any run, under any strategy, a completed call was replayed or told its request id was reused if and only if its last look for the id found a committed bid, and then its answer is the one that bid calls for |
| Lookups.MisjudgedDuplicatesLookedEarly | src/bidding/db/strategies.py:260-271 | a completed call that was not answered from a committed bid with its request id made its last look before that bid was committed |
| Lookups.NotFoundIsUnknown | src/bidding/db/strategies.py:271-276 | under every strategy an auction is reported as not found only if it does not exist, and then no minimum is quoted |
| Rejections.RejectionsAreJustified | src/bidding/db/strategies.py:277-288 | every rejection as not started, closed or too low, in any run of any strategies, is the pure rule's verdict, with its minimum, on the committed row that an identified read of the call found and on a clock value the call met after it |
| Contention.CommitMovesForward | src/bidding/db/strategies.py:303-306 | a safe commit adds one to the version and strictly raises the required price, to above the bid committed |
| Contention.RunKeepsAll | src/bidding/db/strategies.py:335-368 | every recorded miss of a safe run is explained by a newer version or the end of the auction, with versions rising from miss to miss |
| Retries.RowsMoveForward | src/bidding/db/strategies.py:297-317 | along a safe run an auction's version and required price never fall |
| Retries.LaterCommitsCost | src/bidding/db/strategies.py:194-206 | every bid committed after a state costs at least what the rule required there |
| Retries.TooLowStaysTooLow | src/bidding/db/strategies.py:277-288 | after a read, and after a rejection as too low with minimum m, no bid below the required price, or m, ever commits on the auction; the rejected amount is below m |
| Retries.ClosedStaysClosed | src/bidding/db/strategies.py:349-361 | in any mix of strategies, a call rejected as closed met a clock value at or past the end; every bid ever committed on the auction was validated before that value, and no later clock value accepts any amount |
| Retries.NotFoundMeansUnknown | src/bidding/db/strategies.py:187-188 | under every strategy, a completed call that is not a reply reports the auction as not found if and only if it does not exist |
| Retries.ValidationInWindow | src/bidding/db/strategies.py:307-310 | every commit of any strategy was evaluated and validated inside the window |
| Retries.CheapBidsNeverExhaust | src/bidding/db/strategies.py:349-367 | in safe runs an amount below start + max_attempts * increment is never rejected as exhausted |
| Retries.FirstVersionWasRead | src/bidding/db/strategies.py:271 | the first version a call missed on is the one its first attempt read, at an identified step |
| Retries.MissesHappened | src/bidding/db/strategies.py:327-328 | every recorded miss is an identified update step whose guard fails on the newest row |
| Retries.ExhaustionNeedsContention | src/bidding/db/strategies.py:239-256 | an exhausted optimistic call observed strictly rising versions, and between its first read and its last miss at least max_attempts bids of other calls committed on the auction |
| Anomaly.VersionsHaveNoGap | src/bidding/db/strategies.py:147-168 | below every committed version of an auction each smaller positive version was committed too |
| Anomaly.ListingOfSerialTable | src/bidding/db/repositories.py:70-81 | when versions count up in commit order, the ordered listing is the commit order |
| Anomaly.SerialReport | src/bidding/verification/invariants.py:56-125 | with serial versions every check but the window passes |
| CheckedRuns.LostUpdatesAreSharedVersions | src/bidding/verification/invariants.py:56-72 | after any run, unsafe included: committed versions form a gap-free set from 1; version_sequence is reported iff auction_version is iff two commits share a version; otherwise commit order is version order and only the window check can fail |
| CheckedRuns.AcceptanceTimesAreBracketed | src/bidding/db/strategies.py:277-317 | accepted_at lies at or after the evaluation, which is in the window; for optimistic bids it lies before a second in-window clock read, hence before the end |
| CheckedRuns.ConsecutiveTimes | src/bidding/db/strategies.py:186-214 | in safe runs each bid is evaluated after its predecessor was stamped |
| CheckedRuns.AcceptanceTimesFollowVersions | src/bidding/db/repositories.py:77 | in safe runs acceptance times never fall along version order |
| CheckedRuns.SafeRunsCheckUpToTime | src/bidding/verification/invariants.py:89-95 | after a safe run the listing is the commit order and the report is empty iff every bid was stamped before the end; anything reported is a window violation, and late bids are pessimistic ones |
| CheckedRuns.ReportsAreLateInserts | src/bidding/verification/invariants.py:89-95 | after a safe run the checker reports something if and only if some committed pessimistic call issued its insert at a clock at or past the end of the auction |
| CheckedRuns.OpenAuctionsPassTheChecker | src/bidding/verification/invariants.py:89-95 | while the clock is before the end of the auction the checker reports nothing of a safe run |
| CheckedRuns.OptimisticRunsPassTheChecker | src/bidding/verification/invariants.py:30-125 | after a run of optimistic calls only, the checker reports nothing |
| CheckedRuns.ConstraintsNeverFire | src/bidding/db/sql/001_initial_schema.sql:13-65 | every reachable row and bid, and every row about to be committed, unsafe runs included, satisfies all CHECKs and the same-auction winner key |
| Deadlock.WaitingLowersRank | src/bidding/db/strategies.py:181-227 | in any mix of strategies, every wait is for a call strictly closer to its last wait, unless a pessimistic insert waits for a call of another kind with the same request id |
| Deadlock.CirclesCross | src/bidding/db/strategies.py:181-227 | in every reachable state of any mix of strategies, a chain of waits that returns to its start passes through a pessimistic insert that waits for a call of another kind with the same request id |
| Deadlock.SeparateRequestsAreAcyclic | src/bidding/db/strategies.py:181-227 | while no pessimistic call shares its request id with a call of another kind, no chain of waits returns to its start |
| Deadlock.WaitsForIsAcyclic | src/bidding/db/strategies.py:181-227 | in particular none does in an all-pessimistic run or in a run without pessimistic calls |
| Deadlock.SomeCallCanStepOrCrosses | src/bidding/db/strategies.py:259-326 | in any mix of strategies, while a call is unfinished, some unfinished call waits for nobody and has an enabled statement, or a pessimistic insert waits for a call of another kind with its request id; for any pool size of at least one |
| Deadlock.SeparateRequestsCanStep | src/bidding/db/strategies.py:259-326 | while no pessimistic call shares its request id with a call of another kind, some unfinished call waits for nobody and has an enabled statement |
| Deadlock.SomeCallCanStep | src/bidding/db/strategies.py:259-326 | in particular in an all-pessimistic run and in a run without pessimistic calls |
| Witnesses.PessimisticBidMayBeStampedLate | src/bidding/db/strategies.py:189-214 | for every fresh auction, acceptable bid and moment past the end there is a pessimistic run that stamps the bid then, and the checker reports it |
| Witnesses.OptimisticDuplicateMayBeTooLow | src/bidding/db/strategies.py:258-288 | for every fresh auction and acceptable bid with room for an increment there are two optimistic calls with one command, one accepted, the other told too low |
| Witnesses.OptimisticDuplicateHasNoHistory | tests/integration/test_strategies.py:109-124 | that run has no sequential history: in no order of events of its calls, with any clock values and at any moments, does the sequential object give both calls their outcomes |
| Witnesses.MixedRunMayDeadlock | src/bidding/db/strategies.py:186-214 | for every fresh auction, acceptable bid and non-pessimistic strategy there is a run of one pessimistic call and one of that strategy with the same command where each waits for the other and no unfinished call can step |
| LostUpdates.AnyNumberOfUpdatesCanBeLost | tests/integration/test_strategies.py:59-77 | for any two or more distinct requests at or above the start of a fresh open auction, in any order, an unsafe run accepts all at version 1 and leaves row version 1; the checker reports both version violations, and winner_not_highest if some bid exceeds the last |
| DatabaseObject.Database.constructor | src/bidding/db/sql/001_initial_schema.sql:1-59 | tables with the created auctions, no bids, nothing owned |
| DatabaseObject.Database.SelectBid | src/bidding/db/strategies.py:37-42 | scanning the bids finds the one with the request id, if any |
| DatabaseObject.Database.Interfere | src/bidding/db/strategies.py:119-333 | between statements of a call others may take any number of steps, which leave that call's locals alone |
| DatabaseObject.Database.Strike | src/bidding/db/strategies.py:226-229 | a fault ends the call: raised, owning no connection, lock or index entry |
| DatabaseObject.Database.Await | src/bidding/db/strategies.py:228-229 | waiting ends with the call ready and unchanged, or raised with the error that its strategy and its block give for a fault that struck it, and owning nothing |
| DatabaseObject.Database.StartCall | src/bidding/db/strategies.py:24 | a call begins on its first attempt, owning nothing |
| DatabaseObject.Database.OpenConnection | src/bidding/db/strategies.py:181 | is exactly the step that takes a connection |
| DatabaseObject.Database.FindRequest | src/bidding/db/strategies.py:183-185 | is exactly the first lookup step and returns the committed bid with the request id |
| DatabaseObject.Database.SelectAuction | src/bidding/db/strategies.py:63-69 | is exactly the read step; returns the newest committed row, locked in the pessimistic strategy |
| DatabaseObject.Database.DatabaseTime | src/bidding/db/strategies.py:72-75 | is exactly the clock step and returns the clock |
| DatabaseObject.Database.FindRequestLocked | src/bidding/db/strategies.py:191-193 | is exactly the second lookup step, under the lock |
| DatabaseObject.Database.InsertBid | src/bidding/db/strategies.py:78-104 | is exactly the first half of the insert: fresh id, stripped bidder, version after the row read, stamped now |
| DatabaseObject.Database.EnterIndex | src/bidding/db/sql/001_initial_schema.sql:50 | is exactly the second half: the entry is owned unless a committed bid has the request id |
| DatabaseObject.Database.UpdateAuction | src/bidding/db/strategies.py:297-326 | is exactly the update step of each strategy |
| DatabaseObject.Database.RecheckGuard | src/bidding/db/strategies.py:307-317 | is exactly the re-evaluation of the guard under the lock |
| DatabaseObject.Database.CommitWrites | src/bidding/db/strategies.py:329-333 | both writes reach the tables together and everything owned is given back |
| DatabaseObject.Database.CloseBlock | src/bidding/db/strategies.py:239-250 | is exactly the step that leaves a block, after which the call owns no connection, lock or index entry |
| DatabaseObject.Database.Leave | src/bidding/db/strategies.py:239-250 | the same after any interference: the call goes on with the result, the recorded miss, the duplicate to resolve, the next attempt or the error it was closing with, and owns nothing |
| DatabaseObject.Database.FindRequestAgain | src/bidding/db/strategies.py:339-341 | is exactly the lookup step after a miss or a unique violation |
| DatabaseObject.Database.SelectAuctionAgain | src/bidding/db/strategies.py:342-348 | is exactly the read step after a miss, without a lock |
| DatabaseObject.Database.DatabaseTimeAgain | src/bidding/db/strategies.py:349-353 | is exactly the clock step after a miss and returns the clock |
| Strategies.ResolveDuplicateRequest | src/bidding/db/strategies.py:55-60 | on a new connection the call ends with the committed bid replayed if auction, stripped bidder and amount are its own, else with the reuse error without a minimum, counted as one attempt; or is ended by a fault; the raise for want of a bid is never reached |
| Strategies.ExamineUnlocked | src/bidding/db/strategies.py:259-288 | either the call is settled, explained by a committed bid with its request id, an auction that does not exist, or the rule's verdict on a row it read and a clock value it met afterwards, with the counts of the statement that gave it; or it is about to insert on a row, as created or as a commit left it, and a time at which the rule accepts the bid; or it raised by a fault or on a row without room |
| Strategies.ExamineLocked | src/bidding/db/strategies.py:181-206 | the same, and when the call is about to insert it owns the row lock and the row it has read is still the newest committed one |
| Strategies.GuardedUpdate | src/bidding/db/strategies.py:297-328 | true: the guarded update is ready to commit this bid; false: it missed on the version read |
| Strategies.WriteBid | src/bidding/db/strategies.py:208-227 | insert, update and commit, or resolution of the unique violation; ends as the call's run ends |
| Strategies.UnsafeBidStrategy.PlaceBid | src/bidding/db/strategies.py:119-171 | over any interference the call is a run of the unsafe program on its command and returns or raises exactly what that run's call reports; every outcome is explained, with payload, minimum and counts, and every error by a fault mapped for this strategy or by want of room |
| Strategies.PessimisticBidStrategy.PlaceBid | src/bidding/db/strategies.py:178-229 | over any interference the call is a run of the pessimistic program on its command and returns or raises exactly what that run's call reports; every outcome is explained, with payload, minimum and counts, and every error by a fault mapped for this strategy or by want of room |
| Strategies.NewOptimisticStrategy | src/bidding/db/strategies.py:233-237 | a strategy is made if and only if the number of attempts is positive, and keeps it |
| Strategies.OptimisticBidStrategy.TryOnce | src/bidding/db/strategies.py:258-333 | one attempt ends answered or raised, both explained, with a unique violation to resolve, or with a recorded miss of the version it read |
| Strategies.OptimisticBidStrategy.ClassifyAfterMiss | src/bidding/db/strategies.py:335-368 | after a miss the call is answered or raised, both explained, or goes on to the next attempt, and this only below the limit |
| Strategies.OptimisticBidStrategy.PlaceBid | src/bidding/db/strategies.py:239-256 | the retry loop is a run of the optimistic program and returns or raises exactly what that run's call reports; every outcome and every error is explained |
| Strategies.OptimisticBidStrategy.Retry | src/bidding/db/strategies.py:239-256 | the loop always answers from inside |

## Left out

- PostgreSQL itself, Psycopg and SQL text: assumed as the step rules above; indexes and query plans are not modelled.
- The `FOR KEY SHARE` lock that the foreign-key check of an insert takes on the auction row has no step of its own: it
  conflicts neither with another such lock nor with a non-key update, and a pessimistic inserter owns the row already. The
  waits it can add between a pessimistic call and one of another kind are part of `Deadlock.WaitsFor`, so the deadlock
  theorems hold with them.
- Crashes between COMMIT and the reply, and a COMMIT that fails: COMMIT and return are one step.
- Which fault strikes which statement: any fault may end any unfinished call at any statement, which allows more runs
  than the database does.
- Liveness under unfair scheduling: `Deadlock.SomeCallCanStepOrCrosses` says some call can step, not that each one finishes.
- Creation and deletion of auctions during a run, and auctions that already have bids when a run begins.
- The checker's two separate reads (`src/bidding/verification/invariants.py:32`, `:39`): it is given one row and one ordered listing.
- The wording of violation messages: a violation carries its code and the numbers in its message.
- Titles, `created_at`, time zones and the types of arguments: only ids, prices, times, winners and versions are kept.
- UUID generation: a drawn bid id is new; the version-4 format is not modelled.
- The test hook between the unsafe read and its insert: interference may happen there anyway.
- A call that gave up has no counterpart in a sequential object, which never retries.
- NoHistory.ExactlyLinearizable: says nothing of runs in which one request id is used for two auctions; there a misjudged
  call may still have a place before the bid it missed, so only `UnsharedRunsAreLinearizable` applies.
- FastAPI routes, schemas, WebSocket delivery, migrations, configuration and benchmarks: transport and tooling.
